// The operator CLI (app/cli.py): bootstrap an org owner, create users, and
// promote or demote org members. The database is a Directory object whose
// row lists and membership table the commands update; a command that fails
// (a ClickException, or an integrity error raised on flush) rolls back and
// leaves every table as it was.
module Cli {
  import opened Wrappers
  import opened Text
  import opened Roles

  datatype Org = Org(name: string, isActive: bool)
  datatype User = User(email: string, orgId: Option<int>, isActive: bool)

  /** Memberships keyed by (org_id, user_id), unique by constraint. */
  type Memberships = map<(int, int), Role>

  datatype CliError =
    | UserExists          // "User already exists"
    | OrgNotFound         // "Org id ... not found"
    | UserNotFound        // "User not found"
    | MembershipNotFound  // "Membership not found"
    | LastOwner           // "Refused: cannot demote the last owner of this org"
    | AmbiguousOrgName    // one_or_none() found several orgs with the name
    | Integrity           // a database constraint refused the write

  /** The user ids holding the owner role in an org. */
  function Owners(ms: Memberships, orgId: int): set<int>
  {
    set k | k in ms && k.0 == orgId && ms[k] == Owner :: k.1
  }

  /** members demote, on the membership table: refuses a missing membership and
      the org's last owner, otherwise sets the role to member. */
  function Demote(ms: Memberships, orgId: int, userId: int): (r: Result<Memberships, CliError>)
    ensures r.Err? <==> (orgId, userId) !in ms || (ms[(orgId, userId)] == Owner && |Owners(ms, orgId)| <= 1)
    ensures r.Ok? ==> r.value == ms[(orgId, userId) := Member]
  {
    if (orgId, userId) !in ms then Err(MembershipNotFound)
    else if ms[(orgId, userId)] == Owner && |Owners(ms, orgId)| <= 1 then Err(LastOwner)
    else Ok(ms[(orgId, userId) := Member])
  }

  /** After a successful demote, every org that had an owner still has one. */
  lemma DemoteKeepsAnOwner(ms: Memberships, orgId: int, userId: int, org: int)
    requires Demote(ms, orgId, userId).Ok?
    requires |Owners(ms, org)| >= 1
    ensures |Owners(Demote(ms, orgId, userId).value, org)| >= 1
  {
    var ms' := Demote(ms, orgId, userId).value;
    if org != orgId {
      assert Owners(ms', org) == Owners(ms, org);
    } else if ms[(orgId, userId)] != Owner {
      assert Owners(ms', org) == Owners(ms, org);
    } else {
      assert Owners(ms', org) == Owners(ms, org) - {userId};
      assert userId in Owners(ms, org);
    }
  }

  /** A demote changes one membership's role and nothing else. */
  lemma DemoteOnlyChangesRole(ms: Memberships, orgId: int, userId: int)
    requires Demote(ms, orgId, userId).Ok?
    ensures var ms' := Demote(ms, orgId, userId).value;
      ms'.Keys == ms.Keys && ms'[(orgId, userId)] == Member
      && forall k :: k in ms && k != (orgId, userId) ==> ms'[k] == ms[k]
  {
  }

  /** members promote, on the membership table: inserts or overwrites. */
  function Promote(ms: Memberships, orgId: int, userId: int, role: Role): (r: Memberships)
    ensures r.Keys == ms.Keys + {(orgId, userId)}
    ensures r[(orgId, userId)] == role
    ensures forall k :: k in ms && k != (orgId, userId) ==> r[k] == ms[k]
  {
    ms[(orgId, userId) := role]
  }

  /** Promoting to owner never removes an owner. */
  lemma PromoteOwnerGrowsOwners(ms: Memberships, orgId: int, userId: int)
    ensures Owners(Promote(ms, orgId, userId, Owner), orgId) == Owners(ms, orgId) + {userId}
  {
    var r := Promote(ms, orgId, userId, Owner);
    assert (orgId, userId) in r;
    forall u | u in Owners(r, orgId) ensures u in Owners(ms, orgId) + {userId} {
      if u != userId {
        assert (orgId, u) in ms;
      }
    }
  }

  class Directory {
    /** Org rows; the org with id i is orgs[i - 1]. */
    var orgs: seq<Org>
    /** User rows; the user with id i is users[i - 1]. */
    var users: seq<User>
    var memberships: Memberships

    /** Memberships and users refer to existing rows, and emails are unique
        ignoring letter case (the users table's unique index). */
    ghost predicate Valid()
      reads this
    {
      && (forall k :: k in memberships ==> 1 <= k.0 <= |orgs| && 1 <= k.1 <= |users|)
      && (forall i :: 0 <= i < |users| && users[i].orgId.Some? ==> 1 <= users[i].orgId.value <= |orgs|)
      && (forall i, j :: 0 <= i < j < |users| ==> Lower(users[i].email) != Lower(users[j].email))
    }

    constructor ()
      ensures Valid() && orgs == [] && users == [] && memberships == map[]
    {
      orgs, users, memberships := [], [], map[];
    }

    /** Ids of the orgs with exactly this name. */
    function OrgsNamed(name: string): (ids: set<int>)
      reads this
      ensures forall id :: id in ids ==> 1 <= id <= |orgs| && orgs[id - 1].name == name
    {
      set i | 0 <= i < |orgs| && orgs[i].name == name :: i + 1
    }

    /** The user whose email matches exactly (filter_by(email=email)). */
    function UserByEmail(email: string): (r: Option<int>)
      reads this
      requires Valid()
      ensures r.Some? ==> 1 <= r.value <= |users| && users[r.value - 1].email == email
      ensures r.None? ==> forall i :: 0 <= i < |users| ==> users[i].email != email
    {
      if exists i :: 0 <= i < |users| && users[i].email == email then
        var i :| 0 <= i < |users| && users[i].email == email;
        Some(i + 1)
      else None
    }

    /** Inserting this email would clash with the case-insensitive unique index. */
    predicate EmailClash(email: string)
      reads this
    {
      exists i :: 0 <= i < |users| && Lower(users[i].email) == Lower(email)
    }

    /** _get_or_create_org(name): the one org with that name, or a new active
        org appended when there is none. */
    method GetOrCreateOrg(name: string) returns (r: Result<int, CliError>)
      requires Valid()
      modifies this
      ensures Valid() && users == old(users) && memberships == old(memberships)
      ensures |old(OrgsNamed(name))| == 0 ==> r == Ok(|old(orgs)| + 1) && orgs == old(orgs) + [Org(name, true)]
      ensures |old(OrgsNamed(name))| == 1 ==> r.Ok? && old(OrgsNamed(name)) == {r.value} && orgs == old(orgs)
      ensures |old(OrgsNamed(name))| > 1 ==> r == Err(AmbiguousOrgName) && orgs == old(orgs)
    {
      var named := OrgsNamed(name);
      if |named| == 0 {
        orgs := orgs + [Org(name, true)];
        r := Ok(|orgs|);
      } else if |named| == 1 {
        var id :| id in named;
        assert |named - {id}| == 0;
        assert named == {id};
        r := Ok(id);
      } else {
        r := Err(AmbiguousOrgName);
      }
    }

    /** bootstrap owner: refuses an existing email; otherwise gets or creates
        the org, creates the user in it and makes that user its owner. */
    method BootstrapOwner(orgName: string, email: string) returns (r: Result<(int, int), CliError>)
      requires Valid()
      modifies this
      ensures Valid()
      ensures old(UserByEmail(email)).Some? ==> r == Err(UserExists)
      ensures old(UserByEmail(email)).None? && |old(OrgsNamed(orgName))| > 1 ==> r == Err(AmbiguousOrgName)
      ensures old(UserByEmail(email)).None? && |old(OrgsNamed(orgName))| <= 1 ==>
        (r.Ok? <==> !old(EmailClash(email))) && (r.Err? ==> r == Err(Integrity))
      ensures r.Err? ==> orgs == old(orgs) && users == old(users) && memberships == old(memberships)
      ensures r.Ok? ==>
        var (orgId, userId) := r.value;
        && old(UserByEmail(email)).None? && !old(EmailClash(email))
        && 1 <= orgId <= |orgs| && orgs[orgId - 1].name == orgName
        && |old(orgs)| <= |orgs| <= |old(orgs)| + 1 && orgs[..|old(orgs)|] == old(orgs)
        && userId == |old(users)| + 1
        && users == old(users) + [User(email, Some(orgId), true)]
        && memberships == old(memberships)[(orgId, userId) := Owner]
    {
      if UserByEmail(email).Some? {
        return Err(UserExists);
      }
      var orgs0 := orgs;
      var o := GetOrCreateOrg(orgName);
      if o.Err? {
        return Err(o.error);
      }
      if EmailClash(email) {
        orgs := orgs0;
        return Err(Integrity);
      }
      var orgId := o.value;
      assert orgs[orgId - 1].name == orgName by {
        if orgs != orgs0 { assert orgId == |orgs|; }
      }
      users := users + [User(email, Some(orgId), true)];
      var userId := |users|;
      memberships := memberships[(orgId, userId) := Owner];
      r := Ok((orgId, userId));
    }

    /** users create: refuses an existing email and an unknown org id; otherwise
        creates the user in that org with one membership of the given role
        (member or owner, the choices the command offers). */
    method UsersCreate(email: string, orgId: int, role: Role) returns (r: Result<int, CliError>)
      requires Valid()
      requires role == Member || role == Owner
      modifies this
      ensures Valid() && orgs == old(orgs)
      ensures old(UserByEmail(email)).Some? ==> r == Err(UserExists)
      ensures old(UserByEmail(email)).None? && !(1 <= orgId <= |old(orgs)|) ==> r == Err(OrgNotFound)
      ensures old(UserByEmail(email)).None? && 1 <= orgId <= |old(orgs)| ==>
        (r.Ok? <==> !old(EmailClash(email))) && (r.Err? ==> r == Err(Integrity))
      ensures r.Err? ==> users == old(users) && memberships == old(memberships)
      ensures r.Ok? ==>
        && 1 <= orgId <= |orgs| && !old(EmailClash(email))
        && r.value == |old(users)| + 1
        && users == old(users) + [User(email, Some(orgId), true)]
        && memberships == old(memberships)[(orgId, r.value) := role]
    {
      if UserByEmail(email).Some? {
        return Err(UserExists);
      }
      if !(1 <= orgId <= |orgs|) {
        return Err(OrgNotFound);
      }
      if EmailClash(email) {
        return Err(Integrity);
      }
      users := users + [User(email, Some(orgId), true)];
      memberships := memberships[(orgId, |users|) := role];
      r := Ok(|users|);
    }

    /** members promote: an upsert of the membership's role (admin or owner).
        The org id is not checked by the command; a membership for an org that
        does not exist is refused by the foreign key at commit. */
    method MembersPromote(orgId: int, email: string, role: Role) returns (r: Result<(), CliError>)
      requires Valid()
      requires role == Admin || role == Owner
      modifies this`memberships
      ensures Valid()
      ensures old(UserByEmail(email)).None? ==> r == Err(UserNotFound)
      ensures old(UserByEmail(email)).Some? && !(1 <= orgId <= |old(orgs)|) ==> r == Err(Integrity)
      ensures old(UserByEmail(email)).Some? && 1 <= orgId <= |old(orgs)| ==> r.Ok?
      ensures r.Err? ==> memberships == old(memberships)
      ensures r.Ok? ==> (old(UserByEmail(email)).Some?
        && memberships == Promote(old(memberships), orgId, old(UserByEmail(email)).value, role))
    {
      var u := UserByEmail(email);
      if u.None? {
        return Err(UserNotFound);
      }
      if !(1 <= orgId <= |orgs|) {
        return Err(Integrity);
      }
      memberships := Promote(memberships, orgId, u.value, role);
      r := Ok(());
    }

    /** members demote: refuses a missing user, a missing membership and the
        org's last owner; otherwise sets the role to member. */
    method MembersDemote(orgId: int, email: string) returns (r: Result<(), CliError>)
      requires Valid()
      modifies this`memberships
      ensures Valid()
      ensures old(UserByEmail(email)).None? ==> r == Err(UserNotFound)
      ensures old(UserByEmail(email)).Some? ==>
        match Demote(old(memberships), orgId, old(UserByEmail(email)).value)
        case Err(e) => r == Err(e) && memberships == old(memberships)
        case Ok(ms) => r == Ok(()) && memberships == ms
      ensures r.Err? ==> memberships == old(memberships)
    {
      var u := UserByEmail(email);
      if u.None? {
        return Err(UserNotFound);
      }
      match Demote(memberships, orgId, u.value)
      case Err(e) =>
        r := Err(e);
      case Ok(ms) =>
        memberships := ms;
        r := Ok(());
    }
  }
}
