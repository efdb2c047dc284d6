// Org-membership guards (app/services/policy.py): the current-org lookup,
// require_member, role_required and the JSON-or-abort error responder.
module Policy {
  import opened Wrappers
  import opened Text
  import opened Roles

  /** The logged-in user, or the anonymous user (not authenticated, no org_id). */
  datatype CurrentUser = Anonymous | LoggedIn(id: int, orgId: Option<int>)

  /** Memberships keyed by (org_id, user_id), which is unique; the value is the role. */
  type Memberships = map<(int, int), Role>

  /** The request parts _abort_smart reads. */
  datatype Request = Request(accept: Option<string>, path: string)

  datatype Denial = Unauthorized | Forbidden | NotFound

  function Code(d: Denial): int
  {
    match d
    case Unauthorized => 401
    case Forbidden => 403
    case NotFound => 404
  }

  function ErrorName(d: Denial): string
  {
    match d
    case Unauthorized => "unauthorized"
    case Forbidden => "forbidden"
    case NotFound => "not_found"
  }

  datatype Response<T> = JsonError(error: string, code: int) | HttpAbort(code: int) | View(result: T)

  /** Python truthiness of an org id. */
  predicate Present(oid: Option<int>)
  {
    oid.Some? && oid.value != 0
  }

  /** _current_org_id(): the session's current_org_id, falling back to the
      user's org_id only when the session value is falsy and a user is logged in. */
  function CurrentOrgId(sessionOrgId: Option<int>, user: CurrentUser): (oid: Option<int>)
    ensures Present(sessionOrgId) ==> oid == sessionOrgId
    ensures !Present(sessionOrgId) && user.LoggedIn? ==> oid == user.orgId
    ensures !Present(sessionOrgId) && user.Anonymous? ==> oid == sessionOrgId
  {
    if !Present(sessionOrgId) && user.LoggedIn? then user.orgId else sessionOrgId
  }

  /** The client asked for JSON: Accept contains "application/json" in any
      letter case, or the path ends in ".json". */
  predicate WantsJson(req: Request)
  {
    var accept := Lower(if req.accept.Some? then req.accept.value else "");
    Contains(accept, "application/json") || EndsWith(req.path, ".json")
  }

  /** _abort_smart(code). */
  function AbortSmart<T>(d: Denial, req: Request): (r: Response<T>)
    ensures r.JsonError? <==> WantsJson(req)
    ensures r.JsonError? ==> r.code == Code(d) && r.error == ErrorName(d)
    ensures r.HttpAbort? ==> r.code == Code(d)
  {
    if WantsJson(req) then JsonError(ErrorName(d), Code(d)) else HttpAbort(Code(d))
  }

  /** The membership chain shared by both decorators: the denial, if any. */
  function MemberDenial(sessionOrgId: Option<int>, user: CurrentUser, ms: Memberships): Option<Denial>
  {
    if user.Anonymous? then Some(Unauthorized)
    else
      var oid := CurrentOrgId(sessionOrgId, user);
      if !Present(oid) then Some(Unauthorized)
      else if (oid.value, user.id) !in ms then Some(NotFound)
      else None
  }

  /** require_member(view). */
  function RequireMember<T>(req: Request, sessionOrgId: Option<int>, user: CurrentUser, ms: Memberships, view: T): (r: Response<T>)
    ensures r.View? <==> (user.LoggedIn? && Present(CurrentOrgId(sessionOrgId, user))
                          && (CurrentOrgId(sessionOrgId, user).value, user.id) in ms)
    ensures r.View? ==> r.result == view
  {
    match MemberDenial(sessionOrgId, user, ms)
    case Some(d) => AbortSmart(d, req)
    case None => View(view)
  }

  /** role_required(*roles)(view). */
  function RoleRequired<T>(roles: set<Role>, req: Request, sessionOrgId: Option<int>, user: CurrentUser, ms: Memberships, view: T): Response<T>
  {
    match MemberDenial(sessionOrgId, user, ms)
    case Some(d) => AbortSmart(d, req)
    case None =>
      var oid := CurrentOrgId(sessionOrgId, user);
      if ms[(oid.value, user.id)] !in roles then AbortSmart(Forbidden, req) else View(view)
  }

  /** role_required is require_member plus one step: where require_member lets
      the request through, the role decides between the view and 403. */
  lemma RoleRequiredRefinesMember<T>(roles: set<Role>, req: Request, sessionOrgId: Option<int>, user: CurrentUser, ms: Memberships, view: T)
    ensures var m := RequireMember(req, sessionOrgId, user, ms, view);
      var r := RoleRequired(roles, req, sessionOrgId, user, ms, view);
      && (!m.View? ==> r == m)
      && (m.View? ==> var oid := CurrentOrgId(sessionOrgId, user).value;
            r == if ms[(oid, user.id)] in roles then m else AbortSmart(Forbidden, req))
  {
  }

  /** The denial codes, in order: 401 for an anonymous caller or a missing org,
      then 404 for a missing membership, then 403 for a role outside `roles`. */
  lemma RoleRequiredCodes<T>(roles: set<Role>, req: Request, sessionOrgId: Option<int>, user: CurrentUser, ms: Memberships, view: T)
    ensures var r := RoleRequired(roles, req, sessionOrgId, user, ms, view);
      var oid := CurrentOrgId(sessionOrgId, user);
      && (user.Anonymous? ==> r == AbortSmart(Unauthorized, req))
      && (user.LoggedIn? && !Present(oid) ==> r == AbortSmart(Unauthorized, req))
      && (user.LoggedIn? && Present(oid) && (oid.value, user.id) !in ms ==> r == AbortSmart(NotFound, req))
      && (user.LoggedIn? && Present(oid) && (oid.value, user.id) in ms ==>
            r == if ms[(oid.value, user.id)] in roles then View(view) else AbortSmart(Forbidden, req))
  {
  }

  /** An anonymous caller only ever sees 401, never 403 or 404. */
  lemma AnonymousOnly401<T>(roles: set<Role>, req: Request, sessionOrgId: Option<int>, ms: Memberships, view: T)
    ensures var r := RoleRequired(roles, req, sessionOrgId, Anonymous, ms, view);
      (r.JsonError? || r.HttpAbort?) && r.code == 401
    ensures var r := RequireMember(req, sessionOrgId, Anonymous, ms, view);
      (r.JsonError? || r.HttpAbort?) && r.code == 401
  {
  }

  /** The JSON requests of the policy tests: anonymous -> 401 "unauthorized";
      logged in without a membership -> 404 "not_found"; a member calling an
      admin/owner route -> 403 "forbidden"; an admin -> the view. */
  lemma PolicyScenarios(orgId: int, userId: int, path: string)
    requires orgId != 0
    ensures var req := Request(Some("application/json"), path);
      var user := LoggedIn(userId, Some(orgId));
      var roles := {Admin, Owner};
      && RequireMember(req, None, Anonymous, map[], 0) == JsonError("unauthorized", 401)
      && RequireMember(req, None, user, map[], 0) == JsonError("not_found", 404)
      && RoleRequired(roles, req, None, user, map[(orgId, userId) := Member], 0) == JsonError("forbidden", 403)
      && RoleRequired(roles, req, None, user, map[(orgId, userId) := Admin], 0) == View(0)
  {
    var accept := Lower("application/json");
    assert accept == "application/json";
    assert OccursAt(accept, "application/json", 0);
  }
}
