// Membership roles: the three values the org_memberships CHECK constraint
// admits.
module Roles {
  datatype Role = Owner | Admin | Member

  function Name(r: Role): string
  {
    match r
    case Owner => "owner"
    case Admin => "admin"
    case Member => "member"
  }
}
