/** The user roles of types/user.ts: a string enum with the two values ADMIN and SALES. */
module Roles {
  import opened Wrappers

  datatype Role = Admin | Sales

  /** The string value each enum member stands for. */
  function RoleName(r: Role): string
  {
    match r
    case Admin => "ADMIN"
    case Sales => "SALES"
  }

  /** `Object.values(UserRole).includes(s)`, returning the member that matched. */
  function ParseRole(s: string): (r: Option<Role>)
    ensures r.Some? ==> RoleName(r.value) == s
    ensures r.None? ==> s != "ADMIN" && s != "SALES"
  {
    if s == "ADMIN" then Some(Admin)
    else if s == "SALES" then Some(Sales)
    else None
  }

  /** Every role survives the trip to its string value and back. */
  lemma ParseRoleName(r: Role)
    ensures ParseRole(RoleName(r)) == Some(r)
  {
  }
}
