/**
 * The decision of the `roleAuth` middleware (role-auth.middleware.ts): let the request through,
 * or reject it with status 401 and a message.
 */
module RoleAuth {
  import opened Wrappers
  import opened Text

  datatype Decision = Allow | Reject(status: int, message: string)

  /** The roles a user record may carry. */
  const KnownRoles: seq<string> := ["ADMIN", "USER"]

  const InvalidRoleMessage: string := "Invalid user role"

  /** The role as shown in a message: its first character, then the rest lower-cased (`toLocaleLowerCase` in a non-Turkic locale). */
  function FormatRole(role: string): (r: string)
    ensures |r| == |role|
    ensures role != [] ==> r[0] == role[0]
    ensures role != [] ==> IsLower(r[1..])
    ensures Lower(r) == Lower(role)
  {
    if role == [] then []
    else
      var r := [role[0]] + Lower(role[1..]);
      LowerIsLower(role[1..]);
      LowerAppend([role[0]], Lower(role[1..]));
      LowerAppend([role[0]], role[1..]);
      assert [role[0]] + role[1..] == role;
      r
  }

  function DeniedMessage(role: string): string
  {
    FormatRole(role) + " can not access this resource"
  }

  lemma FormatKnownRoles()
    ensures FormatRole("ADMIN") == "Admin"
    ensures FormatRole("USER") == "User"
  {
    assert "ADMIN"[1..] == "DMIN";
    assert LowerChar('D') == 'd' && LowerChar('M') == 'm' && LowerChar('I') == 'i' && LowerChar('N') == 'n';
    assert Lower("DMIN") == "dmin";
    assert "USER"[1..] == "SER";
    assert LowerChar('S') == 's' && LowerChar('E') == 'e' && LowerChar('R') == 'r';
    assert Lower("SER") == "ser";
  }

  /**
   * `roleAuth(roles, publicRoutes)` applied to a request for `path` by a user whose role field is
   * `role` (`None` for null or undefined).
   */
  function Decide(roles: seq<string>, publicRoutes: seq<string>, path: string, role: Option<string>): (d: Decision)
    ensures d == Allow <==> path in publicRoutes || (role.Some? && role.value in KnownRoles && role.value in roles)
    ensures d.Reject? ==> d.status == 401
    ensures d == Reject(401, InvalidRoleMessage) <==> path !in publicRoutes && (role.None? || role.value !in KnownRoles)
    ensures role.Some? ==> (d == Reject(401, DeniedMessage(role.value)) <==>
      path !in publicRoutes && role.value in KnownRoles && role.value !in roles)
  {
    if path in publicRoutes then Allow
    else if role.None? || role.value !in KnownRoles then Reject(401, InvalidRoleMessage)
    else if role.value !in roles then Reject(401, DeniedMessage(role.value))
    else Allow
  }

  /** A public route is let through whatever the user's role, valid or not. */
  lemma PublicRouteIgnoresRole(roles: seq<string>, publicRoutes: seq<string>, path: string, r1: Option<string>, r2: Option<string>)
    requires path in publicRoutes
    ensures Decide(roles, publicRoutes, path, r1) == Decide(roles, publicRoutes, path, r2) == Allow
  {
  }

  /** Allowing more roles, or making more routes public, never turns an allowed request away. */
  lemma DecideMonotone(roles: seq<string>, moreRoles: seq<string>, publicRoutes: seq<string>,
                       morePublic: seq<string>, path: string, role: Option<string>)
    requires forall x :: x in roles ==> x in moreRoles
    requires forall x :: x in publicRoutes ==> x in morePublic
    requires Decide(roles, publicRoutes, path, role) == Allow
    ensures Decide(moreRoles, morePublic, path, role) == Allow
  {
  }

  /** The message for an ADMIN who is not allowed: "Admin can not access this resource". */
  lemma DeniedAdminMessage()
    ensures DeniedMessage("ADMIN") == "Admin can not access this resource"
  {
    FormatKnownRoles();
  }

  /** The message for a USER who is not allowed: "User can not access this resource". */
  lemma DeniedUserMessage()
    ensures DeniedMessage("USER") == "User can not access this resource"
  {
    FormatKnownRoles();
  }

  lemma DeniedAdmin(roles: seq<string>, publicRoutes: seq<string>, path: string)
    requires path !in publicRoutes && "ADMIN" !in roles
    ensures Decide(roles, publicRoutes, path, Some("ADMIN")) == Reject(401, "Admin can not access this resource")
  {
    DeniedAdminMessage();
    assert "ADMIN" in KnownRoles;
  }
}
