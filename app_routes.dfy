/**
 * The single-page app's shell: the role it derives from the stored token,
 * and the route table, in which each protected route exists only for the
 * roles listed beside it, the root path redirects by role, and every path
 * without a route redirects to the root.
 */
module AppRoutes {
  import opened Common

  /**
   * The token's payload segment after base64 and JSON decoding. Decoding
   * itself is a parameter `decode` of the operations below; None stands for
   * the exception a malformed token raises.
   */
  datatype Payload = Payload(roleId: Option<int>, name: Option<string>)

  /** A stored token is present when it is a non-empty string (JavaScript truthiness). */
  predicate HasToken(stored: Option<string>)
  {
    stored.Some? && stored.value != ""
  }

  /** The role name the shell derives: "admin", "staff", "user", or "" without a usable token. */
  function RoleFor(stored: Option<string>, decode: string -> Option<Payload>): (role: string)
    ensures role == "" <==> !HasToken(stored) || decode(stored.value).None?
    ensures role == "admin" <==> HasToken(stored) && decode(stored.value).Some?
                                 && decode(stored.value).value.roleId == Some(3)
    ensures role == "staff" <==> HasToken(stored) && decode(stored.value).Some?
                                 && decode(stored.value).value.roleId == Some(2)
    ensures role == "user" <==> HasToken(stored) && decode(stored.value).Some?
                                && decode(stored.value).value.roleId != Some(3)
                                && decode(stored.value).value.roleId != Some(2)
  {
    if !HasToken(stored) then ""
    else match decode(stored.value)
      case None => ""
      case Some(p) => if p.roleId == Some(3) then "admin" else if p.roleId == Some(2) then "staff" else "user"
  }

  /** The shell's state: the token it last read and the role derived from it. */
  class AppState {
    var token: Option<string>
    var role: string

    /** Initially the stored token is read and the role is empty until the first update. */
    constructor (stored: Option<string>)
      ensures token == stored && role == ""
    {
      token := stored;
      role := "";
    }

    /** Runs on every location change and token event: re-reads the token, re-derives the role. */
    method UpdateTokenAndRole(stored: Option<string>, decode: string -> Option<Payload>)
      modifies this
      ensures token == stored && role == RoleFor(stored, decode)
    {
      token := stored;
      if HasToken(stored) {
        match decode(stored.value)
        case None =>
          role := "";
        case Some(p) =>
          if p.roleId == Some(3) {
            role := "admin";
          } else if p.roleId == Some(2) {
            role := "staff";
          } else {
            role := "user";
          }
      } else {
        role := "";
      }
    }
  }

  // ---------------------------------------------------------------------------
  // The route table
  // ---------------------------------------------------------------------------

  datatype Outcome = Page(name: string) | Redirect(to: string)

  /** A `:id` parameter: one non-empty path segment. */
  predicate IsSegment(s: string)
  {
    s != [] && forall i :: 0 <= i < |s| ==> s[i] != '/'
  }

  /** `path` is `prefix` followed by one `:id` segment. */
  predicate WithId(path: string, prefix: string)
  {
    |prefix| <= |path| && path[..|prefix|] == prefix && IsSegment(path[|prefix|..])
  }

  predicate StaffArea(role: string) { role == "admin" || role == "staff" }

  /**
   * The page of the protected route declared for `path` that is rendered for
   * `role`, if any. Each alternative is one route of the table together with
   * the role condition it is rendered under; the declared paths are pairwise
   * distinct, so at most one alternative can match.
   */
  function ProtectedPage(path: string, role: string): Option<string>
  {
    if path == "/AssignAdmin" && StaffArea(role) then Some("AssignAdmin")
    else if path == "/ReportAdmin" && StaffArea(role) then Some("ReportAdmin")
    else if path == "/DashboardAdmin" && StaffArea(role) then Some("DashboardAdmin")
    else if path == "/ManagesAdmin" && role == "admin" then Some("ManagesAdmin")
    else if path == "/SystemSetting" && role == "admin" then Some("SystemSetting")
    else if path == "/SubNewTicket" && role == "user" then Some("SubNewTicket")
    else if path == "/MyTicket" && role == "user" then Some("MyTicket")
    else if WithId(path, "/TicketDetail/") && (role == "user" || StaffArea(role)) then Some("TicketDetail")
    else if path == "/DashboardUser" && role == "user" then Some("DashboardUser")
    else if path == "/ProfileUser" && role == "user" then Some("ProfileUser")
    else if path == "/ProfileAdmin" && role == "admin" then Some("ProfileAdmin")
    else if path == "/ProfileStaff" && role == "staff" then Some("ProfileStaff")
    else if WithId(path, "/EditTicket/edit/") && role == "staff" then Some("EditTicket")
    else None
  }

  /** Where "/" sends the visitor. */
  function RootTarget(token: Option<string>, role: string): (to: string)
    ensures !HasToken(token) ==> to == "/login"
    ensures HasToken(token) && StaffArea(role) ==> to == "/DashboardAdmin"
    ensures HasToken(token) && !StaffArea(role) ==> to == "/DashboardUser"
  {
    if !HasToken(token) then "/login"
    else if StaffArea(role) then "/DashboardAdmin" else "/DashboardUser"
  }

  /**
   * What the shell shows at `path`: the public pages, the root redirect, a
   * protected page (or the sign-in redirect without a token), and the
   * catch-all redirect to the root.
   */
  function Resolve(path: string, token: Option<string>, role: string): (o: Outcome)
    ensures path == "/" ==> o == Redirect(RootTarget(token, role))
    ensures path == "/login" ==> o == Page("Login")
    ensures path == "/register" ==> o == Page("Register")
    ensures path != "/" && path != "/login" && path != "/register" ==>
              match ProtectedPage(path, role)
              case None => o == Redirect("/")
              case Some(page) => o == if HasToken(token) then Page(page) else Redirect("/login")
  {
    if path == "/" then Redirect(RootTarget(token, role))
    else if path == "/login" then Page("Login")
    else if path == "/register" then Page("Register")
    else match ProtectedPage(path, role)
      case None => Redirect("/")
      case Some(page) => if HasToken(token) then Page(page) else Redirect("/login")
  }

  /** The staff area (assign, report, admin dashboard) opens for admins and staff only. */
  lemma StaffAreaRoutes(token: Option<string>, role: string)
    requires HasToken(token)
    ensures Resolve("/AssignAdmin", token, role) == (if StaffArea(role) then Page("AssignAdmin") else Redirect("/"))
    ensures Resolve("/ReportAdmin", token, role) == (if StaffArea(role) then Page("ReportAdmin") else Redirect("/"))
    ensures Resolve("/DashboardAdmin", token, role) == (if StaffArea(role) then Page("DashboardAdmin") else Redirect("/"))
  {
    // the only declared path long enough to carry a ticket-detail prefix differs from it early on
    assert "/DashboardAdmin"[1] != "/TicketDetail/"[1];
    assert !WithId("/DashboardAdmin", "/TicketDetail/");
  }

  /** User management, system settings and the admin profile open for admins only. */
  lemma AdminOnlyRoutes(token: Option<string>, role: string)
    requires HasToken(token)
    ensures Resolve("/ManagesAdmin", token, role) == (if role == "admin" then Page("ManagesAdmin") else Redirect("/"))
    ensures Resolve("/SystemSetting", token, role) == (if role == "admin" then Page("SystemSetting") else Redirect("/"))
    ensures Resolve("/ProfileAdmin", token, role) == (if role == "admin" then Page("ProfileAdmin") else Redirect("/"))
  {
  }

  /** The end-user pages open for end users only. */
  lemma UserOnlyRoutes(token: Option<string>, role: string)
    requires HasToken(token)
    ensures Resolve("/SubNewTicket", token, role) == (if role == "user" then Page("SubNewTicket") else Redirect("/"))
    ensures Resolve("/MyTicket", token, role) == (if role == "user" then Page("MyTicket") else Redirect("/"))
    ensures Resolve("/DashboardUser", token, role) == (if role == "user" then Page("DashboardUser") else Redirect("/"))
    ensures Resolve("/ProfileUser", token, role) == (if role == "user" then Page("ProfileUser") else Redirect("/"))
  {
  }

  /** A ticket's detail page opens for every signed-in role; editing one for staff only. */
  lemma TicketRoutes(token: Option<string>, role: string, id: string)
    requires HasToken(token) && IsSegment(id)
    ensures Resolve("/TicketDetail/" + id, token, role)
            == (if role == "user" || StaffArea(role) then Page("TicketDetail") else Redirect("/"))
    ensures Resolve("/EditTicket/edit/" + id, token, role)
            == (if role == "staff" then Page("EditTicket") else Redirect("/"))
  {
    var detail := "/TicketDetail/" + id;
    var edit := "/EditTicket/edit/" + id;
    assert detail[..|"/TicketDetail/"|] == "/TicketDetail/" && detail[|"/TicketDetail/"|..] == id;
    assert edit[..|"/EditTicket/edit/"|] == "/EditTicket/edit/" && edit[|"/EditTicket/edit/"|..] == id;
    assert detail != "/" && detail != "/login" && detail != "/register";
    assert edit != "/" && edit != "/login" && edit != "/register";
    // the two prefixes differ in their second character, so neither path matches the other pattern
    assert detail[1] == 'T' && edit[1] == 'E';
    assert !WithId(detail, "/EditTicket/edit/");
    assert !WithId(edit, "/TicketDetail/");
  }

  /**
   * A token that does not decode gives the empty role: the root sends the
   * visitor to the end-user dashboard, which has no route for that role and
   * sends them back to the root.
   */
  lemma UndecodableTokenLoops(stored: Option<string>, decode: string -> Option<Payload>)
    requires HasToken(stored) && decode(stored.value).None?
    ensures Resolve("/", stored, RoleFor(stored, decode)) == Redirect("/DashboardUser")
    ensures Resolve("/DashboardUser", stored, RoleFor(stored, decode)) == Redirect("/")
  {
  }

  /**
   * Signed out, with the role re-derived, no protected route exists at all:
   * every path but the two public ones redirects, and the root leads to the
   * sign-in page.
   */
  lemma SignedOutSeesOnlyPublicPages(stored: Option<string>, decode: string -> Option<Payload>, path: string)
    requires !HasToken(stored)
    ensures forall p :: ProtectedPage(p, RoleFor(stored, decode)).None?
    ensures Resolve(path, stored, RoleFor(stored, decode)).Page? ==> path == "/login" || path == "/register"
    ensures Resolve("/", stored, RoleFor(stored, decode)) == Redirect("/login")
  {
  }
}
