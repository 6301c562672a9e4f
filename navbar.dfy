/**
 * The navigation shell around every page: the identity shown in the header
 * (derived from the token independently of the route table), the sidebar
 * links filtered by that identity's role label, the notification list and
 * its read action, and the rule that hides the shell on the sign-in pages.
 */
module Navbar {
  import opened Common
  import opened Models
  import opened AppRoutes
  import opened AuthController
  import opened NotificationsRoutes

  /** The header's user name, role label and avatar initial. */
  datatype Identity = Identity(name: string, role: string, initial: string)

  /** Before any token has been read. */
  const InitialIdentity := Identity("User", "User", "U")

  /** `payload.name || fallback`: an absent or empty name gives the fallback. */
  function NameOr(name: Option<string>, fallback: string): (r: string)
    ensures name.Some? && name.value != "" ==> r == name.value
    ensures name.None? || name.value == "" ==> r == fallback
  {
    if name.Some? && name.value != "" then name.value else fallback
  }

  /** The identity for a decoded payload; None is the decode failure. */
  function IdentityFor(decoded: Option<Payload>): (id: Identity)
    ensures decoded.None? ==> id == Identity("User", "End User", "U")
    ensures decoded.Some? && decoded.value.roleId == Some(3) ==>
              id == Identity(NameOr(decoded.value.name, "Admin User"), "Administrator", "A")
    ensures decoded.Some? && decoded.value.roleId == Some(2) ==>
              id == Identity(NameOr(decoded.value.name, "Staff"), "Support Staff", "S")
    ensures decoded.Some? && decoded.value.roleId != Some(3) && decoded.value.roleId != Some(2) ==>
              id == Identity(NameOr(decoded.value.name, "User"), "End User", "U")
    ensures id.role in ["Administrator", "Support Staff", "End User"]
  {
    match decoded
    case None => Identity("User", "End User", "U")
    case Some(p) =>
      if p.roleId == Some(3) then Identity(NameOr(p.name, "Admin User"), "Administrator", "A")
      else if p.roleId == Some(2) then Identity(NameOr(p.name, "Staff"), "Support Staff", "S")
      else Identity(NameOr(p.name, "User"), "End User", "U")
  }

  /** The payload a sign-in token decodes to: its claims carry a user id and a role id, no name. */
  function PayloadOf(c: Claims): (p: Payload)
    ensures p.roleId == Some(c.roleId) && p.name.None?
  {
    Payload(Some(c.roleId), None)
  }

  /** A token issued at sign-in never carries a name, so the header shows the role's default name. */
  lemma SignInTokenShowsDefaultName(c: Claims)
    ensures IdentityFor(Some(PayloadOf(c))).name
            == if c.roleId == 3 then "Admin User" else if c.roleId == 2 then "Staff" else "User"
  {
  }

  /** The header's role label and the route table's role name come from the same payload test. */
  lemma LabelAgreesWithRouteRole(stored: Option<string>, decode: string -> Option<Payload>)
    requires HasToken(stored) && decode(stored.value).Some?
    ensures IdentityFor(decode(stored.value)).role
            == match RoleFor(stored, decode)
               case "admin" => "Administrator"
               case "staff" => "Support Staff"
               case _ => "End User"
  {
  }

  /**
   * A token that does not decode is labelled "End User" in the header while
   * the route table gives it no role: the two readings of the same token
   * disagree.
   */
  lemma UndecodableTokenLabelledEndUser(stored: Option<string>, decode: string -> Option<Payload>)
    requires HasToken(stored) && decode(stored.value).None?
    ensures IdentityFor(decode(stored.value)).role == "End User"
    ensures RoleFor(stored, decode) == ""
  {
  }

  // ---------------------------------------------------------------------------
  // The sidebar
  // ---------------------------------------------------------------------------

  /** A sidebar entry and its audience flags. */
  datatype NavLink = NavLink(name: string, href: string, adminOnly: bool, staffOnly: bool, userOnly: bool)

  function AdminLink(name: string, href: string): NavLink { NavLink(name, href, true, false, false) }
  function StaffLink(name: string, href: string): NavLink { NavLink(name, href, false, true, false) }
  function UserLink(name: string, href: string): NavLink { NavLink(name, href, false, false, true) }

  /** The sidebar entries in their declared order. */
  const NavLinks: seq<NavLink> := [
    AdminLink("Dashboard", "/DashboardAdmin"),
    StaffLink("Dashboard", "/DashboardAdmin"),
    UserLink("Dashboard", "/DashboardUser"),
    AdminLink("Manage Users", "/ManagesAdmin"),
    UserLink("Submit Ticket", "/SubNewTicket"),
    AdminLink("Assign Tickets", "/AssignAdmin"),
    StaffLink("Assign Tickets", "/AssignAdmin"),
    UserLink("My Ticket", "/MyTicket"),
    AdminLink("Reports", "/ReportAdmin"),
    StaffLink("Reports", "/ReportAdmin"),
    AdminLink("System Settings", "/SystemSetting"),
    AdminLink("Profile", "/ProfileAdmin"),
    UserLink("Profile", "/ProfileUser"),
    StaffLink("Profile", "/ProfileStaff")
  ]

  /** The first flag that is set decides; an entry with no flag is shown to everyone. */
  predicate LinkVisible(link: NavLink, userRole: string)
  {
    if link.adminOnly then userRole == "Administrator"
    else if link.userOnly then userRole == "End User"
    else if link.staffOnly then userRole == "Support Staff"
    else true
  }

  /** The entries shown for a role label, in declared order. */
  function AccessibleLinks(links: seq<NavLink>, userRole: string): (r: seq<NavLink>)
    ensures forall l :: l in r <==> l in links && LinkVisible(l, userRole)
    ensures IsSubsequence(r, links)
  {
    FilterIsSubsequence(links, (l: NavLink) => LinkVisible(l, userRole));
    Filter(links, (l: NavLink) => LinkVisible(l, userRole))
  }

  /** Under any label other than the three known ones, only unflagged entries are shown. */
  lemma UnknownLabelSeesUnflaggedOnly(links: seq<NavLink>, userRole: string)
    requires userRole != "Administrator" && userRole != "Support Staff" && userRole != "End User"
    ensures forall l :: l in AccessibleLinks(links, userRole) ==> !l.adminOnly && !l.staffOnly && !l.userOnly
  {
  }

  predicate Flagged(l: NavLink) { l.adminOnly || l.staffOnly || l.userOnly }

  /** Every declared entry carries an audience flag. */
  lemma EveryLinkFlagged()
    ensures forall i :: 0 <= i < |NavLinks| ==> Flagged(NavLinks[i])
  {
  }

  /** So under the initial label "User", before any token is read, the sidebar is empty. */
  lemma InitialLabelSeesNoLinks()
    ensures AccessibleLinks(NavLinks, InitialIdentity.role) == []
  {
    EveryLinkFlagged();
    FlaggedLinksHidden(NavLinks, InitialIdentity.role);
  }

  /** Entries that all carry a flag are all hidden under a label none of the flags names. */
  lemma FlaggedLinksHidden(links: seq<NavLink>, userRole: string)
    requires userRole != "Administrator" && userRole != "Support Staff" && userRole != "End User"
    requires forall i :: 0 <= i < |links| ==> Flagged(links[i])
    ensures AccessibleLinks(links, userRole) == []
  {
    var visible := (l: NavLink) => LinkVisible(l, userRole);
    assert forall i :: 0 <= i < |links| ==> !visible(links[i]);
    FilterAllOrNone(links, visible);
  }

  /**
   * With a token that decodes, every entry the header's label shows leads to
   * a page the route table renders for the role the shell derives from the
   * same token.
   */
  lemma {:induction false} SidebarLinksAreRoutable(stored: Option<string>, decode: string -> Option<Payload>)
    requires HasToken(stored) && decode(stored.value).Some?
    ensures forall l :: l in AccessibleLinks(NavLinks, IdentityFor(decode(stored.value)).role) ==>
              Resolve(l.href, stored, RoleFor(stored, decode)).Page?
  {
    var role := RoleFor(stored, decode);
    var shown := IdentityFor(decode(stored.value)).role;
    LabelAgreesWithRouteRole(stored, decode);
    forall l | l in NavLinks && LinkVisible(l, shown)
      ensures Resolve(l.href, stored, role).Page?
    {
      LinkRoutable(l, stored, role);
    }
  }

  /** The route role whose pages the header label's entries lead to. */
  function LabelOf(role: string): string
  {
    if role == "admin" then "Administrator" else if role == "staff" then "Support Staff" else "End User"
  }

  /** One entry shown under the label that matches `role` is routable under `role`. */
  lemma LinkRoutable(l: NavLink, stored: Option<string>, role: string)
    requires HasToken(stored) && role in ["admin", "staff", "user"]
    requires l in NavLinks && LinkVisible(l, LabelOf(role))
    ensures Resolve(l.href, stored, role).Page?
  {
    var i :| 0 <= i < |NavLinks| && NavLinks[i] == l;
    if i in {0, 1, 5, 6, 8, 9} {
      StaffLinkRoutable(i, stored, role);
    } else if i in {2, 4, 7, 12} {
      UserLinkRoutable(i, stored, role);
    } else if i in {3, 10, 11} {
      AdminLinkRoutable(i, stored, role);
    } else {
      assert Resolve("/ProfileStaff", stored, role) == (if role == "staff" then Page("ProfileStaff") else Redirect("/"));
    }
  }

  lemma StaffLinkRoutable(i: int, stored: Option<string>, role: string)
    requires HasToken(stored) && i in {0, 1, 5, 6, 8, 9} && LinkVisible(NavLinks[i], LabelOf(role))
    ensures Resolve(NavLinks[i].href, stored, role).Page?
  {
    StaffAreaRoutes(stored, role);
  }

  lemma UserLinkRoutable(i: int, stored: Option<string>, role: string)
    requires HasToken(stored) && role in ["admin", "staff", "user"]
    requires i in {2, 4, 7, 12} && LinkVisible(NavLinks[i], LabelOf(role))
    ensures Resolve(NavLinks[i].href, stored, role).Page?
  {
    assert NavLinks[i].userOnly && !NavLinks[i].adminOnly;
    assert role == "user";
    UserOnlyRoutes(stored, role);
  }

  lemma AdminLinkRoutable(i: int, stored: Option<string>, role: string)
    requires HasToken(stored) && i in {3, 10, 11} && LinkVisible(NavLinks[i], LabelOf(role))
    ensures Resolve(NavLinks[i].href, stored, role).Page?
  {
    AdminOnlyRoutes(stored, role);
  }

  /**
   * With a token that does not decode, the header shows the end-user entries,
   * and the end-user dashboard entry is one the route table does not render.
   */
  lemma UndecodableTokenShowsDeadLink(stored: Option<string>, decode: string -> Option<Payload>)
    requires HasToken(stored) && decode(stored.value).None?
    ensures UserLink("Dashboard", "/DashboardUser") in AccessibleLinks(NavLinks, IdentityFor(decode(stored.value)).role)
    ensures Resolve("/DashboardUser", stored, RoleFor(stored, decode)) == Redirect("/")
  {
    UndecodableTokenLabelledEndUser(stored, decode);
    UndecodableTokenLoops(stored, decode);
    EndUserSeesUserDashboard();
  }

  lemma EndUserSeesUserDashboard()
    ensures UserLink("Dashboard", "/DashboardUser") in AccessibleLinks(NavLinks, "End User")
  {
    var link := UserLink("Dashboard", "/DashboardUser");
    assert NavLinks[2] == link;
    assert LinkVisible(link, "End User");
  }

  /** The shell is not drawn on the sign-in and sign-up pages. */
  function HideNavbar(path: string): (hidden: bool)
    ensures hidden <==> path == "/login" || path == "/register"
  {
    path in ["/login", "/register"]
  }

  /** Hiding the shell is exactly the set of paths the route table serves without a token. */
  lemma HiddenExactlyOnPublicPages(path: string, stored: Option<string>, decode: string -> Option<Payload>)
    requires !HasToken(stored)
    ensures HideNavbar(path) <==> Resolve(path, stored, RoleFor(stored, decode)).Page?
  {
    SignedOutSeesOnlyPublicPages(stored, decode, path);
  }

  // ---------------------------------------------------------------------------
  // The shell's state
  // ---------------------------------------------------------------------------

  /** The server's answer to a read call, leaving the list without that id. */
  function WithoutId(ns: seq<Notification>, id: int): (r: seq<Notification>)
    ensures forall n :: n in r <==> n in ns && n.id != id
    ensures IsSubsequence(r, ns)
  {
    FilterIsSubsequence(ns, (n: Notification) => n.id != id);
    Filter(ns, (n: Notification) => n.id != id)
  }

  class NavbarState {
    var identity: Identity
    var notifications: seq<Notification>

    constructor ()
      ensures identity == InitialIdentity && notifications == []
    {
      identity := InitialIdentity;
      notifications := [];
    }

    /** The token effect: a present token re-derives the identity; without one the header keeps what it had. */
    method OnToken(stored: Option<string>, decode: string -> Option<Payload>)
      modifies this
      ensures HasToken(stored) ==> identity == IdentityFor(decode(stored.value))
      ensures !HasToken(stored) ==> identity == old(identity)
      ensures notifications == old(notifications)
    {
      if HasToken(stored) {
        match decode(stored.value)
        case None =>
          identity := Identity("User", "End User", "U");
        case Some(p) =>
          if p.roleId == Some(3) {
            identity := Identity(NameOr(p.name, "Admin User"), "Administrator", "A");
          } else if p.roleId == Some(2) {
            identity := Identity(NameOr(p.name, "Staff"), "Support Staff", "S");
          } else {
            identity := Identity(NameOr(p.name, "User"), "End User", "U");
          }
      }
    }

    /** A fetch of the caller's unread list replaces the list; a failed one (None) keeps it. */
    method OnNotificationsFetched(answer: Option<seq<Notification>>)
      modifies this
      ensures notifications == if answer.Some? then answer.value else old(notifications)
      ensures identity == old(identity)
    {
      if answer.Some? {
        notifications := answer.value;
      }
    }

    /** `handleRead`: after a successful read call every entry with that id leaves the list. */
    method HandleRead(id: int, requestOk: bool)
      modifies this
      ensures notifications == if requestOk then WithoutId(old(notifications), id) else old(notifications)
      ensures identity == old(identity)
    {
      if requestOk {
        notifications := Filter(notifications, (n: Notification) => n.id != id);
      }
    }
  }

  /**
   * The list the shell keeps after a read agrees with what the server would
   * answer on the next fetch: removing the id on the client equals marking it
   * read on the server and asking again.
   */
  lemma ClientRemovalMatchesServer(ns: seq<Notification>, id: int, userId: int)
    ensures WithoutId(MyUnread(ns, userId), id) == MyUnread(MarkedRead(ns, id, userId), userId)
  {
    var unread := (n: Notification) => UnreadFor(n, userId);
    var other := (n: Notification) => n.id != id;
    FilterOfReverse(Filter(ns, unread), other);
    UnreadAfterMarking(ns, id, userId);
  }

  lemma {:induction false} UnreadAfterMarking(ns: seq<Notification>, id: int, userId: int)
    ensures Filter(Filter(ns, (n: Notification) => UnreadFor(n, userId)), (n: Notification) => n.id != id)
            == Filter(MarkedRead(ns, id, userId), (n: Notification) => UnreadFor(n, userId))
  {
    if ns != [] {
      assert MarkedRead(ns, id, userId)[1..] == MarkedRead(ns[1..], id, userId);
      UnreadAfterMarking(ns[1..], id, userId);
    }
  }
}
