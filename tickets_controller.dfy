/**
 * The state-changing handlers of the tickets controller. Each takes the
 * authenticated caller and the request's fields and updates the database: a
 * missing row is answered with 404, a role or ownership refusal with 403, and
 * a write the database rejects (a null in a not-null column, a value outside
 * an enum, an over-long title) with 500, leaving every table as it was.
 */
module TicketsController {
  import opened Common
  import opened Models
  import opened TicketQueries
  import opened RoleMiddleware

  /** `${v}` in a template literal, where an absent body field prints as "undefined". */
  function TemplateText(v: Option<string>): string
  {
    match v
    case Some(s) => s
    case None => "undefined"
  }

  /** The text of the notification sent to a ticket's owner when its status is changed. */
  function StatusChangeMessage(id: int, status: Option<string>): string
  {
    "สถานะของ Ticket #" + IntToString(id) + " ถูกเปลี่ยนเป็น \"" + TemplateText(status) + "\""
  }

  /** The tables other than `tickets` and `notifications` are as they were. */
  twostate predicate OthersUnchanged(db: Db)
    reads db
  {
    db.users == old(db.users) && db.comments == old(db.comments)
    && db.nextUserId == old(db.nextUserId) && db.nextCommentId == old(db.nextCommentId)
  }

  // ---------------------------------------------------------------------------
  // POST /tickets
  // ---------------------------------------------------------------------------

  /**
   * Creates a ticket owned by the caller with status "Open". The body's due
   * date is not stored: the `tickets` table has no such column.
   */
  method CreateTicket(db: Db, caller: AuthUser, title: Option<string>, description: Option<string>,
                      priority: Option<string>, now: string) returns (code: int, id: int)
    requires db.Valid()
    modifies db
    ensures db.Valid()
    ensures code == Created <==>
              title.Some? && description.Some? && |title.value| <= TitleMaxLength && InEnum(priority, Priorities)
    ensures code != Created ==> code == ServerError && unchanged(db)
    ensures code == Created ==>
              && id !in old(db.tickets)
              && db.tickets == old(db.tickets)[id := Ticket(caller.userId, title.value, description.value,
                                                             Some(if priority.Some? then priority.value else DefaultPriority),
                                                             Some(DefaultStatus), None, now, now)]
              && db.nextTicketId == id + 1
              && db.notifications == old(db.notifications) && db.nextNotificationId == old(db.nextNotificationId)
              && OthersUnchanged(db)
  {
    if title.None? || description.None? {
      return ServerError, 0;
    }
    var row := Ticket(caller.userId, title.value, description.value,
                      Some(if priority.Some? then priority.value else DefaultPriority),
                      Some(DefaultStatus), None, now, now);
    if !ConformsToSchema(row) {
      return ServerError, 0;
    }
    id := db.nextTicketId;
    db.tickets := db.tickets[id := row];
    db.nextTicketId := id + 1;
    code := Created;
  }

  // ---------------------------------------------------------------------------
  // PUT /tickets/:id/status
  // ---------------------------------------------------------------------------

  /**
   * Sets the status to whatever the body says (any enum value, in any order:
   * there is no transition rule) and notifies the ticket's owner. End users
   * are refused before the ticket is looked up.
   */
  method UpdateTicketStatus(db: Db, caller: AuthUser, id: int, status: Option<string>) returns (code: int)
    requires db.Valid()
    modifies db
    ensures db.Valid()
    ensures caller.roleId == RoleUser ==> code == Forbidden
    ensures caller.roleId != RoleUser && id !in old(db.tickets) ==> code == NotFound
    ensures code == Ok <==> caller.roleId != RoleUser && id in old(db.tickets) && InEnum(status, Statuses)
    ensures code == Ok || code == Forbidden || code == NotFound || code == ServerError
    ensures caller.roleId != RoleUser && id in old(db.tickets) && code != Ok ==> code == ServerError
    ensures code != Ok ==> unchanged(db)
    ensures code == Ok ==>
              && db.tickets == old(db.tickets)[id := old(db.tickets)[id].(status := status)]
              && db.notifications == old(db.notifications)
                   + [Notification(old(db.nextNotificationId), old(db.tickets)[id].userId,
                                   StatusChangeMessage(id, status), false)]
              && db.nextNotificationId == old(db.nextNotificationId) + 1
              && db.nextTicketId == old(db.nextTicketId) && OthersUnchanged(db)
  {
    if caller.roleId == RoleUser {
      return Forbidden;
    }
    if id !in db.tickets {
      return NotFound;
    }
    var t := db.tickets[id];
    var row := t.(status := status);
    if !ConformsToSchema(row) {
      return ServerError;
    }
    db.tickets := db.tickets[id := row];
    var n := Notification(db.nextNotificationId, t.userId, StatusChangeMessage(id, status), false);
    db.notifications := db.notifications + [n];
    db.nextNotificationId := db.nextNotificationId + 1;
    code := Ok;
  }

  // ---------------------------------------------------------------------------
  // PUT /tickets/:id/assign
  // ---------------------------------------------------------------------------

  /**
   * The row after a successful assignment: the assignee is set, an "Open"
   * ticket moves to "In Progress" and any other status is kept, and the
   * update time is stamped.
   */
  function Assigned(t: Ticket, assignee: int, now: string): (r: Ticket)
    ensures r.assignedTo == Some(assignee) && r.updatedAt == now
    ensures t.status == Some(DefaultStatus) ==> r.status == Some("In Progress")
    ensures t.status != Some(DefaultStatus) ==> r.status == t.status
    ensures r.status != Some(DefaultStatus)
    ensures ConformsToSchema(t) ==> ConformsToSchema(r)
    ensures r.userId == t.userId && r.title == t.title && r.description == t.description
            && r.priority == t.priority && r.createdAt == t.createdAt
  {
    t.(assignedTo := Some(assignee),
       status := if t.status == Some(DefaultStatus) then Some("In Progress") else t.status,
       updatedAt := now)
  }

  /** Assigning the same person again at the same time changes nothing more. */
  lemma AssignedIdempotent(t: Ticket, assignee: int, now: string)
    ensures Assigned(Assigned(t, assignee, now), assignee, now) == Assigned(t, assignee, now)
  {
  }

  /**
   * An admin may assign any existing user (the body's `assigned_to` is read
   * as a number); a staff member only themselves; any other role is refused.
   * The 404 for a missing ticket comes before the role check.
   */
  method AssignTicket(db: Db, caller: AuthUser, id: int, assignedTo: string, now: string) returns (code: int)
    requires db.Valid()
    modifies db
    ensures db.Valid()
    ensures id !in old(db.tickets) ==> code == NotFound
    ensures id in old(db.tickets) && caller.roleId == RoleAdmin ==>
              (code == Ok <==> ParseInt(assignedTo).Some? && ParseInt(assignedTo).value in old(db.users))
              && (code != Ok ==> code == NotFound)
    ensures id in old(db.tickets) && caller.roleId == RoleStaff ==>
              (code == Ok <==> ParseInt(assignedTo) == Some(caller.userId)) && (code != Ok ==> code == Forbidden)
    ensures id in old(db.tickets) && caller.roleId != RoleAdmin && caller.roleId != RoleStaff ==> code == Forbidden
    ensures code != Ok ==> unchanged(db)
    ensures code == Ok ==>
              && ParseInt(assignedTo).Some?
              && db.tickets == old(db.tickets)[id := Assigned(old(db.tickets)[id], ParseInt(assignedTo).value, now)]
              && db.notifications == old(db.notifications) && db.nextTicketId == old(db.nextTicketId)
              && db.nextNotificationId == old(db.nextNotificationId) && OthersUnchanged(db)
  {
    if id !in db.tickets {
      return NotFound;
    }
    var assignee: int;
    if caller.roleId == RoleAdmin {
      var key := ParseInt(assignedTo);
      if key.None? || key.value !in db.users {
        return NotFound;
      }
      assignee := key.value;
    } else if caller.roleId == RoleStaff {
      if ParseInt(assignedTo) != Some(caller.userId) {
        return Forbidden;
      }
      assignee := caller.userId;
    } else {
      return Forbidden;
    }
    db.tickets := db.tickets[id := Assigned(db.tickets[id], assignee, now)];
    code := Ok;
  }

  /**
   * PUT /tickets/:id/assign as routed: the role gate for staff and admins
   * runs first, so an end user is refused with 403 whether or not the ticket
   * exists, and a request without a user with 401.
   */
  method AssignRoute(db: Db, user: Option<AuthUser>, id: int, assignedTo: string, now: string) returns (code: int)
    requires db.Valid()
    modifies db
    ensures db.Valid()
    ensures user.None? ==> code == Unauthorized
    ensures user.Some? && user.value.roleId == RoleUser ==> code == Forbidden
    ensures code != Ok ==> unchanged(db)
    ensures code == Ok ==> user.Some? && (user.value.roleId == RoleStaff || user.value.roleId == RoleAdmin)
  {
    var gate := RequireRole(StaffRoles, user);
    if gate.Refused? {
      return gate.code;
    }
    code := AssignTicket(db, user.value, id, assignedTo, now);
  }

  /** PUT /tickets/:id/status as routed, behind the same gate. */
  method UpdateStatusRoute(db: Db, user: Option<AuthUser>, id: int, status: Option<string>) returns (code: int)
    requires db.Valid()
    modifies db
    ensures db.Valid()
    ensures user.None? ==> code == Unauthorized
    ensures user.Some? && user.value.roleId !in StaffRoles ==> code == Forbidden
    ensures code != Ok ==> unchanged(db)
    ensures code == Ok ==> user.Some? && (user.value.roleId == RoleStaff || user.value.roleId == RoleAdmin)
  {
    var gate := RequireRole(StaffRoles, user);
    if gate.Refused? {
      return gate.code;
    }
    code := UpdateTicketStatus(db, user.value, id, status);
  }

  // ---------------------------------------------------------------------------
  // PUT /tickets/:id
  // ---------------------------------------------------------------------------

  /**
   * The row after an edit: title, description and priority are overwritten
   * by the body's values by anyone; the status only when the caller is staff
   * or an admin.
   */
  function Edited(t: Ticket, roleId: int, title: string, description: string,
                  priority: Option<string>, status: Option<string>): (r: Ticket)
    ensures r.title == title && r.description == description && r.priority == priority
    ensures r.status != t.status ==> roleId == RoleStaff || roleId == RoleAdmin
    ensures roleId == RoleStaff || roleId == RoleAdmin ==> r.status == status
    ensures r.userId == t.userId && r.assignedTo == t.assignedTo
            && r.createdAt == t.createdAt && r.updatedAt == t.updatedAt
  {
    t.(title := title, description := description, priority := priority,
       status := if roleId == RoleStaff || roleId == RoleAdmin then status else t.status)
  }

  /**
   * Anyone authenticated may edit any ticket; there is no ownership check.
   * An absent title or description is a null in a not-null column (500); an
   * absent priority or status is written as null.
   */
  method UpdateTicket(db: Db, caller: AuthUser, id: int, title: Option<string>, description: Option<string>,
                      priority: Option<string>, status: Option<string>) returns (code: int)
    requires db.Valid()
    modifies db
    ensures db.Valid()
    ensures id !in old(db.tickets) ==> code == NotFound
    ensures code == Ok <==>
              && id in old(db.tickets) && title.Some? && description.Some?
              && ConformsToSchema(Edited(old(db.tickets)[id], caller.roleId, title.value, description.value, priority, status))
    ensures code == Ok || code == NotFound || code == ServerError
    ensures id in old(db.tickets) && code != Ok ==> code == ServerError
    ensures code != Ok ==> unchanged(db)
    ensures code == Ok ==>
              && db.tickets == old(db.tickets)[id := Edited(old(db.tickets)[id], caller.roleId, title.value,
                                                           description.value, priority, status)]
              && db.notifications == old(db.notifications) && db.nextTicketId == old(db.nextTicketId)
              && db.nextNotificationId == old(db.nextNotificationId) && OthersUnchanged(db)
  {
    if id !in db.tickets {
      return NotFound;
    }
    if title.None? || description.None? {
      return ServerError;
    }
    var row := Edited(db.tickets[id], caller.roleId, title.value, description.value, priority, status);
    if !ConformsToSchema(row) {
      return ServerError;
    }
    db.tickets := db.tickets[id := row];
    code := Ok;
  }

  // ---------------------------------------------------------------------------
  // DELETE /tickets/:id
  // ---------------------------------------------------------------------------

  /** The owner or an admin may delete a ticket; anyone else is refused with 403. */
  method DeleteTicket(db: Db, caller: AuthUser, id: int) returns (code: int)
    requires db.Valid()
    modifies db
    ensures db.Valid()
    ensures id !in old(db.tickets) ==> code == NotFound
    ensures id in old(db.tickets) && old(db.tickets)[id].userId != caller.userId && caller.roleId != RoleAdmin
            ==> code == Forbidden
    ensures code == Ok <==>
              id in old(db.tickets) && (old(db.tickets)[id].userId == caller.userId || caller.roleId == RoleAdmin)
    ensures code != Ok ==> unchanged(db)
    ensures code == Ok ==>
              && db.tickets == old(db.tickets) - {id}
              && db.notifications == old(db.notifications) && db.nextTicketId == old(db.nextTicketId)
              && db.nextNotificationId == old(db.nextNotificationId) && OthersUnchanged(db)
  {
    if id !in db.tickets {
      return NotFound;
    }
    if db.tickets[id].userId != caller.userId && caller.roleId != RoleAdmin {
      return Forbidden;
    }
    db.tickets := db.tickets - {id};
    code := Ok;
  }

  // ---------------------------------------------------------------------------
  // POST /tickets/:id/comments
  // ---------------------------------------------------------------------------

  /**
   * Appends the caller's comment to an existing ticket and answers with the
   * comment as GET /tickets/:id would list it. A missing `text` is a null in
   * the not-null `content` column (500).
   */
  method PostComment(db: Db, caller: AuthUser, ticketId: int, text: Option<string>, now: string)
    returns (code: int, view: Option<CommentView>)
    requires db.Valid()
    modifies db
    ensures db.Valid()
    ensures ticketId !in old(db.tickets) ==> code == NotFound
    ensures code == Created <==> ticketId in old(db.tickets) && text.Some?
    ensures ticketId in old(db.tickets) && text.None? ==> code == ServerError
    ensures code == Created || code == NotFound || code == ServerError
    ensures code != Created ==> view.None? && unchanged(db)
    ensures code == Created ==>
              && db.comments == old(db.comments) + [Comment(old(db.nextCommentId), ticketId, caller.userId, text.value, now)]
              && view == Some(CommentViewOf(db.comments[|db.comments| - 1], db.users))
              && view.value.author == AuthorName(db.users, caller.userId)
              && db.nextCommentId == old(db.nextCommentId) + 1
              && db.tickets == old(db.tickets) && db.users == old(db.users)
              && db.notifications == old(db.notifications) && db.nextTicketId == old(db.nextTicketId)
              && db.nextUserId == old(db.nextUserId) && db.nextNotificationId == old(db.nextNotificationId)
  {
    if ticketId !in db.tickets {
      return NotFound, None;
    }
    if text.None? {
      return ServerError, None;
    }
    var c := Comment(db.nextCommentId, ticketId, caller.userId, text.value, now);
    db.comments := db.comments + [c];
    db.nextCommentId := db.nextCommentId + 1;
    code := Created;
    view := Some(CommentViewOf(c, db.users));
  }
}
