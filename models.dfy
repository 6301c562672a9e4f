/**
 * The backend's relational schema: the ticket record with its enums and
 * defaults, the user, comment and notification records, the caller that the
 * authentication middleware attaches to a request, the HTTP status codes the
 * handlers answer with, and the database itself as one object whose tables the
 * handlers update.
 */
module Models {
  import opened Common

  // ---------------------------------------------------------------------------
  // Roles and HTTP answers
  // ---------------------------------------------------------------------------

  const RoleUser: int := 1
  const RoleStaff: int := 2
  const RoleAdmin: int := 3

  const Ok: int := 200
  const Created: int := 201
  const BadRequest: int := 400
  const Unauthorized: int := 401
  const Forbidden: int := 403
  const NotFound: int := 404
  const ServerError: int := 500

  /** `req.user` as the authentication middleware sets it. */
  datatype AuthUser = AuthUser(userId: int, roleId: int)

  // ---------------------------------------------------------------------------
  // The ticket record
  // ---------------------------------------------------------------------------

  const Priorities: seq<string> := ["Low", "Medium", "High"]
  const Statuses: seq<string> := ["Open", "In Progress", "Resolved", "Closed"]
  const DefaultPriority: string := "Medium"
  const DefaultStatus: string := "Open"
  const TitleMaxLength: nat := 200

  /**
   * One row of the `tickets` table. Priority and status are nullable columns;
   * the values held are the strings handlers wrote, and the database's own
   * checks (ConformsToSchema) decide whether a write of them succeeds.
   * Dates are the text the clock gave.
   */
  datatype Ticket = Ticket(
    userId: int,
    title: string,
    description: string,
    priority: Option<string>,
    status: Option<string>,
    assignedTo: Option<int>,
    createdAt: string,
    updatedAt: string)

  /** An enum column holds null or one of its declared values. */
  predicate InEnum(v: Option<string>, values: seq<string>)
  {
    v.None? || v.value in values
  }

  /**
   * The column constraints beyond not-null that the database checks when a
   * ticket row is written: the title's length and both enums.
   */
  predicate ConformsToSchema(t: Ticket)
  {
    |t.title| <= TitleMaxLength && InEnum(t.priority, Priorities) && InEnum(t.status, Statuses)
  }

  // ---------------------------------------------------------------------------
  // The other records
  // ---------------------------------------------------------------------------

  datatype User = User(name: string, email: string, passwordHash: string, roleId: int)

  const NameMaxLength: nat := 100
  const EmailMaxLength: nat := 100
  const PasswordHashMaxLength: nat := 255

  /** The length limits of the `users` columns. */
  predicate UserConformsToSchema(u: User)
  {
    |u.name| <= NameMaxLength && |u.email| <= EmailMaxLength && |u.passwordHash| <= PasswordHashMaxLength
  }

  datatype Comment = Comment(id: int, ticketId: int, userId: int, content: string, createdAt: string)

  /** `is_read` defaults to false when a notification is created. */
  datatype Notification = Notification(id: int, userId: int, message: string, isRead: bool)

  // ---------------------------------------------------------------------------
  // The database
  // ---------------------------------------------------------------------------

  /** Every key is an auto-increment id already handed out. */
  predicate KeysIssued(keys: set<int>, next: int)
  {
    1 <= next && forall k :: k in keys ==> 1 <= k < next
  }

  predicate CommentIdsIssued(cs: seq<Comment>, next: int)
  {
    && 1 <= next
    && (forall i :: 0 <= i < |cs| ==> 1 <= cs[i].id < next)
    && (forall i, j :: 0 <= i < j < |cs| ==> cs[i].id < cs[j].id)
  }

  /** Notification ids are issued in creation order, so the list is sorted by id. */
  predicate NotificationIdsIssued(ns: seq<Notification>, next: int)
  {
    && 1 <= next
    && (forall i :: 0 <= i < |ns| ==> 1 <= ns[i].id < next)
    && (forall i, j :: 0 <= i < j < |ns| ==> ns[i].id < ns[j].id)
  }

  /** No two users share an email address. */
  predicate EmailsUnique(users: map<int, User>)
  {
    forall a, b :: a in users && b in users && users[a].email == users[b].email ==> a == b
  }

  /**
   * The tables the handlers read and write. Rows are kept in creation order
   * where the table is a list; the counters are the next auto-increment ids.
   * Valid() holds what the database itself guarantees: issued keys and rows
   * that satisfy the column constraints.
   */
  class Db {
    var tickets: map<int, Ticket>
    var users: map<int, User>
    var comments: seq<Comment>
    var notifications: seq<Notification>
    var nextTicketId: int
    var nextUserId: int
    var nextCommentId: int
    var nextNotificationId: int

    ghost predicate Valid()
      reads this
    {
      && KeysIssued(tickets.Keys, nextTicketId)
      && KeysIssued(users.Keys, nextUserId)
      && (forall id :: id in tickets ==> ConformsToSchema(tickets[id]))
      && (forall id :: id in users ==> UserConformsToSchema(users[id]))
      && CommentIdsIssued(comments, nextCommentId)
      && NotificationIdsIssued(notifications, nextNotificationId)
    }

    constructor ()
      ensures Valid()
      ensures tickets == map[] && users == map[] && comments == [] && notifications == []
    {
      tickets, users, comments, notifications := map[], map[], [], [];
      nextTicketId, nextUserId, nextCommentId, nextNotificationId := 1, 1, 1, 1;
    }
  }
}
