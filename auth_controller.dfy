/**
 * Sign-in and sign-up. Password hashing and comparison (bcrypt) and token
 * signing are outside the model: the hash and the comparison are parameters,
 * and the signed token is represented by the claims it carries.
 */
module AuthController {
  import opened Common
  import opened Models

  /** The claims signed into the token at sign-in. */
  datatype Claims = Claims(userId: int, roleId: int)

  /** The user block of the sign-in answer; `role` is null when the role id names no role. */
  datatype Profile = Profile(id: int, name: string, email: string, role: Option<string>)

  datatype Session = Session(claims: Claims, profile: Profile)

  /**
   * POST /auth/login. The lookup by email takes any user with that address
   * (the query has no order). An absent email or password makes the query or
   * the comparison throw, which is answered with 500.
   */
  method Login(db: Db, roleNames: map<int, string>, email: Option<string>, password: Option<string>,
               matches: (string, string) -> bool) returns (code: int, session: Option<Session>)
    ensures email.None? ==> code == ServerError
    ensures email.Some? && (forall id :: id in db.users ==> db.users[id].email != email.value)
            ==> code == Unauthorized
    ensures code == Ok || code == Unauthorized || code == ServerError
    ensures code == Ok <==> session.Some?
    ensures session.Some? ==>
              var id := session.value.claims.userId;
              && id in db.users && email == Some(db.users[id].email) && password.Some?
              && matches(password.value, db.users[id].passwordHash)
              && session.value.claims.roleId == db.users[id].roleId
              && session.value.profile == Profile(id, db.users[id].name, db.users[id].email,
                                                  if db.users[id].roleId in roleNames
                                                  then Some(roleNames[db.users[id].roleId]) else None)
    ensures forall id ::
              (EmailsUnique(db.users) && id in db.users && email == Some(db.users[id].email) && password.Some?)
              ==> (code == Ok <==> matches(password.value, db.users[id].passwordHash))
    ensures forall id ::
              (EmailsUnique(db.users) && id in db.users && email == Some(db.users[id].email) && password.Some?
               && !matches(password.value, db.users[id].passwordHash))
              ==> code == Unauthorized && session.None?
    ensures email.Some? && password.Some? && code != Ok ==> code == Unauthorized
    ensures email.Some? && (exists id :: id in db.users && db.users[id].email == email.value) && password.None?
            ==> code == ServerError
  {
    if email.None? {
      return ServerError, None;
    }
    if !exists id :: id in db.users && db.users[id].email == email.value {
      return Unauthorized, None;
    }
    var id :| id in db.users && db.users[id].email == email.value;
    var user := db.users[id];
    if password.None? {
      return ServerError, None;
    }
    if !matches(password.value, user.passwordHash) {
      return Unauthorized, None;
    }
    var role := if user.roleId in roleNames then Some(roleNames[user.roleId]) else None;
    code := Ok;
    session := Some(Session(Claims(id, user.roleId), Profile(id, user.name, user.email, role)));
  }

  /** `req.body.role_id || 1`: an absent or zero role id becomes the end-user role; any other is kept. */
  function RequestedRole(roleId: Option<int>): (r: int)
    ensures roleId.None? || roleId == Some(0) ==> r == RoleUser
    ensures roleId.Some? && roleId.value != 0 ==> r == roleId.value
  {
    match roleId
    case None => RoleUser
    case Some(r) => if r == 0 then RoleUser else r
  }

  /**
   * POST /auth/register. A known email is refused with 400; otherwise the
   * user is stored with the hashed password and the requested role, which is
   * taken as given (an admin role id included).
   */
  method Register(db: Db, name: Option<string>, email: Option<string>, password: Option<string>,
                  roleId: Option<int>, hash: string -> string) returns (code: int, id: int)
    requires db.Valid()
    modifies db
    ensures db.Valid()
    ensures email.None? ==> code == ServerError
    ensures email.Some? && (exists u :: u in old(db.users) && old(db.users)[u].email == email.value)
            ==> code == BadRequest
    ensures code == Created <==>
              && email.Some? && password.Some? && name.Some?
              && (forall u :: u in old(db.users) ==> old(db.users)[u].email != email.value)
              && UserConformsToSchema(User(name.value, email.value, hash(password.value), RequestedRole(roleId)))
    ensures code == BadRequest <==>
              email.Some? && exists u :: u in old(db.users) && old(db.users)[u].email == email.value
    ensures email.Some? && (forall u :: u in old(db.users) ==> old(db.users)[u].email != email.value)
              && (name.None? || password.None?)
            ==> code == ServerError
    ensures code == Created || code == BadRequest || code == ServerError
    ensures code != Created ==> unchanged(db)
    ensures code == Created ==>
              && id !in old(db.users)
              && db.users == old(db.users)[id := User(name.value, email.value, hash(password.value), RequestedRole(roleId))]
              && db.nextUserId == id + 1
              && db.tickets == old(db.tickets) && db.comments == old(db.comments)
              && db.notifications == old(db.notifications)
              && db.nextTicketId == old(db.nextTicketId) && db.nextCommentId == old(db.nextCommentId)
              && db.nextNotificationId == old(db.nextNotificationId)
    ensures EmailsUnique(old(db.users)) ==> EmailsUnique(db.users)
  {
    if email.None? {
      return ServerError, 0;
    }
    if exists u :: u in db.users && db.users[u].email == email.value {
      return BadRequest, 0;
    }
    if password.None? || name.None? {
      return ServerError, 0;
    }
    var user := User(name.value, email.value, hash(password.value), RequestedRole(roleId));
    if !UserConformsToSchema(user) {
      return ServerError, 0;
    }
    id := db.nextUserId;
    db.users := db.users[id := user];
    db.nextUserId := id + 1;
    code := Created;
  }
}
