/**
 * The user-management page: the user list filtered by search and role, and
 * the "add user" dialog, whose form is reset on opening and whose submission
 * appends the form's contents to the list when the two passwords agree.
 */
module ManagesAdmin {
  import opened Common

  /**
   * An entry of the list. Loaded entries carry no password fields; an entry
   * added through the dialog keeps the form's password and confirmation.
   */
  datatype UserEntry = UserEntry(
    id: int,
    name: string,
    email: string,
    role: string,
    status: string,
    createdAt: string,
    password: Option<string>,
    confirmPassword: Option<string>)

  datatype Form = Form(name: string, email: string, role: string, password: string, confirmPassword: string)

  /** The form as `openModal` resets it. */
  const EmptyForm := Form("", "", "End User", "", "")

  predicate Keep(u: UserEntry, term: string, roleChoice: string)
  {
    (MatchesTerm(u.name, term) || MatchesTerm(u.email, term)) && (roleChoice == "All" || u.role == roleChoice)
  }

  /** The table: users whose name or email contains the term, ignoring case, and whose role is the chosen one. */
  function FilteredUsers(users: seq<UserEntry>, term: string, roleChoice: string): (r: seq<UserEntry>)
    ensures forall u :: u in r <==> u in users && Keep(u, term, roleChoice)
    ensures IsSubsequence(r, users)
  {
    FilterIsSubsequence(users, (u: UserEntry) => Keep(u, term, roleChoice));
    Filter(users, (u: UserEntry) => Keep(u, term, roleChoice))
  }

  /** An empty search with the role choice "All" shows every user. */
  lemma ClearedFiltersShowEveryone(users: seq<UserEntry>)
    ensures FilteredUsers(users, "", "All") == users
  {
    forall i | 0 <= i < |users| ensures Keep(users[i], "", "All") {
      EmptyTermMatchesEverything(users[i].name);
    }
    FilterAllOrNone(users, (u: UserEntry) => Keep(u, "", "All"));
  }

  /** `{ ...prev, [name]: value }`: the input named `field` takes the value; other names touch none of the five fields. */
  function WithField(f: Form, field: string, value: string): (g: Form)
    ensures g.name == (if field == "name" then value else f.name)
    ensures g.email == (if field == "email" then value else f.email)
    ensures g.role == (if field == "role" then value else f.role)
    ensures g.password == (if field == "password" then value else f.password)
    ensures g.confirmPassword == (if field == "confirmPassword" then value else f.confirmPassword)
  {
    match field
    case "name" => f.(name := value)
    case "email" => f.(email := value)
    case "role" => f.(role := value)
    case "password" => f.(password := value)
    case "confirmPassword" => f.(confirmPassword := value)
    case _ => f
  }

  /** The entry appended for a submitted form: its fields, a time-based id, status "Active". */
  function Added(f: Form, nowMillis: int, nowIso: string): (u: UserEntry)
    ensures u.name == f.name && u.email == f.email && u.role == f.role
    ensures u.id == nowMillis && u.status == "Active" && u.createdAt == nowIso
    ensures u.password == Some(f.password) && u.confirmPassword == Some(f.confirmPassword)
  {
    UserEntry(nowMillis, f.name, f.email, f.role, "Active", nowIso, Some(f.password), Some(f.confirmPassword))
  }

  class Page {
    var users: seq<UserEntry>
    var modalOpen: bool
    var form: Form

    constructor ()
      ensures users == [] && !modalOpen && form == EmptyForm
    {
      users := [];
      modalOpen := false;
      form := EmptyForm;
    }

    /** A successful load replaces the list; a failed one keeps it. */
    method Load(answer: Option<seq<UserEntry>>)
      modifies this
      ensures users == if answer.Some? then answer.value else old(users)
      ensures modalOpen == old(modalOpen) && form == old(form)
    {
      if answer.Some? {
        users := answer.value;
      }
    }

    /** `openModal`: the form is reset and the dialog opens. */
    method OpenModal()
      modifies this
      ensures form == EmptyForm && modalOpen && users == old(users)
    {
      form := EmptyForm;
      modalOpen := true;
    }

    method CloseModal()
      modifies this
      ensures !modalOpen && form == old(form) && users == old(users)
    {
      modalOpen := false;
    }

    method HandleFormChange(field: string, value: string)
      modifies this
      ensures form == WithField(old(form), field, value)
      ensures users == old(users) && modalOpen == old(modalOpen)
    {
      form := WithField(form, field, value);
    }

    /**
     * `handleAddNewUser`: differing passwords add nothing and leave the dialog
     * open; otherwise exactly one entry built from the form is appended and
     * the dialog closes.
     */
    method HandleAddNewUser(nowMillis: int, nowIso: string)
      modifies this
      ensures form == old(form)
      ensures old(form).password != old(form).confirmPassword ==> users == old(users) && modalOpen == old(modalOpen)
      ensures old(form).password == old(form).confirmPassword ==>
                users == old(users) + [Added(old(form), nowMillis, nowIso)] && !modalOpen
    {
      if form.password != form.confirmPassword {
        return;
      }
      users := users + [Added(form, nowMillis, nowIso)];
      modalOpen := false;
    }
  }

  /** A user added with the filters cleared shows up last in the table, and the earlier rows stay as they were. */
  lemma AddedUserShowsLast(users: seq<UserEntry>, f: Form, nowMillis: int, nowIso: string)
    ensures var after := users + [Added(f, nowMillis, nowIso)];
            FilteredUsers(after, "", "All") == FilteredUsers(users, "", "All") + [Added(f, nowMillis, nowIso)]
  {
    ClearedFiltersShowEveryone(users);
    ClearedFiltersShowEveryone(users + [Added(f, nowMillis, nowIso)]);
  }
}
