/**
 * The system-settings page: the general and security forms and the
 * notification switches, each a record of named values updated one input at
 * a time, and the table of priority levels, whose rows are edited, deleted
 * and added under fresh ids. Nothing on the page is sent anywhere.
 */
module SystemSetting {
  import opened Common

  /** A form value: the text of an input or select, or the state of a checkbox. */
  datatype Setting = Text(text: string) | Flag(on: bool)

  /**
   * `{ ...prev, [name]: type === 'checkbox' ? checked : value }`: the input
   * named `name` takes the box's state or the text; every other entry stays.
   */
  function Changed(m: map<string, Setting>, name: string, value: string, isCheckbox: bool, checked: bool)
    : (r: map<string, Setting>)
    ensures r.Keys == m.Keys + {name}
    ensures r[name] == if isCheckbox then Flag(checked) else Text(value)
    ensures forall k :: k in m && k != name ==> r[k] == m[k]
  {
    m[name := if isCheckbox then Flag(checked) else Text(value)]
  }

  /** Changes to two different inputs can happen in either order. */
  lemma ChangesCommute(m: map<string, Setting>, a: string, va: string, ca: bool, ka: bool,
                       b: string, vb: string, cb: bool, kb: bool)
    requires a != b
    ensures Changed(Changed(m, a, va, ca, ka), b, vb, cb, kb) == Changed(Changed(m, b, vb, cb, kb), a, va, ca, ka)
  {
  }

  /** A second change to the same input overrides the first. */
  lemma LastChangeWins(m: map<string, Setting>, a: string, v1: string, c1: bool, k1: bool, v2: string, c2: bool, k2: bool)
    ensures Changed(Changed(m, a, v1, c1, k1), a, v2, c2, k2) == Changed(m, a, v2, c2, k2)
  {
  }

  /** The general form's initial values. */
  const GeneralDefaults: map<string, Setting> :=
    map["systemName" := Text("IT Support Ticket System"),
        "systemEmail" := Text("support@company.com"),
        "defaultPriority" := Text("Medium"),
        "autoAssign" := Flag(false)]

  /** The security form's initial values. */
  const SecurityDefaults: map<string, Setting> :=
    map["minLength" := Text("8 characters"),
        "requireUpper" := Flag(true),
        "requireLower" := Flag(false),
        "requireNumbers" := Flag(true),
        "requireSpecial" := Flag(false),
        "sessionTimeout" := Text("15 minutes"),
        "maxLoginAttempts" := Text("5 attempts"),
        "twoFactorAuth" := Flag(true)]

  /** The notification switches' initial states. */
  const NotificationDefaults: map<string, bool> :=
    map["emailNotifications" := true,
        "newTicketAlert" := true,
        "ticketAssignedAlert" := true,
        "ticketStatusChangeAlert" := true,
        "ticketCommentAlert" := false,
        "dailyDigest" := true,
        "weeklyReport" := true]

  /** The general or the security tab: one record of named values. */
  class SettingsForm {
    var settings: map<string, Setting>

    constructor General()
      ensures settings == GeneralDefaults
    {
      settings := GeneralDefaults;
    }

    constructor Security()
      ensures settings == SecurityDefaults
    {
      settings := SecurityDefaults;
    }

    method HandleChange(name: string, value: string, isCheckbox: bool, checked: bool)
      modifies this
      ensures settings == Changed(old(settings), name, value, isCheckbox, checked)
    {
      settings := settings[name := if isCheckbox then Flag(checked) else Text(value)];
    }
  }

  /** The notifications tab: one switch per name. */
  class NotificationSwitches {
    var toggles: map<string, bool>

    constructor ()
      ensures toggles == NotificationDefaults
    {
      toggles := NotificationDefaults;
    }

    /** The switch named `name` takes the box's state; the others keep theirs. */
    method HandleChange(name: string, checked: bool)
      modifies this
      ensures toggles.Keys == old(toggles).Keys + {name}
      ensures toggles[name] == checked
      ensures forall k :: k in old(toggles) && k != name ==> toggles[k] == old(toggles)[k]
    {
      toggles := toggles[name := checked];
    }
  }

  // ---------------------------------------------------------------------------
  // Priority levels
  // ---------------------------------------------------------------------------

  datatype PriorityLevel = PriorityLevel(id: int, name: string, responseTime: string, enabled: bool, tag: string)

  /** The three inputs of a row: its name, its response time and its enable switch. */
  datatype PriorityEdit = Rename(name: string) | SetResponseTime(time: string) | SetEnabled(on: bool)

  const InitialPriorities: seq<PriorityLevel> :=
    [PriorityLevel(1, "Low", "48 hours", true, "Low"),
     PriorityLevel(2, "Medium", "24 hours", true, "Medium"),
     PriorityLevel(3, "High", "8 hours", true, "High")]

  /** `{ ...p, [field]: value }`: the edited field changes; id, tag and the other two fields stay. */
  function Apply(p: PriorityLevel, e: PriorityEdit): (q: PriorityLevel)
    ensures q.id == p.id && q.tag == p.tag
    ensures q.name == (if e.Rename? then e.name else p.name)
    ensures q.responseTime == (if e.SetResponseTime? then e.time else p.responseTime)
    ensures q.enabled == (if e.SetEnabled? then e.on else p.enabled)
  {
    match e
    case Rename(n) => p.(name := n)
    case SetResponseTime(t) => p.(responseTime := t)
    case SetEnabled(b) => p.(enabled := b)
  }

  /** `prev.map(p => p.id === id ? { ...p, [field]: value } : p)`. */
  function Edited(ps: seq<PriorityLevel>, id: int, e: PriorityEdit): (r: seq<PriorityLevel>)
    ensures |r| == |ps|
    ensures forall i :: 0 <= i < |ps| ==> r[i].id == ps[i].id
    ensures forall i :: 0 <= i < |ps| && ps[i].id != id ==> r[i] == ps[i]
    ensures forall i :: 0 <= i < |ps| && ps[i].id == id ==> r[i] == Apply(ps[i], e)
  {
    seq(|ps|, i requires 0 <= i < |ps| => if ps[i].id == id then Apply(ps[i], e) else ps[i])
  }

  /** `prev.filter(p => p.id !== id)`. */
  function Deleted(ps: seq<PriorityLevel>, id: int): (r: seq<PriorityLevel>)
    ensures forall p :: p in r <==> p in ps && p.id != id
    ensures IsSubsequence(r, ps)
  {
    FilterIsSubsequence(ps, (p: PriorityLevel) => p.id != id);
    Filter(ps, (p: PriorityLevel) => p.id != id)
  }

  /** `Math.max(...priorities.map(p => p.id))`: the largest id, carried by some row. */
  function MaxId(ps: seq<PriorityLevel>): (m: int)
    requires ps != []
    ensures forall i :: 0 <= i < |ps| ==> ps[i].id <= m
    ensures exists i :: 0 <= i < |ps| && ps[i].id == m
  {
    if |ps| == 1 then ps[0].id
    else
      var rest := MaxId(ps[1..]);
      assert forall i :: 1 <= i < |ps| ==> ps[1..][i - 1] == ps[i];
      if ps[0].id >= rest then ps[0].id else rest
  }

  /** The id of an added row: one more than the largest id, or 1 for an empty table. */
  function NextId(ps: seq<PriorityLevel>): (n: int)
    ensures forall i :: 0 <= i < |ps| ==> ps[i].id < n
    ensures ps == [] ==> n == 1
    ensures ps != [] ==> exists i :: 0 <= i < |ps| && ps[i].id == n - 1
  {
    if |ps| > 0 then MaxId(ps) + 1 else 1
  }

  /** The row `handleAddPriority` appends. */
  function NewLevel(id: int): (p: PriorityLevel)
    ensures p.id == id && p.name == "New Priority" && p.responseTime == "72 hours" && !p.enabled && p.tag == "New"
  {
    PriorityLevel(id, "New Priority", "72 hours", false, "New")
  }

  predicate DistinctIds(ps: seq<PriorityLevel>)
  {
    forall i, j :: 0 <= i < j < |ps| ==> ps[i].id != ps[j].id
  }

  /** Editing keeps every id in place, so distinct ids stay distinct. */
  lemma EditKeepsIdsDistinct(ps: seq<PriorityLevel>, id: int, e: PriorityEdit)
    requires DistinctIds(ps)
    ensures DistinctIds(Edited(ps, id, e))
  {
  }

  /** Removing rows from a table with distinct ids leaves distinct ids. */
  lemma {:induction false} FilterKeepsIdsDistinct(ps: seq<PriorityLevel>, p: PriorityLevel -> bool)
    requires DistinctIds(ps)
    ensures DistinctIds(Filter(ps, p))
  {
    if ps != [] {
      var tail := ps[1..];
      assert forall i :: 1 <= i < |ps| ==> tail[i - 1] == ps[i];
      FilterKeepsIdsDistinct(tail, p);
      if p(ps[0]) {
        var rest := Filter(tail, p);
        var r := [ps[0]] + rest;
        forall j | 0 <= j < |rest| ensures ps[0].id != rest[j].id {
          assert rest[j] in tail;
          var k :| 0 <= k < |tail| && tail[k] == rest[j];
          assert ps[k + 1] == rest[j];
        }
        forall i, j | 0 <= i < j < |r| ensures r[i].id != r[j].id {
          assert r[j] == rest[j - 1];
          if i > 0 {
            assert r[i] == rest[i - 1];
          }
        }
      }
    }
  }

  /** Deleting keeps distinct ids distinct, and the deleted id is gone. */
  lemma DeleteKeepsIdsDistinct(ps: seq<PriorityLevel>, id: int)
    requires DistinctIds(ps)
    ensures DistinctIds(Deleted(ps, id))
    ensures forall p :: p in Deleted(ps, id) ==> p.id != id
  {
    FilterKeepsIdsDistinct(ps, (p: PriorityLevel) => p.id != id);
  }

  /** The added row's id is new, so ids stay distinct. */
  lemma AddKeepsIdsDistinct(ps: seq<PriorityLevel>)
    requires DistinctIds(ps)
    ensures DistinctIds(ps + [NewLevel(NextId(ps))])
  {
    var r := ps + [NewLevel(NextId(ps))];
    forall i, j | 0 <= i < j < |r| ensures r[i].id != r[j].id {
      if j == |ps| {
        assert r[i] == ps[i];
      } else {
        assert r[i] == ps[i] && r[j] == ps[j];
      }
    }
  }

  /**
   * Ids are not reserved: deleting the highest level and adding one gives
   * the new row the deleted row's id.
   */
  lemma DeletedIdReused()
    ensures var after := Deleted(InitialPriorities, 3);
            NextId(after) == 3
  {
    var after := Deleted(InitialPriorities, 3);
    var low := InitialPriorities[0];
    var medium := InitialPriorities[1];
    assert InitialPriorities[1..] == [medium, InitialPriorities[2]];
    assert InitialPriorities[2..] == [InitialPriorities[2]];
    assert InitialPriorities[3..] == [];
    assert after == [low, medium];
    assert after[1..] == [medium];
  }

  /** The priorities tab; its rows keep distinct ids through every change. */
  class PriorityTable {
    var priorities: seq<PriorityLevel>

    ghost predicate Valid()
      reads this
    {
      DistinctIds(priorities)
    }

    constructor ()
      ensures priorities == InitialPriorities && Valid()
    {
      priorities := InitialPriorities;
    }

    method HandleChange(id: int, e: PriorityEdit)
      requires Valid()
      modifies this
      ensures priorities == Edited(old(priorities), id, e) && Valid()
    {
      EditKeepsIdsDistinct(priorities, id, e);
      priorities := Edited(priorities, id, e);
    }

    /** A declined confirmation keeps the table; an accepted one removes the rows with that id. */
    method HandleDelete(id: int, confirmed: bool)
      requires Valid()
      modifies this
      ensures priorities == if confirmed then Deleted(old(priorities), id) else old(priorities)
      ensures Valid()
    {
      if confirmed {
        DeleteKeepsIdsDistinct(priorities, id);
        priorities := Deleted(priorities, id);
      }
    }

    method HandleAddPriority()
      requires Valid()
      modifies this
      ensures priorities == old(priorities) + [NewLevel(NextId(old(priorities)))] && Valid()
    {
      var newId := if |priorities| > 0 then MaxId(priorities) + 1 else 1;
      AddKeepsIdsDistinct(priorities);
      priorities := priorities + [NewLevel(newId)];
    }
  }
}
