/**
 * The assignment page: rows carrying the assignee's name looked up in the
 * staff list, the table filtered by search, the unassigned-only switch,
 * priority and status and sorted by ticket number, and the four counters
 * about assignment.
 */
module AssignAdmin {
  import opened Common
  import opened TicketQueries
  import opened TicketRows

  /** An entry of the staff list; it may identify its user by `id` or by `user_id`. */
  datatype StaffMember = StaffMember(id: Option<int>, userId: Option<int>, name: string)

  /** `!ticket.assigned_to`: no assignee, or the falsy id 0. */
  predicate Unassigned(assignedTo: Option<int>)
  {
    assignedTo.None? || assignedTo.value == 0
  }

  predicate Identifies(s: StaffMember, key: int)
  {
    s.id == Some(key) || s.userId == Some(key)
  }

  /** `staff.find(s => s.id === key || s.user_id === key)`. */
  function FindStaff(staff: seq<StaffMember>, key: int): (r: Option<StaffMember>)
    ensures r.Some? ==> r.value in staff && Identifies(r.value, key)
    ensures r.None? <==> forall i :: 0 <= i < |staff| ==> !Identifies(staff[i], key)
    ensures r.Some? ==> exists i :: 0 <= i < |staff| && staff[i] == r.value
                          && forall j :: 0 <= j < i ==> !Identifies(staff[j], key)
  {
    if staff == [] then None
    else if Identifies(staff[0], key) then Some(staff[0])
    else
      assert forall i :: 1 <= i < |staff| ==> staff[1..][i - 1] == staff[i];
      FindStaff(staff[1..], key)
  }

  /**
   * The assignee column: null when unassigned; otherwise the name of the
   * first staff entry with that id, or "Unknown" when there is none or its
   * name is empty.
   */
  function AssigneeName(assignedTo: Option<int>, staff: seq<StaffMember>): (r: Option<string>)
    ensures r.None? <==> Unassigned(assignedTo)
    ensures !Unassigned(assignedTo) && (forall i :: 0 <= i < |staff| ==> !Identifies(staff[i], assignedTo.value))
            ==> r == Some("Unknown")
    ensures r.Some? && r.value != "Unknown" ==>
              exists i :: 0 <= i < |staff| && Identifies(staff[i], assignedTo.value) && staff[i].name == r.value
    ensures !Unassigned(assignedTo) && FindStaff(staff, assignedTo.value).Some? ==>
              r == Some(OrElse(FindStaff(staff, assignedTo.value).value.name, "Unknown"))
  {
    if Unassigned(assignedTo) then None
    else match FindStaff(staff, assignedTo.value)
      case None => Some("Unknown")
      case Some(s) => Some(OrElse(s.name, "Unknown"))
  }

  /** A row of this page: assignee looked up, creator's name or "Unknown". */
  function FormatTicket(v: TicketView, staff: seq<StaffMember>): (r: Row)
    ensures r == Format(v, AssigneeName(v.assignedTo, staff), Some(CreatorName(v, "Unknown")))
    ensures r.assignee.None? <==> Unassigned(v.assignedTo)
    ensures r.assignee == AssigneeName(v.assignedTo, staff) && r.createdBy == Some(CreatorName(v, "Unknown"))
  {
    Format(v, AssigneeName(v.assignedTo, staff), Some(CreatorName(v, "Unknown")))
  }

  predicate Keep(r: Row, term: string, unassignedOnly: bool, priority: string, status: string)
  {
    && MatchesSearch(r, term)
    && (!unassignedOnly || Unassigned(r.assignedTo))
    && MatchesChoice(r.priority, priority)
    && MatchesChoice(r.status, status)
  }

  /** The table: the rows passing the four filters, in ascending ticket-number order. */
  function FilteredTickets(rows: seq<Row>, term: string, unassignedOnly: bool, priority: string, status: string)
    : (r: seq<Row>)
    ensures forall x :: x in r <==> x in rows && Keep(x, term, unassignedOnly, priority, status)
    ensures multiset(r) == multiset(Filter(rows, (x: Row) => Keep(x, term, unassignedOnly, priority, status)))
    ensures SortedBy(r, SortKey)
  {
    var kept := Filter(rows, (x: Row) => Keep(x, term, unassignedOnly, priority, status));
    var sorted := SortedRows(kept);
    assert forall x :: x in sorted <==> x in kept by {
      forall x ensures x in sorted <==> x in kept {
        assert x in sorted <==> x in multiset(sorted);
        assert x in kept <==> x in multiset(kept);
      }
    }
    sorted
  }

  /** With the switch on, the table holds unassigned tickets only. */
  lemma UnassignedOnlyShowsUnassigned(rows: seq<Row>, term: string, priority: string, status: string)
    ensures forall x :: x in FilteredTickets(rows, term, true, priority, status) ==> Unassigned(x.assignedTo)
  {
  }

  datatype AssignStats = AssignStats(totalTickets: nat, unassigned: nat, assignedCount: int, criticalUnassigned: nat)

  /** The counters: all rows, unassigned rows, the rest, and unassigned rows of priority "High". */
  function Stats(rows: seq<Row>): (s: AssignStats)
    ensures s.totalTickets == |rows|
    ensures s.unassigned == |Filter(rows, (t: Row) => Unassigned(t.assignedTo))|
    ensures s.assignedCount + s.unassigned == s.totalTickets
    ensures s.assignedCount == |Filter(rows, (t: Row) => !Unassigned(t.assignedTo))|
    ensures s.criticalUnassigned == |Filter(rows, (t: Row) => Unassigned(t.assignedTo) && t.priority == Some("High"))|
    ensures s.criticalUnassigned <= s.unassigned <= s.totalTickets
  {
    var free := (t: Row) => Unassigned(t.assignedTo);
    var critical := (t: Row) => Unassigned(t.assignedTo) && t.priority == Some("High");
    var unassigned := |Filter(rows, free)|;
    FilterStrongerCount(rows, critical, free);
    FilterComplement(rows, free, (t: Row) => !Unassigned(t.assignedTo));
    AssignStats(|rows|, unassigned, |rows| - unassigned, |Filter(rows, critical)|)
  }
}
