/**
 * The end user's "My Ticket" page: the rows of the caller's tickets, the four
 * status counters computed at load time, the table filtered by search, status
 * and priority, and deleting a ticket, which removes its row and lowers one
 * counter in place instead of recounting.
 */
module MyTicket {
  import opened Common
  import opened Models
  import opened TicketQueries
  import opened TicketRows

  /**
   * A row of this page: the creator's name, or "You" when there is none. The
   * page's mapping is the same code as the admin dashboard's, so this equals
   * `DashboardAdmin.FormatTicket`; it is kept per page as the source keeps it.
   */
  function FormatTicket(v: TicketView): (r: Row)
    ensures r.id == v.id && r.subject == v.title && r.status == v.status && r.priority == v.priority
    ensures r.assignee.None? && r.createdBy == Some(CreatorName(v, "You"))
    ensures r == Format(v, None, Some(CreatorName(v, "You")))
  {
    Format(v, None, Some(CreatorName(v, "You")))
  }

  predicate Keep(r: Row, term: string, status: string, priority: string)
  {
    MatchesSearch(r, term) && MatchesChoice(r.status, status) && MatchesChoice(r.priority, priority)
  }

  /** The table: the rows passing all three filters, in the order they were loaded (this page does not sort). */
  function FilteredTickets(rows: seq<Row>, term: string, status: string, priority: string): (r: seq<Row>)
    ensures forall x :: x in r <==> x in rows && Keep(x, term, status, priority)
    ensures IsSubsequence(r, rows)
  {
    FilterIsSubsequence(rows, (x: Row) => Keep(x, term, status, priority));
    Filter(rows, (x: Row) => Keep(x, term, status, priority))
  }

  /** `tickets.find(t => t.id === ticketId)`: the first row with that id. */
  function FindById(rows: seq<Row>, id: int): (r: Option<Row>)
    ensures r.Some? ==> r.value in rows && r.value.id == id
    ensures r.None? <==> forall i :: 0 <= i < |rows| ==> rows[i].id != id
    ensures r.Some? ==> exists i :: 0 <= i < |rows| && rows[i] == r.value
                          && forall j :: 0 <= j < i ==> rows[j].id != id
  {
    if rows == [] then None
    else if rows[0].id == id then Some(rows[0])
    else
      assert forall i :: 1 <= i < |rows| ==> rows[1..][i - 1] == rows[i];
      FindById(rows[1..], id)
  }

  /** The counter a deleted row lowers: any status other than the first three lowers "closed". */
  datatype Counter = OpenCounter | InProgressCounter | ResolvedCounter | ClosedCounter

  function CounterFor(status: Option<string>): (k: Counter)
    ensures k == OpenCounter <==> status == Some("Open")
    ensures k == InProgressCounter <==> status == Some("In Progress")
    ensures k == ResolvedCounter <==> status == Some("Resolved")
    ensures k == ClosedCounter <==> status != Some("Open") && status != Some("In Progress") && status != Some("Resolved")
  {
    if status == Some("Open") then OpenCounter
    else if status == Some("In Progress") then InProgressCounter
    else if status == Some("Resolved") then ResolvedCounter
    else ClosedCounter
  }

  /** `Math.max(0, n - 1)`. */
  function Lowered(n: nat): (m: nat)
    ensures n > 0 ==> m == n - 1
    ensures n == 0 ==> m == 0
  {
    if n > 0 then n - 1 else 0
  }

  /** The counters with one of them lowered by one, never below zero; the other three untouched. */
  function Decremented(c: StatusCounts, k: Counter): (d: StatusCounts)
    ensures d.open == (if k == OpenCounter then Lowered(c.open) else c.open)
    ensures d.inProgress == (if k == InProgressCounter then Lowered(c.inProgress) else c.inProgress)
    ensures d.resolved == (if k == ResolvedCounter then Lowered(c.resolved) else c.resolved)
    ensures d.closed == (if k == ClosedCounter then Lowered(c.closed) else c.closed)
  {
    match k
    case OpenCounter => c.(open := Lowered(c.open))
    case InProgressCounter => c.(inProgress := Lowered(c.inProgress))
    case ResolvedCounter => c.(resolved := Lowered(c.resolved))
    case ClosedCounter => c.(closed := Lowered(c.closed))
  }

  /** The counters after a successful delete of `id`: lowered for the row found, untouched when none is. */
  function StatsAfterDelete(c: StatusCounts, rows: seq<Row>, id: int): StatusCounts
  {
    match FindById(rows, id)
    case None => c
    case Some(d) => Decremented(c, CounterFor(d.status))
  }

  class Page {
    var tickets: seq<Row>
    var stats: StatusCounts

    constructor ()
      ensures tickets == [] && stats == StatusCounts(0, 0, 0, 0)
    {
      tickets := [];
      stats := StatusCounts(0, 0, 0, 0);
    }

    /** A successful load replaces the rows and recounts; a failed one keeps both. */
    method Load(answer: Option<seq<TicketView>>)
      modifies this
      ensures answer.Some? ==> tickets == FormatAll(answer.value, _ => None, v => Some(CreatorName(v, "You")))
      ensures answer.Some? ==> stats == StatusStats(tickets)
      ensures answer.None? ==> tickets == old(tickets) && stats == old(stats)
    {
      if answer.Some? {
        var rows := FormatAll(answer.value, _ => None, v => Some(CreatorName(v, "You")));
        stats := StatusStats(rows);
        tickets := rows;
      }
    }

    /**
     * `handleDelete`: a declined confirmation or a failed call changes
     * nothing; otherwise the rows with that id leave and the counter of the
     * first such row is lowered.
     */
    method HandleDelete(ticketId: int, confirmed: bool, success: bool)
      modifies this
      ensures confirmed && success ==> tickets == WithoutTicket(old(tickets), ticketId)
      ensures confirmed && success ==> stats == StatsAfterDelete(old(stats), old(tickets), ticketId)
      ensures !(confirmed && success) ==> tickets == old(tickets) && stats == old(stats)
    {
      if !confirmed {
        return;
      }
      if success {
        var deleted := FindById(tickets, ticketId);
        tickets := Filter(tickets, (t: Row) => t.id != ticketId);
        if deleted.Some? {
          stats := Decremented(stats, CounterFor(deleted.value.status));
        }
      }
    }
  }

  // ---------------------------------------------------------------------------
  // When lowering one counter agrees with recounting
  // ---------------------------------------------------------------------------

  predicate UniqueIds(rows: seq<Row>)
  {
    forall i, j :: 0 <= i < j < |rows| ==> rows[i].id != rows[j].id
  }

  /** Every row carries one of the four stored statuses. */
  predicate KnownStatuses(rows: seq<Row>)
  {
    forall i :: 0 <= i < |rows| ==> rows[i].status.Some? && rows[i].status.value in Statuses
  }

  /** With ids unique, the rows a delete removes that pass `q` are the found row if it passes, or none. */
  lemma {:induction false} RemovedRowsCount(rows: seq<Row>, id: int, q: Row -> bool, gone: Row -> bool)
    requires UniqueIds(rows)
    requires forall i :: 0 <= i < |rows| ==> gone(rows[i]) == (rows[i].id == id && q(rows[i]))
    ensures |Filter(rows, gone)| == match FindById(rows, id)
                                    case None => 0
                                    case Some(d) => if q(d) then 1 else 0
  {
    if rows != [] {
      var tail := rows[1..];
      assert forall i :: 1 <= i < |rows| ==> tail[i - 1] == rows[i];
      assert UniqueIds(tail);
      if rows[0].id == id {
        assert forall i :: 0 <= i < |tail| ==> tail[i].id != id;
        FilterAllOrNone(tail, gone);
      } else {
        RemovedRowsCount(tail, id, q, gone);
      }
    }
  }

  /** One status counter after a delete is the old count less the removed row, if it had that status. */
  lemma CountAfterDelete(rows: seq<Row>, id: int, s: string)
    requires UniqueIds(rows)
    ensures CountStatus(rows, s) == CountStatus(WithoutTicket(rows, id), s)
                                    + match FindById(rows, id)
                                      case None => 0
                                      case Some(d) => if d.status == Some(s) then 1 else 0
  {
    var keep := (x: Row) => x.id != id;
    var has := (r: Row) => r.status == Some(s);
    var gone := (x: Row) => x.id == id && has(x);
    CountAcrossRemoval(rows, keep, has, gone);
    RemovedRowsCount(rows, id, has, gone);
  }

  /**
   * With unique ids and every status one of the four, lowering the found
   * row's counter gives exactly the counters a recount after the delete
   * would give.
   */
  lemma DeleteKeepsStatsInSync(rows: seq<Row>, id: int)
    requires UniqueIds(rows) && KnownStatuses(rows)
    ensures StatsAfterDelete(StatusStats(rows), rows, id) == StatusStats(WithoutTicket(rows, id))
  {
    CountAfterDelete(rows, id, "Open");
    CountAfterDelete(rows, id, "In Progress");
    CountAfterDelete(rows, id, "Resolved");
    CountAfterDelete(rows, id, "Closed");
    match FindById(rows, id)
    case None =>
    case Some(d) =>
      var i :| 0 <= i < |rows| && rows[i] == d;
      assert d.status.Some? && d.status.value in Statuses;
  }

  /**
   * A row without a status (the column accepts null) lowers the "closed"
   * counter on delete, so the counters drift from a recount: two rows, the
   * first without a status and the second closed; deleting the first leaves
   * "closed" at 0 while one closed row remains.
   */
  lemma NullStatusDeleteDrifts()
    ensures var rows := [Row(1, DisplayId(1), "a", "", None, None, None, None, None, "", ""),
                         Row(2, DisplayId(2), "b", "", None, Some("Closed"), None, None, None, "", "")];
            && StatsAfterDelete(StatusStats(rows), rows, 1).closed == 0
            && StatusStats(WithoutTicket(rows, 1)).closed == 1
  {
    var a := Row(1, DisplayId(1), "a", "", None, None, None, None, None, "", "");
    var b := Row(2, DisplayId(2), "b", "", None, Some("Closed"), None, None, None, "", "");
    var rows := [a, b];
    assert rows[1..] == [b] && [b][1..] == [];
    assert WithoutTicket(rows, 1) == [b];
    assert CountStatus(rows, "Closed") == 1;
    assert CountStatus([b], "Closed") == 1;
  }
}
