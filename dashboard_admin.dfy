/**
 * The staff and admin dashboard: the rows it builds from the ticket list, its
 * four status counters, and the table filtered by search, status and
 * priority and sorted by ticket number.
 */
module DashboardAdmin {
  import opened Common
  import opened Models
  import opened TicketQueries
  import opened TicketRows

  /** A row of this page: the creator's name, or "You" when there is none. */
  function FormatTicket(v: TicketView): (r: Row)
    ensures r.id == v.id && r.subject == v.title && r.status == v.status && r.priority == v.priority
    ensures r.assignee.None? && r.createdBy == Some(CreatorName(v, "You"))
    ensures r == Format(v, None, Some(CreatorName(v, "You")))
  {
    Format(v, None, Some(CreatorName(v, "You")))
  }

  /**
   * The counters the page shows, one per status; no row is counted twice.
   * The page counts exactly as "My Ticket" does at load time, so both use
   * the shared `StatusStats`.
   */
  function PageStats(rows: seq<Row>): (c: StatusCounts)
    ensures c.open == |Filter(rows, (r: Row) => r.status == Some("Open"))|
    ensures c.inProgress == |Filter(rows, (r: Row) => r.status == Some("In Progress"))|
    ensures c.resolved == |Filter(rows, (r: Row) => r.status == Some("Resolved"))|
    ensures c.closed == |Filter(rows, (r: Row) => r.status == Some("Closed"))|
    ensures c == StatusStats(rows)
    ensures c.open + c.inProgress + c.resolved + c.closed <= |rows|
  {
    StatusStats(rows)
  }

  predicate Keep(r: Row, term: string, status: string, priority: string)
  {
    MatchesSearch(r, term) && MatchesChoice(r.status, status) && MatchesChoice(r.priority, priority)
  }

  /** The table: the rows passing all three filters, in ascending ticket-number order. */
  function FilteredTickets(rows: seq<Row>, term: string, status: string, priority: string): (r: seq<Row>)
    ensures forall x :: x in r <==> x in rows && Keep(x, term, status, priority)
    ensures multiset(r) == multiset(Filter(rows, (x: Row) => Keep(x, term, status, priority)))
    ensures SortedBy(r, SortKey)
  {
    var kept := Filter(rows, (x: Row) => Keep(x, term, status, priority));
    var sorted := SortedRows(kept);
    assert forall x :: x in sorted <==> x in kept by {
      forall x ensures x in sorted <==> x in kept {
        assert x in sorted <==> x in multiset(sorted);
        assert x in kept <==> x in multiset(kept);
      }
    }
    sorted
  }

  /**
   * The status select offers "Unassigned", which is compared with the status
   * itself: as long as every row carries one of the four stored statuses (or
   * none), that choice empties the table whatever the assignments are.
   */
  lemma UnassignedChoiceEmptiesTable(rows: seq<Row>, term: string, priority: string)
    requires forall i :: 0 <= i < |rows| ==> InEnum(rows[i].status, Statuses)
    ensures FilteredTickets(rows, term, "Unassigned", priority) == []
  {
  }

  /** Widening the status or priority choice to "All" keeps every row kept before. */
  lemma AllChoiceWidens(rows: seq<Row>, term: string, status: string, priority: string)
    ensures forall x :: x in FilteredTickets(rows, term, status, priority) ==> x in FilteredTickets(rows, term, "All", priority)
    ensures forall x :: x in FilteredTickets(rows, term, status, priority) ==> x in FilteredTickets(rows, term, status, "All")
  {
  }
}
