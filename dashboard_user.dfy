/**
 * The end user's dashboard: the list of the caller's tickets, its table
 * filtered by search and status and sorted by ticket number, and deleting a
 * ticket from it.
 */
module DashboardUser {
  import opened Common
  import opened TicketQueries
  import opened TicketRows

  /** A row of this page carries neither creator nor assignee. */
  function FormatTicket(v: TicketView): (r: Row)
    ensures r.id == v.id && r.subject == v.title && r.status == v.status
    ensures r.assignee.None? && r.createdBy.None?
    ensures r == Format(v, None, None)
  {
    Format(v, None, None)
  }

  predicate Keep(r: Row, term: string, status: string)
  {
    MatchesSearch(r, term) && MatchesChoice(r.status, status)
  }

  /** The table: the rows passing search and status, in ascending ticket-number order. */
  function FilteredTickets(rows: seq<Row>, term: string, status: string): (r: seq<Row>)
    ensures forall x :: x in r <==> x in rows && Keep(x, term, status)
    ensures multiset(r) == multiset(Filter(rows, (x: Row) => Keep(x, term, status)))
    ensures SortedBy(r, SortKey)
  {
    var kept := Filter(rows, (x: Row) => Keep(x, term, status));
    var sorted := SortedRows(kept);
    assert forall x :: x in sorted <==> x in kept by {
      forall x ensures x in sorted <==> x in kept {
        assert x in sorted <==> x in multiset(sorted);
        assert x in kept <==> x in multiset(kept);
      }
    }
    sorted
  }

  /** The page's state: the rows loaded from the list. */
  class Page {
    var tickets: seq<Row>

    constructor ()
      ensures tickets == []
    {
      tickets := [];
    }

    /** A successful load replaces the rows with the formatted list; a failed one keeps them. */
    method Load(answer: Option<seq<TicketView>>)
      modifies this
      ensures answer.Some? ==> tickets == FormatAll(answer.value, _ => None, _ => None)
      ensures answer.None? ==> tickets == old(tickets)
    {
      if answer.Some? {
        tickets := FormatAll(answer.value, _ => None, _ => None);
      }
    }

    /**
     * `handleDelete`: nothing happens unless the confirmation is accepted and
     * the delete call reports success; then the rows with that id leave.
     */
    method HandleDelete(ticketId: int, confirmed: bool, success: bool)
      modifies this
      ensures tickets == if confirmed && success then WithoutTicket(old(tickets), ticketId) else old(tickets)
    {
      if !confirmed {
        return;
      }
      if success {
        tickets := Filter(tickets, (t: Row) => t.id != ticketId);
      }
    }
  }

  /** After a delete the table never shows the deleted ticket, whatever the filters. */
  lemma DeletedTicketLeavesTable(rows: seq<Row>, id: int, term: string, status: string)
    ensures forall x :: x in FilteredTickets(WithoutTicket(rows, id), term, status) ==> x.id != id
  {
  }
}
