/**
 * The ticket rows the pages build from the list GET /tickets answers, and the
 * pieces every ticket page shares: the "TKT-" display id and the numeric key
 * the tables sort by, the case-insensitive search, the "All" filters, and the
 * four status counters.
 */
module TicketRows {
  import opened Common
  import opened TicketQueries

  /** One table row. `createdBy` and `assignee` are None on the pages that do not fill them. */
  datatype Row = Row(
    id: int,
    displayId: string,
    subject: string,
    description: string,
    priority: Option<string>,
    status: Option<string>,
    assignedTo: Option<int>,
    assignee: Option<string>,
    createdBy: Option<string>,
    updatedAt: string,
    createdAt: string)

  /** The template literal `TKT-${id}`. */
  function DisplayId(id: int): (d: string)
    ensures |d| > 4 && d[..4] == "TKT-"
  {
    "TKT-" + IntToString(id)
  }

  /** `a || b` on strings: an empty string falls back. */
  function OrElse(a: string, b: string): (r: string)
    ensures a != "" ==> r == a
    ensures a == "" ==> r == b
  {
    if a != "" then a else b
  }

  /** `ticket.creator?.name || fallback`. */
  function CreatorName(v: TicketView, fallback: string): (r: string)
    ensures v.creator.Some? && v.creator.value.name != "" ==> r == v.creator.value.name
    ensures v.creator.None? || v.creator.value.name == "" ==> r == fallback
  {
    if v.creator.Some? then OrElse(v.creator.value.name, fallback) else fallback
  }

  /**
   * The common part of every page's mapping of a list entry: id, display id,
   * subject, priority and status as sent, and the update time falling back to
   * the creation time.
   */
  function Format(v: TicketView, assignee: Option<string>, createdBy: Option<string>): (r: Row)
    ensures r.id == v.id && r.displayId == DisplayId(v.id) && r.subject == v.title
    ensures r.priority == v.priority && r.status == v.status && r.assignedTo == v.assignedTo
    ensures r.assignee == assignee && r.createdBy == createdBy
    ensures r.updatedAt == (if v.updatedAt != "" then v.updatedAt else v.createdAt) && r.createdAt == v.createdAt
  {
    Row(v.id, DisplayId(v.id), v.title, v.description, v.priority, v.status, v.assignedTo,
        assignee, createdBy, OrElse(v.updatedAt, v.createdAt), v.createdAt)
  }

  /** Every entry of a list mapped by `Format` with the per-entry extras. */
  function FormatAll(vs: seq<TicketView>, assignee: TicketView -> Option<string>, createdBy: TicketView -> Option<string>)
    : (rows: seq<Row>)
    ensures |rows| == |vs|
    ensures forall i :: 0 <= i < |vs| ==> rows[i] == Format(vs[i], assignee(vs[i]), createdBy(vs[i]))
  {
    seq(|vs|, i requires 0 <= i < |vs| => Format(vs[i], assignee(vs[i]), createdBy(vs[i])))
  }

  // ---------------------------------------------------------------------------
  // Sorting by the number inside the display id
  // ---------------------------------------------------------------------------

  /** `parseInt(ticket_id.replace('TKT-', '')) || 0`. */
  function SortKey(r: Row): int
  {
    match ParseInt(ReplaceFirst(r.displayId, "TKT-", ""))
    case None => 0
    case Some(n) => n
  }

  /** Reading the number back out of a display id gives the ticket id. */
  lemma SortKeyIsId(r: Row)
    requires r.id >= 0 && r.displayId == DisplayId(r.id)
    ensures SortKey(r) == r.id
  {
    ReplacePrefix("TKT-", NatToString(r.id));
    ParseIntOfNatToString(r.id);
  }

  /** `filtered.sort((a, b) => keyOf(a) - keyOf(b))`, a stable ascending sort. */
  function SortedRows(rows: seq<Row>): (r: seq<Row>)
    ensures multiset(r) == multiset(rows)
    ensures SortedBy(r, SortKey)
  {
    SortByCorrect(rows, SortKey);
    SortBy(rows, SortKey)
  }

  /** For rows built from issued (non-negative) ids, the order is ascending ticket id. */
  lemma SortedRowsById(rows: seq<Row>)
    requires forall i :: 0 <= i < |rows| ==> rows[i].id >= 0 && rows[i].displayId == DisplayId(rows[i].id)
    ensures forall i, j :: 0 <= i < j < |SortedRows(rows)| ==> SortedRows(rows)[i].id <= SortedRows(rows)[j].id
  {
    var r := SortedRows(rows);
    forall k | 0 <= k < |r|
      ensures r[k].id >= 0 && SortKey(r[k]) == r[k].id
    {
      assert r[k] in multiset(r);
      assert r[k] in multiset(rows);
      var i :| 0 <= i < |rows| && rows[i] == r[k];
      SortKeyIsId(r[k]);
    }
  }

  // ---------------------------------------------------------------------------
  // Filters
  // ---------------------------------------------------------------------------

  /** The search box: the term occurs, ignoring case, in the subject or in the display id. */
  predicate MatchesSearch(r: Row, term: string)
  {
    MatchesTerm(r.subject, term) || MatchesTerm(r.displayId, term)
  }

  /** A select box: "All" keeps everything, any other choice keeps rows whose field equals it. */
  predicate MatchesChoice(field: Option<string>, choice: string)
  {
    choice == "All" || field == Some(choice)
  }

  /** An empty search with every select on "All" keeps every row. */
  lemma ClearedFiltersKeepEverything(r: Row)
    ensures MatchesSearch(r, "") && MatchesChoice(r.status, "All") && MatchesChoice(r.priority, "All")
  {
    EmptyTermMatchesEverything(r.subject);
  }

  /** Searching for a row's own display id finds it. */
  lemma SearchFindsOwnDisplayId(r: Row)
    ensures MatchesSearch(r, r.displayId)
  {
    TextMatchesItself(r.displayId);
  }

  // ---------------------------------------------------------------------------
  // The four status counters
  // ---------------------------------------------------------------------------

  datatype StatusCounts = StatusCounts(open: nat, inProgress: nat, resolved: nat, closed: nat)

  function CountStatus(rows: seq<Row>, status: string): nat
  {
    |Filter(rows, (r: Row) => r.status == Some(status))|
  }

  /** `{ open, inProgress, resolved, closed }`, each the length of a filter on one status. */
  function StatusStats(rows: seq<Row>): (c: StatusCounts)
    ensures c.open == |Filter(rows, (r: Row) => r.status == Some("Open"))|
    ensures c.inProgress == |Filter(rows, (r: Row) => r.status == Some("In Progress"))|
    ensures c.resolved == |Filter(rows, (r: Row) => r.status == Some("Resolved"))|
    ensures c.closed == |Filter(rows, (r: Row) => r.status == Some("Closed"))|
    ensures c.open + c.inProgress + c.resolved + c.closed <= |rows|
  {
    FourDisjointCountsBounded(rows, (r: Row) => r.status == Some("Open"), (r: Row) => r.status == Some("In Progress"),
                              (r: Row) => r.status == Some("Resolved"), (r: Row) => r.status == Some("Closed"));
    StatusCounts(CountStatus(rows, "Open"), CountStatus(rows, "In Progress"),
                 CountStatus(rows, "Resolved"), CountStatus(rows, "Closed"))
  }

  // ---------------------------------------------------------------------------
  // Deleting from the loaded list
  // ---------------------------------------------------------------------------

  /** The rows left after removing every row with the deleted id; the rest keep their order. */
  function WithoutTicket(rows: seq<Row>, id: int): (r: seq<Row>)
    ensures forall x :: x in r <==> x in rows && x.id != id
    ensures IsSubsequence(r, rows)
  {
    FilterIsSubsequence(rows, (x: Row) => x.id != id);
    Filter(rows, (x: Row) => x.id != id)
  }

  /** The list gets shorter exactly when some row carries the deleted id. */
  lemma WithoutTicketShrinks(rows: seq<Row>, id: int)
    ensures |WithoutTicket(rows, id)| < |rows| <==> exists i :: 0 <= i < |rows| && rows[i].id == id
  {
    var keep := (x: Row) => x.id != id;
    var gone := (x: Row) => x.id == id;
    FilterComplement(rows, keep, gone);
    if exists i :: 0 <= i < |rows| && rows[i].id == id {
      var i :| 0 <= i < |rows| && rows[i].id == id;
      assert rows[i] in Filter(rows, gone);
    } else {
      FilterAllOrNone(rows, keep);
    }
  }

  /** Deleting the same ticket twice leaves what deleting it once left. */
  lemma WithoutTicketIdempotent(rows: seq<Row>, id: int)
    ensures WithoutTicket(WithoutTicket(rows, id), id) == WithoutTicket(rows, id)
  {
    FilterIdempotent(rows, (x: Row) => x.id != id);
  }
}
