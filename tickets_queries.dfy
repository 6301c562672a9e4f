/**
 * The read-only handlers of the tickets controller: the ticket list each role
 * may see, one ticket with its comments, the dashboard counters, the status
 * chart, and the admin report's counts.
 */
module TicketQueries {
  import opened Common
  import opened Models

  // ---------------------------------------------------------------------------
  // GET /tickets: the list, with creator and assignee reduced to id and name
  // ---------------------------------------------------------------------------

  datatype Person = Person(id: int, name: string)

  datatype TicketView = TicketView(
    id: int,
    title: string,
    description: string,
    status: Option<string>,
    priority: Option<string>,
    assignedTo: Option<int>,
    assignee: Option<Person>,
    creator: Option<Person>,
    createdAt: string,
    updatedAt: string)

  /** The joined user reduced to `{ id, name }`, or null when the key matches no user. */
  function PersonOf(users: map<int, User>, key: Option<int>): (p: Option<Person>)
    ensures p.Some? <==> key.Some? && key.value in users
    ensures p.Some? ==> p.value.id == key.value && p.value.name == users[key.value].name
  {
    if key.Some? && key.value in users then Some(Person(key.value, users[key.value].name)) else None
  }

  function ViewOf(id: int, t: Ticket, users: map<int, User>): TicketView
  {
    TicketView(id, t.title, t.description, t.status, t.priority, t.assignedTo,
               PersonOf(users, t.assignedTo), PersonOf(users, Some(t.userId)),
               t.createdAt, t.updatedAt)
  }

  /** End users (role 1) see their own tickets; every other role sees all of them. */
  predicate VisibleTo(t: Ticket, caller: AuthUser)
  {
    caller.roleId != RoleUser || t.userId == caller.userId
  }

  /** The tickets GET /tickets answers with, by id. */
  function AllTickets(tickets: map<int, Ticket>, users: map<int, User>, caller: AuthUser): (r: map<int, TicketView>)
    ensures forall id :: id in r <==> id in tickets && (caller.roleId == RoleUser ==> tickets[id].userId == caller.userId)
    ensures caller.roleId != RoleUser ==> r.Keys == tickets.Keys
    ensures forall id :: id in r ==> r[id].id == id && r[id].title == tickets[id].title && r[id].status == tickets[id].status
    ensures forall id :: id in r ==> (r[id].creator.Some? <==> tickets[id].userId in users)
  {
    map id | id in tickets && VisibleTo(tickets[id], caller) :: ViewOf(id, tickets[id], users)
  }

  // ---------------------------------------------------------------------------
  // GET /tickets/:id: one ticket with its comments
  // ---------------------------------------------------------------------------

  datatype CommentView = CommentView(id: int, author: string, text: string, createdAt: string)

  /**
   * One ticket as GET /tickets/:id answers. The creator is the joined user row
   * as it is, with every column of the `users` table.
   */
  datatype TicketDetail = TicketDetail(
    id: int,
    title: string,
    description: string,
    priority: Option<string>,
    status: Option<string>,
    assignedTo: Option<int>,
    createdAt: string,
    updatedAt: string,
    creator: Option<User>,
    comments: seq<CommentView>)

  /** The comment's author is the writer's name, or "Unknown" when no user matches. */
  function AuthorName(users: map<int, User>, userId: int): (name: string)
    ensures userId in users ==> name == users[userId].name
    ensures userId !in users ==> name == "Unknown"
  {
    if userId in users then users[userId].name else "Unknown"
  }

  function CommentViewOf(c: Comment, users: map<int, User>): CommentView
  {
    CommentView(c.id, AuthorName(users, c.userId), c.content, c.createdAt)
  }

  function CommentViews(cs: seq<Comment>, users: map<int, User>): (r: seq<CommentView>)
    ensures |r| == |cs|
    ensures forall i :: 0 <= i < |cs| ==> r[i] == CommentViewOf(cs[i], users)
  {
    if cs == [] then [] else [CommentViewOf(cs[0], users)] + CommentViews(cs[1..], users)
  }

  lemma {:induction false} CommentViewsAppend(a: seq<Comment>, b: seq<Comment>, users: map<int, User>)
    ensures CommentViews(a + b, users) == CommentViews(a, users) + CommentViews(b, users)
  {
    assert |CommentViews(a + b, users)| == |CommentViews(a, users) + CommentViews(b, users)|;
    forall i | 0 <= i < |a| + |b|
      ensures CommentViews(a + b, users)[i] == (CommentViews(a, users) + CommentViews(b, users))[i]
    {
      if i >= |a| {
        assert (a + b)[i] == b[i - |a|];
      }
    }
  }

  /** The comments that belong to one ticket, in the order they were written. */
  function CommentsOf(comments: seq<Comment>, ticketId: int): (r: seq<Comment>)
    ensures forall c :: c in r <==> c in comments && c.ticketId == ticketId
  {
    Filter(comments, (c: Comment) => c.ticketId == ticketId)
  }

  /**
   * GET /tickets/:id; None is the 404 answer. Any authenticated caller may
   * read any ticket: the handler takes no caller at all.
   */
  function TicketById(tickets: map<int, Ticket>, users: map<int, User>, comments: seq<Comment>, id: int)
    : (r: Option<TicketDetail>)
    ensures r.None? <==> id !in tickets
    ensures r.Some? ==> r.value.id == id && r.value.title == tickets[id].title && r.value.status == tickets[id].status
    ensures r.Some? ==> (r.value.creator.Some? <==> tickets[id].userId in users)
    ensures r.Some? ==> |r.value.comments| == |CommentsOf(comments, id)|
    ensures r.Some? ==> forall i :: 0 <= i < |r.value.comments| ==>
              r.value.comments[i] == CommentViewOf(CommentsOf(comments, id)[i], users)
  {
    if id !in tickets then None
    else
      var t := tickets[id];
      Some(TicketDetail(id, t.title, t.description, t.priority, t.status, t.assignedTo,
                        t.createdAt, t.updatedAt,
                        if t.userId in users then Some(users[t.userId]) else None,
                        CommentViews(CommentsOf(comments, id), users)))
  }

  /** The creator the detail carries is the full user row, password hash included. */
  lemma DetailExposesCreatorHash(tickets: map<int, Ticket>, users: map<int, User>, comments: seq<Comment>, id: int)
    requires id in tickets && tickets[id].userId in users
    ensures TicketById(tickets, users, comments, id).value.creator.value.passwordHash
            == users[tickets[id].userId].passwordHash
  {
  }

  /**
   * A comment appended to the table shows up last in its ticket's detail and
   * leaves every other ticket's comment list as it was.
   */
  lemma NewCommentShowsLast(tickets: map<int, Ticket>, users: map<int, User>, comments: seq<Comment>, c: Comment, id: int)
    requires id in tickets
    ensures id == c.ticketId ==>
      TicketById(tickets, users, comments + [c], id).value.comments
      == TicketById(tickets, users, comments, id).value.comments + [CommentViewOf(c, users)]
    ensures id != c.ticketId ==>
      TicketById(tickets, users, comments + [c], id) == TicketById(tickets, users, comments, id)
    ensures id == c.ticketId ==>
      && CommentViewOf(c, users) in TicketById(tickets, users, comments + [c], id).value.comments
      && forall w :: w in TicketById(tickets, users, comments, id).value.comments ==>
           w in TicketById(tickets, users, comments + [c], id).value.comments
  {
    CommentsOfAppend(comments, c, id);
    CommentViewsAppend(CommentsOf(comments, id), CommentsOf([c], id), users);
    if id != c.ticketId {
      assert CommentsOf(comments + [c], id) == CommentsOf(comments, id);
    }
  }

  lemma CommentsOfAppend(comments: seq<Comment>, c: Comment, id: int)
    ensures CommentsOf(comments + [c], id) == CommentsOf(comments, id) + CommentsOf([c], id)
    ensures CommentsOf([c], id) == if c.ticketId == id then [c] else []
  {
    FilterAppend(comments, [c], (c: Comment) => c.ticketId == id);
    assert [c][1..] == [];
  }

  // ---------------------------------------------------------------------------
  // GET /tickets/stats, GET /tickets/my and GET /tickets/status-stats
  // ---------------------------------------------------------------------------

  /** The status spellings each counter accepts. */
  const OpenLabels: seq<string> := ["Open", "open", "Pending"]
  const InProgressLabels: seq<string> := ["In Progress", "in progress"]
  const ResolvedLabels: seq<string> := ["Resolved", "resolved"]
  const ClosedLabels: seq<string> := ["Closed", "closed"]

  datatype Stats = Stats(total: nat, open: nat, inProgress: nat, resolved: nat, closed: nat)

  predicate HasStatusIn(t: Ticket, labels: seq<string>)
  {
    t.status.Some? && t.status.value in labels
  }

  /** The ids of the tickets counted by one `count` query: an optional owner and an optional status list. */
  function Matching(tickets: map<int, Ticket>, owner: Option<int>, labels: Option<seq<string>>): set<int>
  {
    set id | id in tickets
             && (owner.None? || tickets[id].userId == owner.value)
             && (labels.None? || HasStatusIn(tickets[id], labels.value))
  }

  /** No spelling belongs to two counters. */
  lemma LabelGroupsDisjoint(s: string)
    ensures s in OpenLabels ==> s !in InProgressLabels && s !in ResolvedLabels && s !in ClosedLabels
    ensures s in InProgressLabels ==> s !in ResolvedLabels && s !in ClosedLabels
    ensures s in ResolvedLabels ==> s !in ClosedLabels
  {
  }

  /** The four status counters are disjoint parts of the owner's tickets. */
  lemma {:induction false} CountersBounded(tickets: map<int, Ticket>, owner: Option<int>)
    ensures |Matching(tickets, owner, Some(OpenLabels))| + |Matching(tickets, owner, Some(InProgressLabels))|
            + |Matching(tickets, owner, Some(ResolvedLabels))| + |Matching(tickets, owner, Some(ClosedLabels))|
            <= |Matching(tickets, owner, None)|
  {
    var o := Matching(tickets, owner, Some(OpenLabels));
    var p := Matching(tickets, owner, Some(InProgressLabels));
    var r := Matching(tickets, owner, Some(ResolvedLabels));
    var c := Matching(tickets, owner, Some(ClosedLabels));
    forall id | id in o + p + r + c
      ensures (id in o ==> id !in p && id !in r && id !in c) && (id in p ==> id !in r && id !in c)
              && (id in r ==> id !in c)
    {
      LabelGroupsDisjoint(tickets[id].status.value);
    }
    FourDisjointSetsBounded(o, p, r, c, Matching(tickets, owner, None));
  }

  function StatsOf(tickets: map<int, Ticket>, owner: Option<int>): (s: Stats)
    ensures s.open + s.inProgress + s.resolved + s.closed <= s.total
  {
    CountersBounded(tickets, owner);
    Stats(|Matching(tickets, owner, None)|,
          |Matching(tickets, owner, Some(OpenLabels))|,
          |Matching(tickets, owner, Some(InProgressLabels))|,
          |Matching(tickets, owner, Some(ResolvedLabels))|,
          |Matching(tickets, owner, Some(ClosedLabels))|)
  }

  /** GET /tickets/stats: counters over the whole table, whoever asks. */
  function GetStats(tickets: map<int, Ticket>): (s: Stats)
    ensures s.total == |tickets|
    ensures s.open + s.inProgress + s.resolved + s.closed <= s.total
  {
    assert Matching(tickets, None, None) == tickets.Keys;
    StatsOf(tickets, None)
  }

  /** GET /tickets/my: the same counters over the caller's own tickets. */
  function GetMyTickets(tickets: map<int, Ticket>, userId: int): (s: Stats)
    ensures s.total == |set id | id in tickets && tickets[id].userId == userId|
    ensures s.open + s.inProgress + s.resolved + s.closed <= s.total
  {
    assert Matching(tickets, Some(userId), None) == set id | id in tickets && tickets[id].userId == userId;
    StatsOf(tickets, Some(userId))
  }

  /** The caller's counters are the global counters of the caller's part of the table. */
  lemma MyTicketsAreStatsOfOwnTickets(tickets: map<int, Ticket>, userId: int)
    ensures GetMyTickets(tickets, userId)
            == GetStats(map id | id in tickets && tickets[id].userId == userId :: tickets[id])
  {
    var own := map id | id in tickets && tickets[id].userId == userId :: tickets[id];
    forall labels: Option<seq<string>>
      ensures Matching(tickets, Some(userId), labels) == Matching(own, None, labels)
    {
    }
  }

  /** An end user's total is the length of the list GET /tickets gives them. */
  lemma MyTotalMatchesVisibleList(tickets: map<int, Ticket>, users: map<int, User>, caller: AuthUser)
    requires caller.roleId == RoleUser
    ensures GetMyTickets(tickets, caller.userId).total == |AllTickets(tickets, users, caller)|
  {
    var r := AllTickets(tickets, users, caller);
    assert r.Keys == set id | id in tickets && tickets[id].userId == caller.userId;
  }

  /** GET /tickets/status-stats: the four counters as chart data. */
  function StatusChartData(tickets: map<int, Ticket>): (data: seq<nat>)
    ensures |data| == 4 && Sum(data) <= |tickets|
  {
    var s := GetStats(tickets);
    var data := [s.open, s.inProgress, s.resolved, s.closed];
    SumOfFour(s.open, s.inProgress, s.resolved, s.closed);
    data
  }

  // ---------------------------------------------------------------------------
  // GET /tickets/report: counts over the tickets created in the period
  // ---------------------------------------------------------------------------

  /** hasOwnProperty on the counter object: the position of the value among its keys. */
  function EnumBucket(v: Option<string>, values: seq<string>): (b: Option<nat>)
    ensures b.Some? <==> v.Some? && v.value in values
    ensures b.Some? ==> b.value < |values| && values[b.value] == v.value
  {
    match v
    case None => None
    case Some(s) => IndexIn(values, s)
  }

  /** The `statusCounts` key a ticket adds to, if its status is one of them. */
  function StatusBucket(t: Ticket): (b: Option<nat>)
    ensures b.Some? <==> t.status.Some? && t.status.value in Statuses
    ensures b.Some? ==> b.value < |Statuses| && Statuses[b.value] == t.status.value
  {
    EnumBucket(t.status, Statuses)
  }

  /** The `priorityCounts` key a ticket adds to, if its priority is one of them. */
  function PriorityBucket(t: Ticket): (b: Option<nat>)
    ensures b.Some? <==> t.priority.Some? && t.priority.value in Priorities
    ensures b.Some? ==> b.value < |Priorities| && Priorities[b.value] == t.priority.value
  {
    EnumBucket(t.priority, Priorities)
  }

  /** Date.getDay numbering (0 is Sunday) turned into Monday-first numbering. */
  function WeekdayIndex(day: int): (i: int)
    ensures 0 <= day < 7 ==> 0 <= i < 7
    ensures 0 <= day < 7 ==> (day == 0 <==> i == 6)
    ensures 1 <= day < 7 ==> i == day - 1
  {
    if day == 0 then 6 else day - 1
  }

  /** The Monday-first weekday is a bijection on the seven days. */
  lemma WeekdayIndexInjective(a: int, b: int)
    requires 0 <= a < 7 && 0 <= b < 7 && WeekdayIndex(a) == WeekdayIndex(b)
    ensures a == b
  {
  }

  /**
   * The weekday counter a ticket adds to; `dayOf` is getDay of the creation
   * date, None for an invalid date (NaN fails the index guard).
   */
  function DayBucket(dayOf: string -> Option<int>): Ticket -> Option<nat>
  {
    (t: Ticket) => match dayOf(t.createdAt)
         case None => None
         case Some(d) => if 0 <= WeekdayIndex(d) < 7 then Some(WeekdayIndex(d) as nat) else None
  }

  /** One forEach over the tickets incrementing the counter the ticket falls into. */
  method CountByBucket(tickets: seq<Ticket>, bucket: Ticket -> Option<nat>, n: nat) returns (counts: seq<nat>)
    ensures |counts| == n
    ensures forall k :: 0 <= k < n ==> counts[k] == BucketCount(tickets, bucket, k)
    ensures Sum(counts) <= |tickets|
  {
    counts := seq(n, _ => 0);
    var i := 0;
    while i < |tickets|
      invariant 0 <= i <= |tickets|
      invariant |counts| == n
      invariant forall k :: 0 <= k < n ==> counts[k] == BucketCount(tickets[..i], bucket, k)
    {
      assert tickets[..i + 1] == tickets[..i] + [tickets[i]];
      forall k | 0 <= k < n
        ensures BucketCount(tickets[..i + 1], bucket, k)
                == BucketCount(tickets[..i], bucket, k) + (if bucket(tickets[i]) == Some(k) then 1 else 0)
      {
        BucketCountSnoc(tickets[..i], tickets[i], bucket, k);
      }
      var b := bucket(tickets[i]);
      if b.Some? && b.value < n {
        counts := counts[b.value := counts[b.value] + 1];
      }
      i := i + 1;
    }
    assert tickets[..|tickets|] == tickets;
    SumOfBucketCounts(tickets, bucket, counts);
    BucketTotalBounded(tickets, bucket, n);
  }

  datatype Report = Report(
    totalTickets: nat,
    openTickets: nat,
    resolvedTickets: nat,
    closedTickets: nat,
    statusCounts: seq<nat>,
    priorityCounts: seq<nat>,
    weekdayCounts: Option<seq<nat>>,
    assignedTickets: nat)

  const LastSevenDays: string := "Last 7 days"

  /**
   * The counts of GET /tickets/report over the tickets the period query
   * returned. The weekday series is the one for periods other than the last
   * seven days; that period's per-date series is not modelled (None).
   */
  method GetReport(tickets: seq<Ticket>, period: string, dayOf: string -> Option<int>) returns (r: Report)
    ensures r.totalTickets == |tickets|
    ensures |r.statusCounts| == |Statuses| && Sum(r.statusCounts) <= r.totalTickets
    ensures forall k :: 0 <= k < |Statuses| ==>
              r.statusCounts[k] == |Filter(tickets, (t: Ticket) => t.status == Some(Statuses[k]))|
    ensures |r.priorityCounts| == |Priorities| && Sum(r.priorityCounts) <= r.totalTickets
    ensures forall k :: 0 <= k < |Priorities| ==>
              r.priorityCounts[k] == |Filter(tickets, (t: Ticket) => t.priority == Some(Priorities[k]))|
    ensures r.openTickets == r.statusCounts[0] && r.resolvedTickets == r.statusCounts[2]
            && r.closedTickets == r.statusCounts[3]
    ensures r.assignedTickets == |Filter(tickets, (t: Ticket) => t.assignedTo.Some?)|
    ensures r.weekdayCounts.None? <==> period == LastSevenDays
    ensures r.weekdayCounts.Some? ==> |r.weekdayCounts.value| == 7 && Sum(r.weekdayCounts.value) <= r.totalTickets
    ensures r.weekdayCounts.Some? ==> forall k :: 0 <= k < 7 ==>
              r.weekdayCounts.value[k] == BucketCount(tickets, DayBucket(dayOf), k)
  {
    var statusCounts := CountByBucket(tickets, StatusBucket, |Statuses|);
    var priorityCounts := CountByBucket(tickets, PriorityBucket, |Priorities|);
    forall k | 0 <= k < |Statuses|
      ensures statusCounts[k] == |Filter(tickets, (t: Ticket) => t.status == Some(Statuses[k]))|
    {
      StatusCountIsValueCount(tickets, k);
    }
    forall k | 0 <= k < |Priorities|
      ensures priorityCounts[k] == |Filter(tickets, (t: Ticket) => t.priority == Some(Priorities[k]))|
    {
      PriorityCountIsValueCount(tickets, k);
    }
    var assignedCount := |Filter(tickets, (t: Ticket) => t.assignedTo.Some?)|;
    var weekdays: Option<seq<nat>> := None;
    if period != LastSevenDays {
      var dayCounts := CountByBucket(tickets, DayBucket(dayOf), 7);
      weekdays := Some(dayCounts);
    }
    r := Report(|tickets|, statusCounts[0], statusCounts[2], statusCounts[3],
                statusCounts, priorityCounts, weekdays, assignedCount);
  }

  /** An enum's values are pairwise distinct. */
  predicate Distinct(values: seq<string>)
  {
    forall i, j :: 0 <= i < j < |values| ==> values[i] != values[j]
  }

  /** With distinct values, a value falls into bucket k exactly when it is value k. */
  lemma EnumBucketExact(v: Option<string>, values: seq<string>, k: nat)
    requires k < |values| && Distinct(values)
    ensures (EnumBucket(v, values) == Some(k)) == (v == Some(values[k]))
  {
    var b := EnumBucket(v, values);
    if v == Some(values[k]) {
      assert b.Some? && values[b.value] == values[k];
    }
  }

  /** The report's status counter k counts the rows whose status is the k-th enum value. */
  lemma StatusCountIsValueCount(tickets: seq<Ticket>, k: nat)
    requires k < |Statuses|
    ensures BucketCount(tickets, StatusBucket, k) == |Filter(tickets, (t: Ticket) => t.status == Some(Statuses[k]))|
  {
    assert Distinct(Statuses);
    forall i | 0 <= i < |tickets|
      ensures (StatusBucket(tickets[i]) == Some(k)) == (tickets[i].status == Some(Statuses[k]))
    {
      EnumBucketExact(tickets[i].status, Statuses, k);
    }
    BucketCountCongruent(tickets, StatusBucket, k, (t: Ticket) => t.status == Some(Statuses[k]));
  }

  /** The report's priority counter k counts the rows whose priority is the k-th enum value. */
  lemma PriorityCountIsValueCount(tickets: seq<Ticket>, k: nat)
    requires k < |Priorities|
    ensures BucketCount(tickets, PriorityBucket, k) == |Filter(tickets, (t: Ticket) => t.priority == Some(Priorities[k]))|
  {
    assert Distinct(Priorities);
    forall i | 0 <= i < |tickets|
      ensures (PriorityBucket(tickets[i]) == Some(k)) == (tickets[i].priority == Some(Priorities[k]))
    {
      EnumBucketExact(tickets[i].priority, Priorities, k);
    }
    BucketCountCongruent(tickets, PriorityBucket, k, (t: Ticket) => t.priority == Some(Priorities[k]));
  }
}
