/**
 * The notification routes: the caller's unread notifications, newest first,
 * and marking one of them read.
 */
module NotificationsRoutes {
  import opened Common
  import opened Models

  function Reverse<T>(s: seq<T>): (r: seq<T>)
    ensures |r| == |s|
    ensures forall i :: 0 <= i < |s| ==> r[i] == s[|s| - 1 - i]
  {
    if s == [] then [] else Reverse(s[1..]) + [s[0]]
  }

  /** Filtering a reversed list is reversing the filtered list. */
  lemma {:induction false} FilterOfReverse<T(!new)>(s: seq<T>, p: T -> bool)
    ensures Filter(Reverse(s), p) == Reverse(Filter(s, p))
  {
    if s != [] {
      FilterOfReverse(s[1..], p);
      FilterAppend(Reverse(s[1..]), [s[0]], p);
      FilterAppend([s[0]], s[1..], p);
      assert s == [s[0]] + s[1..];
    }
  }

  predicate UnreadFor(n: Notification, userId: int)
  {
    n.userId == userId && !n.isRead
  }

  /**
   * GET /notifications/my. The table is kept in creation order, so newest
   * first is the filtered list reversed.
   */
  function MyUnread(ns: seq<Notification>, userId: int): (r: seq<Notification>)
    ensures forall n :: n in r <==> n in ns && UnreadFor(n, userId)
    ensures |r| <= |ns|
  {
    var mine := Filter(ns, (n: Notification) => UnreadFor(n, userId));
    var r := Reverse(mine);
    assert forall n :: n in r <==> n in mine by {
      forall n ensures n in r <==> n in mine {
        if n in mine {
          var i :| 0 <= i < |mine| && mine[i] == n;
          assert r[|mine| - 1 - i] == n;
        }
      }
    }
    r
  }

  /** With ids issued in creation order, the list answered is newest first. */
  lemma {:induction false} MyUnreadNewestFirst(ns: seq<Notification>, next: int, userId: int)
    requires NotificationIdsIssued(ns, next)
    ensures forall i, j :: 0 <= i < j < |MyUnread(ns, userId)| ==>
              MyUnread(ns, userId)[i].id > MyUnread(ns, userId)[j].id
  {
    var mine := Filter(ns, (n: Notification) => UnreadFor(n, userId));
    FilterIsSubsequence(ns, (n: Notification) => UnreadFor(n, userId));
    SubsequenceKeepsIncreasing(mine, ns);
  }

  predicate IdsIncreasing(ns: seq<Notification>)
  {
    forall i, j :: 0 <= i < j < |ns| ==> ns[i].id < ns[j].id
  }

  lemma {:induction false} SubsequenceKeepsIncreasing(r: seq<Notification>, s: seq<Notification>)
    requires IsSubsequence(r, s) && IdsIncreasing(s)
    ensures IdsIncreasing(r)
    decreases |s|
  {
    if r != [] && s != [] {
      assert IdsIncreasing(s[1..]);
      if r[0] == s[0] {
        SubsequenceKeepsIncreasing(r[1..], s[1..]);
        SubsequenceElementsFrom(r[1..], s[1..]);
        forall j | 0 < j < |r| ensures r[0].id < r[j].id {
          assert r[j] == r[1..][j - 1];
          assert r[j] in s[1..];
          var k :| 0 <= k < |s[1..]| && s[1..][k] == r[j];
          assert s[k + 1] == r[j];
        }
      } else {
        SubsequenceKeepsIncreasing(r, s[1..]);
      }
    }
  }

  /** Every element of a subsequence occurs in the list. */
  lemma {:induction false} SubsequenceElementsFrom<T>(r: seq<T>, s: seq<T>)
    requires IsSubsequence(r, s)
    ensures forall x :: x in r ==> x in s
    decreases |s|
  {
    if r != [] && s != [] {
      if r[0] == s[0] {
        SubsequenceElementsFrom(r[1..], s[1..]);
        assert r == [r[0]] + r[1..];
      } else {
        SubsequenceElementsFrom(r, s[1..]);
      }
    }
  }

  /**
   * The table after PUT /notifications/:id/read: the notification with that
   * id is marked read if it belongs to the caller; nothing else changes.
   */
  function MarkedRead(ns: seq<Notification>, id: int, userId: int): (r: seq<Notification>)
    ensures |r| == |ns|
    ensures forall i :: 0 <= i < |ns| ==>
              r[i] == if ns[i].id == id && ns[i].userId == userId then ns[i].(isRead := true) else ns[i]
  {
    seq(|ns|, i requires 0 <= i < |ns| =>
      if ns[i].id == id && ns[i].userId == userId then ns[i].(isRead := true) else ns[i])
  }

  /** Marking again is harmless. */
  lemma MarkedReadIdempotent(ns: seq<Notification>, id: int, userId: int)
    ensures MarkedRead(MarkedRead(ns, id, userId), id, userId) == MarkedRead(ns, id, userId)
  {
  }

  /** Another user's notifications are never touched. */
  lemma MarkedReadSparesOthers(ns: seq<Notification>, id: int, userId: int, other: int)
    requires other != userId
    ensures Filter(MarkedRead(ns, id, userId), (n: Notification) => n.userId == other)
            == Filter(ns, (n: Notification) => n.userId == other)
  {
    MarkedReadSparesOthersRec(ns, id, userId, other);
  }

  lemma {:induction false} MarkedReadSparesOthersRec(ns: seq<Notification>, id: int, userId: int, other: int)
    requires other != userId
    ensures Filter(MarkedRead(ns, id, userId), (n: Notification) => n.userId == other)
            == Filter(ns, (n: Notification) => n.userId == other)
  {
    if ns != [] {
      assert MarkedRead(ns, id, userId)[1..] == MarkedRead(ns[1..], id, userId);
      MarkedReadSparesOthersRec(ns[1..], id, userId, other);
    }
  }

  /** After marking, the notification is no longer among the caller's unread ones. */
  lemma MarkedReadLeavesUnread(ns: seq<Notification>, id: int, userId: int)
    ensures forall n :: n in MyUnread(MarkedRead(ns, id, userId), userId) ==> n.id != id
    ensures forall n :: n in MyUnread(ns, userId) && n.id != id ==> n in MyUnread(MarkedRead(ns, id, userId), userId)
  {
    var r := MarkedRead(ns, id, userId);
    forall n | n in MyUnread(ns, userId) && n.id != id
      ensures n in r
    {
      var i :| 0 <= i < |ns| && ns[i] == n;
      assert r[i] == n;
    }
  }

  /**
   * PUT /notifications/:id/read: finds the notification by id and marks it
   * read when it is the caller's. The answer is 200 in every case.
   */
  method MarkRead(db: Db, caller: AuthUser, id: int) returns (code: int)
    requires db.Valid()
    modifies db
    ensures db.Valid()
    ensures code == Ok
    ensures db.notifications == MarkedRead(old(db.notifications), id, caller.userId)
    ensures db.tickets == old(db.tickets) && db.users == old(db.users) && db.comments == old(db.comments)
    ensures db.nextNotificationId == old(db.nextNotificationId)
    ensures db.nextTicketId == old(db.nextTicketId) && db.nextUserId == old(db.nextUserId)
            && db.nextCommentId == old(db.nextCommentId)
  {
    var ns := db.notifications;
    var i := 0;
    while i < |ns| && ns[i].id != id
      invariant 0 <= i <= |ns|
      invariant forall j :: 0 <= j < i ==> ns[j].id != id
    {
      i := i + 1;
    }
    if i < |ns| && ns[i].userId == caller.userId {
      db.notifications := ns[i := ns[i].(isRead := true)];
    }
    code := Ok;
  }
}
