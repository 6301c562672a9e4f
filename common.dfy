/**
 * Shared vocabulary for the ticketing model: an Option type for JavaScript's
 * null/undefined, the list operations the pages and controllers are built from
 * (filter, length of a filter, stable sort by a numeric key), and the few
 * string operations they use (`toLowerCase`, `includes`, `replace`,
 * `parseInt`, number-to-string in a template literal).
 */
module Common {

  datatype Option<T> = None | Some(value: T)

  // ---------------------------------------------------------------------------
  // Array.prototype.filter and order-preserving subsequences
  // ---------------------------------------------------------------------------

  /** The elements of `s` that satisfy `p`, in their original order. */
  function Filter<T(==,!new)>(s: seq<T>, p: T -> bool): (r: seq<T>)
    ensures |r| <= |s|
    ensures forall x :: x in r <==> x in s && p(x)
    ensures forall i :: 0 <= i < |r| ==> p(r[i])
  {
    if s == [] then []
    else if p(s[0]) then [s[0]] + Filter(s[1..], p)
    else Filter(s[1..], p)
  }

  /** `r` can be obtained from `s` by deleting elements (order kept). */
  predicate IsSubsequence<T(==)>(r: seq<T>, s: seq<T>)
    decreases |s|
  {
    if r == [] then true
    else if s == [] then false
    else if r[0] == s[0] then IsSubsequence(r[1..], s[1..])
    else IsSubsequence(r, s[1..])
  }

  lemma {:induction false} FilterIsSubsequence<T(!new)>(s: seq<T>, p: T -> bool)
    ensures IsSubsequence(Filter(s, p), s)
  {
    if s != [] {
      FilterIsSubsequence(s[1..], p);
      if !p(s[0]) {
        SubsequenceOfTail(Filter(s[1..], p), s);
      }
    }
  }

  /** Dropping the head of `s` keeps every subsequence of the tail a subsequence of `s`. */
  lemma {:induction false} SubsequenceOfTail<T>(r: seq<T>, s: seq<T>)
    requires s != []
    requires IsSubsequence(r, s[1..])
    ensures IsSubsequence(r, s)
    decreases |s|, 0
  {
    if r != [] && r[0] == s[0] {
      // r[1..] is a subsequence of s[1..] because r is one of s[1..]
      SubsequenceDropHead(r, s[1..]);
    }
  }

  lemma {:induction false} SubsequenceDropHead<T>(r: seq<T>, s: seq<T>)
    requires r != []
    requires IsSubsequence(r, s)
    ensures IsSubsequence(r[1..], s)
    decreases |s|, 1
  {
    if s == [] {
    } else if r[0] == s[0] {
      if r[1..] != [] {
        SubsequenceOfTail(r[1..], s);
      }
    } else {
      SubsequenceDropHead(r, s[1..]);
      if r[1..] != [] {
        SubsequenceOfTail(r[1..], s);
      }
    }
  }

  lemma {:induction false} FilterAppend<T(!new)>(a: seq<T>, b: seq<T>, p: T -> bool)
    ensures Filter(a + b, p) == Filter(a, p) + Filter(b, p)
  {
    if a == [] {
      assert a + b == b;
    } else {
      assert (a + b)[1..] == a[1..] + b;
      FilterAppend(a[1..], b, p);
    }
  }

  /** Filtering with two predicates that agree on `s` gives the same list. */
  lemma {:induction false} FilterCongruent<T(!new)>(s: seq<T>, p: T -> bool, q: T -> bool)
    requires forall i :: 0 <= i < |s| ==> p(s[i]) == q(s[i])
    ensures Filter(s, p) == Filter(s, q)
  {
    if s != [] {
      FilterCongruent(s[1..], p, q);
    }
  }

  /** Filtering keeps exactly the positions that satisfy `p`; the others go. */
  lemma {:induction false} FilterAllOrNone<T(!new)>(s: seq<T>, p: T -> bool)
    ensures (forall i :: 0 <= i < |s| ==> p(s[i])) ==> Filter(s, p) == s
    ensures (forall i :: 0 <= i < |s| ==> !p(s[i])) ==> Filter(s, p) == []
  {
    if s != [] {
      FilterAllOrNone(s[1..], p);
    }
  }

  /** Filtering twice with the same predicate changes nothing more. */
  lemma {:induction false} FilterIdempotent<T(!new)>(s: seq<T>, p: T -> bool)
    ensures Filter(Filter(s, p), p) == Filter(s, p)
  {
    FilterAllOrNone(Filter(s, p), p);
  }

  /** Four tests that no element passes twice keep, together, at most the whole list. */
  lemma {:induction false} FourDisjointCountsBounded<T(!new)>(s: seq<T>, a: T -> bool, b: T -> bool, c: T -> bool, d: T -> bool)
    requires forall i :: 0 <= i < |s| ==>
               (if a(s[i]) then 1 else 0) + (if b(s[i]) then 1 else 0)
               + (if c(s[i]) then 1 else 0) + (if d(s[i]) then 1 else 0) <= 1
    ensures |Filter(s, a)| + |Filter(s, b)| + |Filter(s, c)| + |Filter(s, d)| <= |s|
  {
    if s != [] {
      assert forall i :: 1 <= i < |s| ==> s[1..][i - 1] == s[i];
      FourDisjointCountsBounded(s[1..], a, b, c, d);
    }
  }

  /** A stronger test keeps no more than a weaker one. */
  lemma {:induction false} FilterStrongerCount<T(!new)>(s: seq<T>, p: T -> bool, q: T -> bool)
    requires forall i :: 0 <= i < |s| ==> p(s[i]) ==> q(s[i])
    ensures |Filter(s, p)| <= |Filter(s, q)|
  {
    if s != [] {
      assert forall i :: 1 <= i < |s| ==> s[1..][i - 1] == s[i];
      FilterStrongerCount(s[1..], p, q);
    }
  }

  /** A test and its negation split the list. */
  lemma {:induction false} FilterComplement<T(!new)>(s: seq<T>, p: T -> bool, q: T -> bool)
    requires forall i :: 0 <= i < |s| ==> q(s[i]) == !p(s[i])
    ensures |Filter(s, p)| + |Filter(s, q)| == |s|
  {
    if s != [] {
      assert forall i :: 1 <= i < |s| ==> s[1..][i - 1] == s[i];
      FilterComplement(s[1..], p, q);
    }
  }

  /** What a test keeps splits into what survives a removal and what the removal took. */
  lemma {:induction false} CountAcrossRemoval<T(!new)>(s: seq<T>, keep: T -> bool, p: T -> bool, gone: T -> bool)
    requires forall i :: 0 <= i < |s| ==> gone(s[i]) == (!keep(s[i]) && p(s[i]))
    ensures |Filter(s, p)| == |Filter(Filter(s, keep), p)| + |Filter(s, gone)|
  {
    if s != [] {
      assert forall i :: 1 <= i < |s| ==> s[1..][i - 1] == s[i];
      CountAcrossRemoval(s[1..], keep, p, gone);
    }
  }

  /** Four pairwise disjoint parts of a set hold, together, at most the set. */
  lemma FourDisjointSetsBounded<T>(a: set<T>, b: set<T>, c: set<T>, d: set<T>, all: set<T>)
    requires a !! b && a !! c && a !! d && b !! c && b !! d && c !! d
    requires a <= all && b <= all && c <= all && d <= all
    ensures |a| + |b| + |c| + |d| <= |all|
  {
    var parts := a + b + c + d;
    assert |a + b| == |a| + |b|;
    assert |a + b + c| == |a| + |b| + |c|;
    assert |parts| == |a| + |b| + |c| + |d|;
    assert all == parts + (all - parts);
  }

  // ---------------------------------------------------------------------------
  // Counting into numbered buckets: element x goes to bucket `bucket(x)`, if any
  // ---------------------------------------------------------------------------

  /** How many elements of `s` fall into bucket `k`. */
  function BucketCount<T(==,!new)>(s: seq<T>, bucket: T -> Option<nat>, k: nat): nat
  {
    |Filter(s, InBucket(bucket, k))|
  }

  /** The test "falls into bucket k". */
  function InBucket<T>(bucket: T -> Option<nat>, k: nat): T -> bool
  {
    x => bucket(x) == Some(k)
  }

  /** Appending one element adds one to its own bucket and nothing to the others. */
  lemma BucketCountSnoc<T(!new)>(s: seq<T>, x: T, bucket: T -> Option<nat>, k: nat)
    ensures BucketCount(s + [x], bucket, k) == BucketCount(s, bucket, k) + (if bucket(x) == Some(k) then 1 else 0)
  {
    FilterAppend(s, [x], InBucket(bucket, k));
  }

  /** A bucket that agrees on `s` with a test counts what the test keeps. */
  lemma BucketCountCongruent<T(!new)>(s: seq<T>, bucket: T -> Option<nat>, k: nat, p: T -> bool)
    requires forall i :: 0 <= i < |s| ==> (bucket(s[i]) == Some(k)) == p(s[i])
    ensures BucketCount(s, bucket, k) == |Filter(s, p)|
  {
    FilterCongruent(s, InBucket(bucket, k), p);
  }

  /** The sum of a list of counts. */
  function Sum(s: seq<nat>): nat
  {
    if s == [] then 0 else Sum(s[..|s| - 1]) + s[|s| - 1]
  }

  lemma SumOfFour(a: nat, b: nat, c: nat, d: nat)
    ensures Sum([a, b, c, d]) == a + b + c + d
  {
    assert [a][..0] == [];
    assert Sum([a]) == a;
    assert [a, b][..1] == [a];
    assert Sum([a, b]) == a + b;
    assert [a, b, c][..2] == [a, b];
    assert Sum([a, b, c]) == a + b + c;
    assert [a, b, c, d][..3] == [a, b, c];
  }

  /** A list holding the counts of buckets 0 .. n-1 sums to their total. */
  lemma {:induction false} SumOfBucketCounts<T(!new)>(s: seq<T>, bucket: T -> Option<nat>, counts: seq<nat>)
    requires forall k :: 0 <= k < |counts| ==> counts[k] == BucketCount(s, bucket, k)
    ensures Sum(counts) == BucketTotal(s, bucket, |counts|)
  {
    if counts != [] {
      SumOfBucketCounts(s, bucket, counts[..|counts| - 1]);
    }
  }

  /** The sum of the counts of buckets 0 .. n-1. */
  function BucketTotal<T(==,!new)>(s: seq<T>, bucket: T -> Option<nat>, n: nat): nat
  {
    if n == 0 then 0 else BucketTotal(s, bucket, n - 1) + BucketCount(s, bucket, n - 1)
  }

  /** Appending one element adds one to the total when its bucket is below `n`. */
  lemma {:induction false} BucketTotalSnoc<T(!new)>(s: seq<T>, x: T, bucket: T -> Option<nat>, n: nat)
    ensures BucketTotal(s + [x], bucket, n)
            == BucketTotal(s, bucket, n) + (if bucket(x).Some? && bucket(x).value < n then 1 else 0)
  {
    if n > 0 {
      var m: nat := n - 1;
      var b := bucket(x);
      assert (b.Some? && b.value < n) == ((b.Some? && b.value < m) || b == Some(m));
      assert BucketTotal(s, bucket, n) == BucketTotal(s, bucket, m) + BucketCount(s, bucket, m);
      assert BucketTotal(s + [x], bucket, n) == BucketTotal(s + [x], bucket, m) + BucketCount(s + [x], bucket, m);
      BucketTotalSnoc(s, x, bucket, m);
      BucketCountSnoc(s, x, bucket, m);
    }
  }

  lemma {:induction false} BucketTotalOfEmpty<T(!new)>(bucket: T -> Option<nat>, n: nat)
    ensures BucketTotal([], bucket, n) == 0
  {
    if n > 0 {
      BucketTotalOfEmpty(bucket, n - 1);
    }
  }

  /** The counts of buckets 0 .. n-1 never sum to more than the length of the list. */
  lemma {:induction false} BucketTotalBounded<T(!new)>(s: seq<T>, bucket: T -> Option<nat>, n: nat)
    ensures BucketTotal(s, bucket, n) <= |s|
  {
    if s == [] {
      BucketTotalOfEmpty(bucket, n);
    } else {
      var init := s[..|s| - 1];
      assert s == init + [s[|s| - 1]];
      BucketTotalBounded(init, bucket, n);
      BucketTotalSnoc(init, s[|s| - 1], bucket, n);
    }
  }

  /** The position of the first occurrence of `x` in `s`, like Array.prototype.indexOf. */
  function IndexIn<T(==)>(s: seq<T>, x: T): (r: Option<nat>)
    ensures r.Some? ==> r.value < |s| && s[r.value] == x && x !in s[..r.value]
    ensures r.None? <==> x !in s
  {
    if s == [] then None
    else if s[0] == x then Some(0)
    else match IndexIn(s[1..], x)
      case None => None
      case Some(i) => assert s[1..][..i] == s[1..i + 1]; Some(i + 1)
  }

  // ---------------------------------------------------------------------------
  // Stable sort by an integer key (Array.prototype.sort with (a, b) => ka - kb)
  // ---------------------------------------------------------------------------

  predicate SortedBy<T>(s: seq<T>, key: T -> int)
  {
    forall i, j :: 0 <= i < j < |s| ==> key(s[i]) <= key(s[j])
  }

  /** Inserts `x` before the first element whose key is not smaller. */
  function Insert<T>(x: T, s: seq<T>, key: T -> int): seq<T>
  {
    if s == [] then [x]
    else if key(x) <= key(s[0]) then [x] + s
    else [s[0]] + Insert(x, s[1..], key)
  }

  /** Insertion sort: the result is ordered by `key` and is a permutation of `s`. */
  function SortBy<T>(s: seq<T>, key: T -> int): seq<T>
  {
    if s == [] then [] else Insert(s[0], SortBy(s[1..], key), key)
  }

  lemma {:induction false} InsertPermutes<T>(x: T, s: seq<T>, key: T -> int)
    ensures multiset(Insert(x, s, key)) == multiset(s) + multiset{x}
  {
    if s != [] && key(x) > key(s[0]) {
      InsertPermutes(x, s[1..], key);
      assert s == [s[0]] + s[1..];
    }
  }

  /** Inserting an element no smaller than a bound into a list no smaller than it keeps the bound. */
  lemma {:induction false} InsertLowerBound<T>(x: T, s: seq<T>, key: T -> int, bound: int)
    requires key(x) >= bound
    requires forall i :: 0 <= i < |s| ==> key(s[i]) >= bound
    ensures forall i :: 0 <= i < |Insert(x, s, key)| ==> key(Insert(x, s, key)[i]) >= bound
  {
    if s != [] && key(x) > key(s[0]) {
      var tail := s[1..];
      assert forall i :: 0 <= i < |tail| ==> tail[i] == s[i + 1];
      InsertLowerBound(x, tail, key, bound);
    }
  }

  lemma {:induction false} InsertSorted<T>(x: T, s: seq<T>, key: T -> int)
    requires SortedBy(s, key)
    ensures SortedBy(Insert(x, s, key), key)
  {
    if s != [] && key(x) > key(s[0]) {
      var tail := s[1..];
      assert forall i :: 0 <= i < |tail| ==> tail[i] == s[i + 1];
      var rest := Insert(x, tail, key);
      InsertSorted(x, tail, key);
      InsertLowerBound(x, tail, key, key(s[0]));
      var r := [s[0]] + rest;
      assert forall j :: 1 <= j < |r| ==> r[j] == rest[j - 1];
    }
  }

  lemma {:induction false} SortByCorrect<T>(s: seq<T>, key: T -> int)
    ensures SortedBy(SortBy(s, key), key)
    ensures multiset(SortBy(s, key)) == multiset(s)
    ensures |SortBy(s, key)| == |s|
  {
    if s != [] {
      SortByCorrect(s[1..], key);
      InsertSorted(s[0], SortBy(s[1..], key), key);
      InsertPermutes(s[0], SortBy(s[1..], key), key);
      assert s == [s[0]] + s[1..];
    }
  }

  // ---------------------------------------------------------------------------
  // Strings
  // ---------------------------------------------------------------------------

  /** String.prototype.toLowerCase on one character (ASCII letters only). */
  function LowerChar(c: char): char
  {
    if 'A' <= c <= 'Z' then (c as int + 32) as char else c
  }

  function Lower(s: string): (r: string)
    ensures |r| == |s|
    ensures forall i :: 0 <= i < |s| ==> r[i] == LowerChar(s[i])
  {
    if s == [] then [] else [LowerChar(s[0])] + Lower(s[1..])
  }

  /** String.prototype.includes: `sub` occurs somewhere in `s` (the empty string always does). */
  predicate Contains(s: string, sub: string)
  {
    exists i :: 0 <= i <= |s| && OccursAt(s, sub, i)
  }

  /** `sub` occurs in `s` starting at index `i`. */
  predicate OccursAt(s: string, sub: string, i: nat)
  {
    i + |sub| <= |s| && s[i..i + |sub|] == sub
  }

  /** The case-insensitive search the pages apply: `text.toLowerCase().includes(term.toLowerCase())`. */
  predicate MatchesTerm(text: string, term: string)
  {
    Contains(Lower(text), Lower(term))
  }

  lemma EmptyTermMatchesEverything(text: string)
    ensures MatchesTerm(text, "")
  {
    assert OccursAt(Lower(text), Lower(""), 0);
  }

  /** A text always matches itself in any letter case of the search field. */
  lemma {:induction false} TextMatchesItself(text: string)
    ensures MatchesTerm(text, text)
  {
    assert OccursAt(Lower(text), Lower(text), 0);
  }

  /** The index of the first occurrence of `pat` in `s` at or after `from`. */
  function IndexOf(s: string, pat: string, from: nat): (r: Option<nat>)
    ensures r.Some? ==> from <= r.value && OccursAt(s, pat, r.value)
    ensures r.Some? ==> forall j :: from <= j < r.value ==> !OccursAt(s, pat, j)
    ensures r.None? ==> forall j :: from <= j ==> !OccursAt(s, pat, j)
    decreases |s| - from
  {
    if from + |pat| > |s| then None
    else if s[from..from + |pat|] == pat then Some(from)
    else IndexOf(s, pat, from + 1)
  }

  /** String.prototype.replace with a string pattern: only the first occurrence is replaced. */
  function ReplaceFirst(s: string, pat: string, rep: string): string
  {
    match IndexOf(s, pat, 0)
    case None => s
    case Some(i) => s[..i] + rep + s[i + |pat|..]
  }

  lemma ReplacePrefix(pat: string, rest: string)
    ensures ReplaceFirst(pat + rest, pat, "") == rest
  {
    assert (pat + rest)[0..|pat|] == pat;
    assert (pat + rest)[|pat|..] == rest;
  }

  predicate IsDigit(c: char)
  {
    '0' <= c <= '9'
  }

  predicate AllDigits(s: string)
  {
    forall i :: 0 <= i < |s| ==> IsDigit(s[i])
  }

  function DigitChar(d: nat): (c: char)
    requires d < 10
    ensures IsDigit(c) && c as int - '0' as int == d
  {
    ('0' as int + d) as char
  }

  /** The decimal digits of `n`, as a template literal `${n}` prints a non-negative integer. */
  function NatToString(n: nat): (r: string)
    ensures |r| > 0 && AllDigits(r)
    decreases n
  {
    if n < 10 then [DigitChar(n)] else NatToString(n / 10) + [DigitChar(n % 10)]
  }

  /** `${n}` for any integer. */
  function IntToString(n: int): string
  {
    if n < 0 then "-" + NatToString(-n) else NatToString(n)
  }

  /** The value of a run of decimal digits. */
  function DigitsValue(s: string): nat
    requires AllDigits(s)
  {
    if s == [] then 0 else DigitsValue(s[..|s| - 1]) * 10 + (s[|s| - 1] as int - '0' as int)
  }

  /** The longest prefix of `s` made of decimal digits. */
  function LeadingDigits(s: string): (r: string)
    ensures AllDigits(r) && |r| <= |s| && r == s[..|r|]
    ensures |r| < |s| ==> !IsDigit(s[|r|])
  {
    if s == [] || !IsDigit(s[0]) then [] else [s[0]] + LeadingDigits(s[1..])
  }

  predicate IsSpace(c: char)
  {
    c == ' ' || c == '\t' || c == '\n' || c == '\r'
  }

  function TrimStart(s: string): (r: string)
    ensures |r| <= |s| && (r != [] ==> !IsSpace(r[0]))
  {
    if s != [] && IsSpace(s[0]) then TrimStart(s[1..]) else s
  }

  /**
   * JavaScript's parseInt(s) with no radix: leading white space is skipped, an
   * optional sign is read, then the longest run of decimal digits; None stands
   * for NaN (no digit at all). Trailing garbage is ignored, as in parseInt.
   */
  function ParseInt(s: string): (r: Option<int>)
    ensures r.None? <==> LeadingDigits(
              if TrimStart(s) != [] && (TrimStart(s)[0] == '-' || TrimStart(s)[0] == '+')
              then TrimStart(s)[1..] else TrimStart(s)) == []
  {
    var t := TrimStart(s);
    var signed := t != [] && (t[0] == '-' || t[0] == '+');
    var body := if signed then t[1..] else t;
    var digits := LeadingDigits(body);
    if digits == [] then None
    else
      var v: int := DigitsValue(digits);
      if signed && t[0] == '-' then Some(-v) else Some(v)
  }

  lemma {:induction false} DigitsValueOfNatToString(n: nat)
    ensures DigitsValue(NatToString(n)) == n
    decreases n
  {
    var r := NatToString(n);
    if n >= 10 {
      DigitsValueOfNatToString(n / 10);
      assert r[..|r| - 1] == NatToString(n / 10);
    }
  }

  lemma {:induction false} LeadingDigitsOfDigits(s: string)
    requires AllDigits(s)
    ensures LeadingDigits(s) == s
  {
    if s != [] {
      LeadingDigitsOfDigits(s[1..]);
    }
  }

  /** Round trip: parseInt reads back the number a template literal printed. */
  lemma ParseIntOfNatToString(n: nat)
    ensures ParseInt(NatToString(n)) == Some(n)
  {
    var r := NatToString(n);
    assert TrimStart(r) == r;
    LeadingDigitsOfDigits(r);
    DigitsValueOfNatToString(n);
  }
}
