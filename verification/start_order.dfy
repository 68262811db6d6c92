/**
 * Ordering periods by start: the array sort with a comparator that subtracts
 * the two start times, which is stable.  Modelled as a stable insertion sort over an immutable sequence.
 */
module StartOrder {
  import opened Intervals

  /** Places `x` before the first element that starts no earlier than it. */
  function Insert(x: Span, s: seq<Span>): (r: seq<Span>)
    requires SortedByStart(s)
    ensures SortedByStart(r)
    ensures multiset(r) == multiset(s) + multiset{x}
    ensures |r| == |s| + 1
    ensures r[0] == x || (|s| > 0 && r[0] == s[0])
  {
    if |s| == 0 then [x]
    else if x.start <= s[0].start then [x] + s
    else
      var t := Insert(x, s[1..]);
      assert t[0].start >= s[0].start;
      assert s == [s[0]] + s[1..];
      [s[0]] + t
  }

  /** Sorts by ascending start; equal starts keep their input order. */
  function SortByStart(s: seq<Span>): (r: seq<Span>)
    ensures SortedByStart(r)
    ensures multiset(r) == multiset(s)
    ensures |r| == |s|
  {
    if |s| == 0 then []
    else
      assert s == [s[0]] + s[1..];
      Insert(s[0], SortByStart(s[1..]))
  }

  /** A sequence already in start order is left as it is. */
  lemma {:induction false} SortSorted(s: seq<Span>)
    requires SortedByStart(s)
    ensures SortByStart(s) == s
  {
    if |s| > 0 {
      SortSorted(s[1..]);
    }
  }

  /** Two sequences with the same elements cover the same instants. */
  lemma {:induction false} PermutationCovers(a: seq<Span>, b: seq<Span>, t: Instant)
    requires multiset(a) == multiset(b)
    ensures Covered(a, t) <==> Covered(b, t)
  {
    if Covered(a, t) {
      var i :| 0 <= i < |a| && Contains(a[i], t);
      assert a[i] in multiset(b);
      var j :| 0 <= j < |b| && b[j] == a[i];
    }
    if Covered(b, t) {
      var j :| 0 <= j < |b| && Contains(b[j], t);
      assert b[j] in multiset(a);
      var i :| 0 <= i < |a| && a[i] == b[j];
    }
  }

  /** Two sequences with the same elements reach the same real time points. */
  lemma {:induction false} PermutationSpans(a: seq<Span>, b: seq<Span>, x: real)
    requires multiset(a) == multiset(b)
    ensures Spanned(a, x) <==> Spanned(b, x)
  {
    if Spanned(a, x) {
      var i :| 0 <= i < |a| && Reaches(a[i], x);
      assert a[i] in multiset(b);
      var j :| 0 <= j < |b| && b[j] == a[i];
    }
    if Spanned(b, x) {
      var j :| 0 <= j < |b| && Reaches(b[j], x);
      assert b[j] in multiset(a);
      var i :| 0 <= i < |a| && a[i] == b[j];
    }
  }

  /** Reordering keeps every period well-formed. */
  lemma {:induction false} WellFormedPermutation(a: seq<Span>, b: seq<Span>)
    requires multiset(a) == multiset(b)
    requires WellFormed(a)
    ensures WellFormed(b)
  {
    forall j | 0 <= j < |b|
      ensures b[j].start <= b[j].end
    {
      assert b[j] in multiset(a);
      var i :| 0 <= i < |a| && a[i] == b[j];
    }
  }
}
