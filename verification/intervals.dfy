/**
 * The interval model shared by the free/busy engine.
 *
 * Instants are integers (milliseconds since the epoch in the source's
 * `Date` values).  A `TimePeriod` is the provider's wire record, whose two
 * bounds may be missing; a `Span` is a period whose bounds are both present.
 * Periods are read as half-open `[start, end)` sets of instants.
 */
module Intervals {
  import opened Wrappers

  type Instant = int

  /** A period with both bounds present. */
  datatype Span = Span(start: Instant, end: Instant)

  /** The provider's busy/free record: a start and an end, either of which may be missing. */
  datatype TimePeriod = TimePeriod(start: Option<Instant>, end: Option<Instant>) {
    predicate Bounded() {
      start.Some? && end.Some?
    }
  }

  /** The instant `t` lies inside the half-open period `s`. */
  predicate Contains(s: Span, t: Instant) {
    s.start <= t < s.end
  }

  /** Some period of `ss` contains the instant `t`. */
  predicate Covered(ss: seq<Span>, t: Instant) {
    exists i :: 0 <= i < |ss| && Contains(ss[i], t)
  }

  /** The real time point `x` lies on the closed extent `[start, end]` of `s`. */
  predicate Reaches(s: Span, x: real) {
    s.start as real <= x <= s.end as real
  }

  /** Some period of `ss` reaches the real time point `x`. */
  predicate Spanned(ss: seq<Span>, x: real) {
    exists i :: 0 <= i < |ss| && Reaches(ss[i], x)
  }

  /** Every period starts no later than it ends. */
  predicate WellFormed(ss: seq<Span>) {
    forall i :: 0 <= i < |ss| ==> ss[i].start <= ss[i].end
  }

  /** Starts are in ascending (non-strict) order. */
  predicate SortedByStart(ss: seq<Span>) {
    forall i, j :: 0 <= i < j < |ss| ==> ss[i].start <= ss[j].start
  }

  /** Every period ends strictly before any later period starts. */
  predicate Gapped(ss: seq<Span>) {
    forall i, j :: 0 <= i < j < |ss| ==> ss[i].end < ss[j].start
  }

  /**
   * Each period ends no later than any later period starts: as half-open
   * sets, the periods are pairwise disjoint and in ascending order.
   */
  predicate Sequential(ss: seq<Span>) {
    forall i, j :: 0 <= i < j < |ss| ==> ss[i].end <= ss[j].start
  }

  /** The outer period `o` encloses the period `s`. */
  predicate Encloses(o: Span, s: Span) {
    o.start <= s.start && s.end <= o.end
  }

  function Max(a: Instant, b: Instant): Instant {
    if a < b then b else a
  }

  function AsPeriod(s: Span): (p: TimePeriod)
    ensures p.Bounded()
  {
    TimePeriod(Some(s.start), Some(s.end))
  }

  function AsSpan(p: TimePeriod): Span
    requires p.Bounded()
  {
    Span(p.start.value, p.end.value)
  }

  predicate AllBounded(ps: seq<TimePeriod>) {
    forall i :: 0 <= i < |ps| ==> ps[i].Bounded()
  }

  /** Periods with both bounds present, as spans. */
  function Spans(ps: seq<TimePeriod>): (r: seq<Span>)
    requires AllBounded(ps)
    ensures |r| == |ps|
    ensures forall i :: 0 <= i < |ps| ==> r[i] == AsSpan(ps[i])
  {
    seq(|ps|, i requires 0 <= i < |ps| => AsSpan(ps[i]))
  }

  /** Spans as wire records. */
  function Periods(ss: seq<Span>): (r: seq<TimePeriod>)
    ensures |r| == |ss|
    ensures AllBounded(r)
    ensures Spans(r) == ss
  {
    seq(|ss|, i requires 0 <= i < |ss| => AsPeriod(ss[i]))
  }

  /**
   * The periods that have both bounds, in order: the free-time walk drops
   * every period whose start or end is missing.
   */
  function Usable(ps: seq<TimePeriod>): (r: seq<Span>)
    ensures |r| <= |ps|
    ensures |r| == |ps| <==> AllBounded(ps)
  {
    if |ps| == 0 then []
    else
      assert AllBounded(ps) <==> ps[0].Bounded() && AllBounded(ps[1..]) by {
        if ps[0].Bounded() && AllBounded(ps[1..]) {
          forall i | 0 <= i < |ps|
            ensures ps[i].Bounded()
          {
            if i > 0 {
              assert ps[i] == ps[1..][i - 1];
            }
          }
        }
      }
      if ps[0].Bounded() then [AsSpan(ps[0])] + Usable(ps[1..])
      else Usable(ps[1..])
  }

  /** Some period of `ps` with both bounds contains `t`. */
  predicate BusyAt(ps: seq<TimePeriod>, t: Instant) {
    exists i :: 0 <= i < |ps| && ps[i].Bounded() && Contains(AsSpan(ps[i]), t)
  }

  /** Filtering keeps exactly the bounded periods, so it keeps every busy instant. */
  lemma {:induction false} UsableCovers(ps: seq<TimePeriod>, t: Instant)
    ensures Covered(Usable(ps), t) <==> BusyAt(ps, t)
  {
    if |ps| > 0 {
      UsableCovers(ps[1..], t);
      var r := Usable(ps[1..]);
      if BusyAt(ps, t) {
        var i :| 0 <= i < |ps| && ps[i].Bounded() && Contains(AsSpan(ps[i]), t);
        if i > 0 {
          assert ps[1..][i - 1] == ps[i];
          assert Covered(r, t);
          var k :| 0 <= k < |r| && Contains(r[k], t);
          if ps[0].Bounded() {
            assert Usable(ps)[k + 1] == r[k];
          }
        } else {
          assert Usable(ps)[0] == AsSpan(ps[0]);
        }
      }
      if Covered(Usable(ps), t) {
        var k :| 0 <= k < |Usable(ps)| && Contains(Usable(ps)[k], t);
        if ps[0].Bounded() && k == 0 {
          assert BusyAt(ps, t);
        } else {
          var k' := if ps[0].Bounded() then k - 1 else k;
          assert Contains(r[k'], t);
          var i :| 0 <= i < |ps[1..]| && ps[1..][i].Bounded() && Contains(AsSpan(ps[1..][i]), t);
          assert ps[i + 1] == ps[1..][i];
        }
      }
    }
  }

  /** Filtering distributes over concatenation. */
  lemma {:induction false} UsableAppend(a: seq<TimePeriod>, b: seq<TimePeriod>)
    ensures Usable(a + b) == Usable(a) + Usable(b)
  {
    if |a| > 0 {
      assert (a + b)[1..] == a[1..] + b;
      UsableAppend(a[1..], b);
    } else {
      assert a + b == b;
    }
  }

  /** Filtering keeps every period that has both bounds. */
  lemma {:induction false} UsableOfBounded(ps: seq<TimePeriod>)
    requires AllBounded(ps)
    ensures Usable(ps) == Spans(ps)
  {
    if |ps| > 0 {
      UsableOfBounded(ps[1..]);
    }
  }
}
