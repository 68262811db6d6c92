/**
 * The free-slot deriver (`findFreeTimes`): drop periods with a missing bound,
 * sort by start, then walk a cursor from the window start, emitting the gap
 * before each busy period and moving the cursor to that period's end when it
 * lies ahead; finally emit the gap up to the window end.
 */
module FreeTimes {
  import opened Wrappers
  import opened Intervals
  import opened StartOrder

  /** The cursor after passing the busy period `b`: it never moves backward. */
  function Advance(cursor: Instant, b: Span): (next: Instant)
    ensures cursor <= next
    ensures b.end <= next
  {
    if cursor < b.end then b.end else cursor
  }

  /**
   * The walk over busy periods in start order, from `cursor`, closing at
   * `windowEnd`.
   */
  function Walk(cursor: Instant, busy: seq<Span>, windowEnd: Instant): (r: seq<Span>)
    ensures forall i :: 0 <= i < |r| ==> r[i].start < r[i].end
    ensures forall i :: 0 <= i < |r| ==> cursor <= r[i].start
    decreases |busy|
  {
    if |busy| == 0 then
      if cursor < windowEnd then [Span(cursor, windowEnd)] else []
    else
      Gap(cursor, busy[0]) + Walk(Advance(cursor, busy[0]), busy[1..], windowEnd)
  }

  /** The free slot emitted before the busy period `b`, if the cursor is short of it. */
  function Gap(cursor: Instant, b: Span): (r: seq<Span>)
    ensures |r| <= 1
    ensures |r| == 1 <==> cursor < b.start
  {
    if cursor < b.start then [Span(cursor, b.start)] else []
  }

  /** One step of the walk. */
  lemma {:induction false} WalkCons(cursor: Instant, b: Span, rest: seq<Span>, windowEnd: Instant)
    ensures Walk(cursor, [b] + rest, windowEnd) == Gap(cursor, b) + Walk(Advance(cursor, b), rest, windowEnd)
  {
    assert ([b] + rest)[1..] == rest;
  }

  /** `findFreeTimes`: the free slots of `window` around the busy periods. */
  function FindFreeTimes(window: Span, busy: seq<TimePeriod>): (r: seq<Span>)
    ensures forall i :: 0 <= i < |r| ==> r[i].start < r[i].end
    ensures forall i :: 0 <= i < |r| ==> window.start <= r[i].start
  {
    Walk(window.start, SortByStart(Usable(busy)), window.end)
  }

  // ---------------------------------------------------------------------
  // The walk

  lemma {:induction false} CoveredAppend(a: seq<Span>, b: seq<Span>, t: Instant)
    ensures Covered(a + b, t) <==> Covered(a, t) || Covered(b, t)
  {
    if Covered(a + b, t) {
      var i :| 0 <= i < |a + b| && Contains((a + b)[i], t);
      if i >= |a| {
        assert b[i - |a|] == (a + b)[i];
      }
    }
    if Covered(b, t) {
      var i :| 0 <= i < |b| && Contains(b[i], t);
      assert (a + b)[|a| + i] == b[i];
    }
    if Covered(a, t) {
      var i :| 0 <= i < |a| && Contains(a[i], t);
      assert (a + b)[i] == a[i];
    }
  }

  lemma {:induction false} CoveredTail(s: seq<Span>, t: Instant)
    requires |s| > 0
    ensures Covered(s, t) <==> Contains(s[0], t) || Covered(s[1..], t)
  {
    assert s == [s[0]] + s[1..];
    CoveredAppend([s[0]], s[1..], t);
  }

  /** No free instant is busy. */
  lemma {:induction false} WalkAvoidsBusy(cursor: Instant, busy: seq<Span>, windowEnd: Instant, t: Instant)
    requires SortedByStart(busy)
    requires Covered(Walk(cursor, busy, windowEnd), t)
    ensures !Covered(busy, t)
    decreases |busy|
  {
    if |busy| > 0 {
      var b := busy[0];
      var gap := Gap(cursor, b);
      var rest := Walk(Advance(cursor, b), busy[1..], windowEnd);
      CoveredAppend(gap, rest, t);
      CoveredTail(busy, t);
      if Covered(gap, t) {
        // Inside the gap `t` is before every busy start.
        forall k | 0 <= k < |busy|
          ensures !Contains(busy[k], t)
        {
          assert b.start <= busy[k].start;
        }
      } else {
        var i :| 0 <= i < |rest| && Contains(rest[i], t);
        assert Advance(cursor, b) <= t;
        WalkAvoidsBusy(Advance(cursor, b), busy[1..], windowEnd, t);
      }
    }
  }

  /** Every instant from the cursor up to the window end is free or busy. */
  lemma {:induction false} WalkFills(cursor: Instant, busy: seq<Span>, windowEnd: Instant, t: Instant)
    requires cursor <= t < windowEnd
    ensures Covered(Walk(cursor, busy, windowEnd), t) || Covered(busy, t)
    decreases |busy|
  {
    var r := Walk(cursor, busy, windowEnd);
    if |busy| == 0 {
      assert Contains(r[0], t);
    } else {
      var b := busy[0];
      var gap := Gap(cursor, b);
      var next := Advance(cursor, b);
      CoveredAppend(gap, Walk(next, busy[1..], windowEnd), t);
      CoveredTail(busy, t);
      if next <= t {
        WalkFills(next, busy[1..], windowEnd, t);
      } else if t < b.start {
        assert Contains(gap[0], t);
      } else {
        assert Contains(b, t);
      }
    }
  }

  /** Over well-formed busy periods the slots are ascending and pairwise disjoint. */
  lemma {:induction false} WalkSequential(cursor: Instant, busy: seq<Span>, windowEnd: Instant)
    requires WellFormed(busy)
    ensures Sequential(Walk(cursor, busy, windowEnd))
    decreases |busy|
  {
    if |busy| > 0 {
      var b := busy[0];
      var next := Advance(cursor, b);
      WalkSequential(next, busy[1..], windowEnd);
      var rest := Walk(next, busy[1..], windowEnd);
      assert b.start <= next;
      assert forall j :: 0 <= j < |rest| ==> b.start <= rest[j].start;
    }
  }

  /** When no busy period starts past the window end, no slot ends past it. */
  lemma {:induction false} WalkInside(cursor: Instant, busy: seq<Span>, windowEnd: Instant)
    requires forall k :: 0 <= k < |busy| ==> busy[k].start <= windowEnd
    ensures forall i :: 0 <= i < |Walk(cursor, busy, windowEnd)| ==> Walk(cursor, busy, windowEnd)[i].end <= windowEnd
    decreases |busy|
  {
    if |busy| > 0 {
      WalkInside(Advance(cursor, busy[0]), busy[1..], windowEnd);
    }
  }

  // ---------------------------------------------------------------------
  // findFreeTimes

  /** With no period that has both bounds, the whole window is free (or nothing, if it is empty). */
  lemma {:induction false} FreeTimesWithoutBusy(window: Span, busy: seq<TimePeriod>)
    requires forall k :: 0 <= k < |busy| ==> !busy[k].Bounded()
    ensures FindFreeTimes(window, busy) == (if window.start < window.end then [window] else [])
  {
    UsableEmpty(busy);
  }

  lemma {:induction false} UsableEmpty(busy: seq<TimePeriod>)
    requires forall k :: 0 <= k < |busy| ==> !busy[k].Bounded()
    ensures Usable(busy) == []
  {
    if |busy| > 0 {
      UsableEmpty(busy[1..]);
    }
  }

  /** A period missing a bound has no effect wherever it appears. */
  lemma {:induction false} FreeTimesIgnoreUnbounded(window: Span, a: seq<TimePeriod>, p: TimePeriod, b: seq<TimePeriod>)
    requires !p.Bounded()
    ensures FindFreeTimes(window, a + [p] + b) == FindFreeTimes(window, a + b)
  {
    UsableAppend(a + [p], b);
    UsableAppend(a, [p]);
    UsableAppend(a, b);
    assert Usable([p]) == [];
    assert Usable(a + [p] + b) == Usable(a) + Usable(b) == Usable(a + b);
  }

  /** No free slot overlaps a busy period. */
  lemma {:induction false} FreeTimesAvoidBusy(window: Span, busy: seq<TimePeriod>, t: Instant)
    requires Covered(FindFreeTimes(window, busy), t)
    ensures !BusyAt(busy, t)
  {
    var s := SortByStart(Usable(busy));
    WalkAvoidsBusy(window.start, s, window.end, t);
    PermutationCovers(s, Usable(busy), t);
    UsableCovers(busy, t);
  }

  /** Free slots and busy periods together cover the window. */
  lemma {:induction false} FreeTimesFillWindow(window: Span, busy: seq<TimePeriod>, t: Instant)
    requires window.start <= t < window.end
    ensures Covered(FindFreeTimes(window, busy), t) || BusyAt(busy, t)
  {
    var s := SortByStart(Usable(busy));
    WalkFills(window.start, s, window.end, t);
    PermutationCovers(s, Usable(busy), t);
    UsableCovers(busy, t);
  }

  /** Inside the window, an instant is free exactly when no busy period holds it. */
  lemma {:induction false} FreeTimesExact(window: Span, busy: seq<TimePeriod>, t: Instant)
    requires window.start <= t < window.end
    ensures Covered(FindFreeTimes(window, busy), t) <==> !BusyAt(busy, t)
  {
    FreeTimesFillWindow(window, busy, t);
    if Covered(FindFreeTimes(window, busy), t) {
      FreeTimesAvoidBusy(window, busy, t);
    }
  }

  /** Every bounded period starts no later than it ends. */
  predicate BoundsOrdered(busy: seq<TimePeriod>) {
    forall k :: 0 <= k < |busy| && busy[k].Bounded() ==> busy[k].start.value <= busy[k].end.value
  }

  lemma {:induction false} UsableWellFormed(busy: seq<TimePeriod>)
    requires BoundsOrdered(busy)
    ensures WellFormed(Usable(busy))
  {
    if |busy| > 0 {
      UsableWellFormed(busy[1..]);
    }
  }

  /** Over ordered bounds, the free slots are ascending and pairwise disjoint. */
  lemma {:induction false} FreeTimesSequential(window: Span, busy: seq<TimePeriod>)
    requires BoundsOrdered(busy)
    ensures Sequential(FindFreeTimes(window, busy))
  {
    UsableWellFormed(busy);
    WellFormedPermutation(Usable(busy), SortByStart(Usable(busy)));
    WalkSequential(window.start, SortByStart(Usable(busy)), window.end);
  }

  /** When every busy period starts within the window, so does every free slot end. */
  lemma {:induction false} FreeTimesInsideWindow(window: Span, busy: seq<TimePeriod>)
    requires forall k :: 0 <= k < |busy| && busy[k].Bounded() ==> busy[k].start.value <= window.end
    ensures forall i :: 0 <= i < |FindFreeTimes(window, busy)| ==>
              window.start <= FindFreeTimes(window, busy)[i].start && FindFreeTimes(window, busy)[i].end <= window.end
  {
    var u := Usable(busy);
    var s := SortByStart(u);
    UsableStartsBefore(busy, window.end);
    forall k | 0 <= k < |s|
      ensures s[k].start <= window.end
    {
      assert s[k] in multiset(u);
    }
    WalkInside(window.start, s, window.end);
  }

  lemma {:induction false} UsableStartsBefore(busy: seq<TimePeriod>, bound: Instant)
    requires forall k :: 0 <= k < |busy| && busy[k].Bounded() ==> busy[k].start.value <= bound
    ensures forall k :: 0 <= k < |Usable(busy)| ==> Usable(busy)[k].start <= bound
  {
    if |busy| > 0 {
      UsableStartsBefore(busy[1..], bound);
    }
  }

  /** Every instant of the window is busy. */
  predicate WindowBusy(window: Span, busy: seq<TimePeriod>) {
    forall t :: window.start <= t < window.end ==> BusyAt(busy, t)
  }

  /**
   * When no busy period starts past the window's end, there is no free slot
   * exactly when the busy periods fill the whole window.
   */
  lemma {:induction false} FreeTimesEmptyWhenFull(window: Span, busy: seq<TimePeriod>)
    requires forall k :: 0 <= k < |busy| && busy[k].Bounded() ==> busy[k].start.value <= window.end
    ensures FindFreeTimes(window, busy) == [] <==> WindowBusy(window, busy)
  {
    var r := FindFreeTimes(window, busy);
    if r == [] {
      forall t | window.start <= t < window.end
        ensures BusyAt(busy, t)
      {
        FreeTimesFillWindow(window, busy, t);
      }
    } else {
      FreeTimesInsideWindow(window, busy);
      var t := r[0].start;
      assert Contains(r[0], t);
      FreeTimesAvoidBusy(window, busy, t);
    }
  }
}
