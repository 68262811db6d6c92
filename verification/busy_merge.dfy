/**
 * The busy-interval merger (`mergeBusyTimes`): sort by start, then one pass
 * that extends the last merged period while the next one starts no later
 * than its end (touching periods coalesce), and opens a new period otherwise.
 */
module BusyMerge {
  import opened Wrappers
  import opened Intervals
  import opened StartOrder

  /** Every period of `rest` starts no earlier than `cur`. */
  predicate StartsAfter(cur: Span, rest: seq<Span>) {
    forall k :: 0 <= k < |rest| ==> cur.start <= rest[k].start
  }

  /**
   * The merge pass: `cur` is the last merged period, `rest` the sorted
   * periods still to visit.
   */
  function MergeFrom(cur: Span, rest: seq<Span>): (r: seq<Span>)
    requires SortedByStart(rest)
    requires StartsAfter(cur, rest)
    ensures 1 <= |r| <= |rest| + 1
    ensures r[0].start == cur.start && cur.end <= r[0].end
    ensures SortedByStart(r)
    ensures Gapped(r)
    decreases |rest|
  {
    if |rest| == 0 then [cur]
    else if rest[0].start <= cur.end then
      MergeFrom(Span(cur.start, Max(cur.end, rest[0].end)), rest[1..])
    else
      var tail := MergeFrom(rest[0], rest[1..]);
      assert cur.end < tail[0].start;
      [cur] + tail
  }

  /** Merges a list of spans into sorted periods separated by strictly positive gaps. */
  function MergeSpans(b: seq<Span>): (r: seq<Span>)
    ensures |r| == 0 <==> |b| == 0
    ensures |r| <= |b|
    ensures SortedByStart(r)
    ensures Gapped(r)
  {
    if |b| == 0 then []
    else
      var s := SortByStart(b);
      MergeFrom(s[0], s[1..])
  }

  /**
   * `mergeBusyTimes` on wire records.  Both bounds of every period must be
   * present: the merge's result is only observed when they are, since
   * formatting a period without a bound fails the whole request.
   */
  function MergeBusyTimes(busy: seq<TimePeriod>): (r: seq<TimePeriod>)
    requires AllBounded(busy)
    ensures AllBounded(r)
    ensures |r| == 0 <==> |busy| == 0
    ensures |r| <= |busy|
    ensures SortedByStart(Spans(r)) && Gapped(Spans(r))
  {
    Periods(MergeSpans(Spans(busy)))
  }

  // ---------------------------------------------------------------------
  // Coverage

  /** The merge pass keeps exactly the instants of `cur` and `rest`. */
  lemma {:induction false} MergeFromCovers(cur: Span, rest: seq<Span>, t: Instant)
    requires SortedByStart(rest)
    requires StartsAfter(cur, rest)
    ensures Covered(MergeFrom(cur, rest), t) <==> Contains(cur, t) || Covered(rest, t)
    decreases |rest|
  {
    var r := MergeFrom(cur, rest);
    if |rest| == 0 {
      assert r == [cur];
    } else if rest[0].start <= cur.end {
      var cur' := Span(cur.start, Max(cur.end, rest[0].end));
      MergeFromCovers(cur', rest[1..], t);
      assert Contains(cur', t) <==> Contains(cur, t) || Contains(rest[0], t);
      CoveredCons(rest, t);
    } else {
      var tail := MergeFrom(rest[0], rest[1..]);
      MergeFromCovers(rest[0], rest[1..], t);
      CoveredCons(r, t);
      assert r[1..] == tail;
      CoveredCons(rest, t);
    }
  }

  lemma {:induction false} CoveredCons(s: seq<Span>, t: Instant)
    requires |s| > 0
    ensures Covered(s, t) <==> Contains(s[0], t) || Covered(s[1..], t)
  {
    if Covered(s, t) && !Contains(s[0], t) {
      var i :| 0 <= i < |s| && Contains(s[i], t);
      assert s[1..][i - 1] == s[i];
    }
    if Covered(s[1..], t) {
      var i :| 0 <= i < |s[1..]| && Contains(s[1..][i], t);
      assert s[i + 1] == s[1..][i];
    }
  }

  /** Merging keeps exactly the set of busy instants. */
  lemma {:induction false} MergeSpansCovers(b: seq<Span>, t: Instant)
    ensures Covered(MergeSpans(b), t) <==> Covered(b, t)
  {
    if |b| > 0 {
      var s := SortByStart(b);
      MergeFromCovers(s[0], s[1..], t);
      CoveredCons(s, t);
      PermutationCovers(s, b, t);
    }
  }

  /** An instant is busy after merging iff some input period holds it. */
  lemma {:induction false} MergeBusyTimesCovers(busy: seq<TimePeriod>, t: Instant)
    requires AllBounded(busy)
    ensures BusyAt(MergeBusyTimes(busy), t) <==> BusyAt(busy, t)
  {
    var m := MergeSpans(Spans(busy));
    MergeSpansCovers(Spans(busy), t);
    UsableOfBounded(busy);
    UsableCovers(busy, t);
    UsableOfBounded(Periods(m));
    UsableCovers(Periods(m), t);
  }

  // ---------------------------------------------------------------------
  // Enclosure: no period is shortened

  /** Every visited period lies inside some merged period. */
  lemma {:induction false} MergeFromEncloses(cur: Span, rest: seq<Span>, k: int)
    requires SortedByStart(rest)
    requires StartsAfter(cur, rest)
    requires 0 <= k < |rest|
    ensures exists i :: 0 <= i < |MergeFrom(cur, rest)| && Encloses(MergeFrom(cur, rest)[i], rest[k])
    decreases |rest|
  {
    var r := MergeFrom(cur, rest);
    if rest[0].start <= cur.end {
      var cur' := Span(cur.start, Max(cur.end, rest[0].end));
      if k == 0 {
        assert Encloses(r[0], rest[0]);
      } else {
        MergeFromEncloses(cur', rest[1..], k - 1);
      }
    } else {
      var tail := MergeFrom(rest[0], rest[1..]);
      if k == 0 {
        assert Encloses(r[1], rest[0]);
      } else {
        MergeFromEncloses(rest[0], rest[1..], k - 1);
        var i :| 0 <= i < |tail| && Encloses(tail[i], rest[1..][k - 1]);
        assert r[i + 1] == tail[i];
      }
    }
  }

  /** Every input period lies inside some merged period: merged ends never shrink. */
  lemma {:induction false} MergeSpansEncloses(b: seq<Span>, k: int)
    requires 0 <= k < |b|
    ensures exists i :: 0 <= i < |MergeSpans(b)| && Encloses(MergeSpans(b)[i], b[k])
  {
    var s := SortByStart(b);
    assert MergeSpans(b) == MergeFrom(s[0], s[1..]);
    assert b[k] in multiset(s);
    var j :| 0 <= j < |s| && s[j] == b[k];
    SortedEncloses(s, j);
  }

  /** Every period of a sorted sequence lies inside some period of its merge. */
  lemma {:induction false} SortedEncloses(s: seq<Span>, j: int)
    requires SortedByStart(s)
    requires 0 <= j < |s|
    ensures exists i :: 0 <= i < |MergeFrom(s[0], s[1..])| && Encloses(MergeFrom(s[0], s[1..])[i], s[j])
  {
    var r := MergeFrom(s[0], s[1..]);
    if j == 0 {
      assert Encloses(r[0], s[0]);
    } else {
      assert s[1..][j - 1] == s[j];
      MergeFromEncloses(s[0], s[1..], j - 1);
    }
  }

  /** Each merged period starts at the start of, and ends at the end of, some visited period. */
  lemma {:induction false} MergeFromOrigins(cur: Span, rest: seq<Span>, i: int)
    requires SortedByStart(rest)
    requires StartsAfter(cur, rest)
    requires 0 <= i < |MergeFrom(cur, rest)|
    ensures exists p :: (p == cur || p in rest) && MergeFrom(cur, rest)[i].start == p.start
    ensures exists p :: (p == cur || p in rest) && MergeFrom(cur, rest)[i].end == p.end
    decreases |rest|
  {
    var r := MergeFrom(cur, rest);
    if |rest| == 0 {
      assert r[i] == cur;
    } else if rest[0].start <= cur.end {
      var cur' := Span(cur.start, Max(cur.end, rest[0].end));
      MergeFromOrigins(cur', rest[1..], i);
      assert forall p :: p in rest[1..] ==> p in rest;
      assert cur'.end == cur.end || cur'.end == rest[0].end;
    } else if i == 0 {
      assert r[0] == cur;
    } else {
      MergeFromOrigins(rest[0], rest[1..], i - 1);
      assert r[i] == MergeFrom(rest[0], rest[1..])[i - 1];
      assert forall p :: p in rest[1..] ==> p in rest;
    }
  }

  /**
   * Each merged period runs from the start of one input period to the end of
   * one input period: with the enclosure above, its end is the latest end it
   * absorbed.
   */
  lemma {:induction false} MergeSpansOrigins(b: seq<Span>, i: int)
    requires 0 <= i < |MergeSpans(b)|
    ensures exists p :: p in b && MergeSpans(b)[i].start == p.start
    ensures exists p :: p in b && MergeSpans(b)[i].end == p.end
  {
    var s := SortByStart(b);
    var r := MergeSpans(b);
    MergeFromOrigins(s[0], s[1..], i);
    var p :| (p == s[0] || p in s[1..]) && r[i].start == p.start;
    var q :| (q == s[0] || q in s[1..]) && r[i].end == q.end;
    assert p in s && q in s;
    assert p in multiset(s) && q in multiset(s);
    assert p in b && q in b;
  }

  // ---------------------------------------------------------------------
  // Closed extent, well-formedness, uniqueness

  lemma {:induction false} SpannedCons(s: seq<Span>, x: real)
    requires |s| > 0
    ensures Spanned(s, x) <==> Reaches(s[0], x) || Spanned(s[1..], x)
  {
    if Spanned(s, x) && !Reaches(s[0], x) {
      var i :| 0 <= i < |s| && Reaches(s[i], x);
      assert s[1..][i - 1] == s[i];
    }
    if Spanned(s[1..], x) {
      var i :| 0 <= i < |s[1..]| && Reaches(s[1..][i], x);
      assert s[i + 1] == s[1..][i];
    }
  }

  /** The merge pass keeps the closed extent of `cur` and `rest` on the real time line. */
  lemma {:induction false} MergeFromSpans(cur: Span, rest: seq<Span>, x: real)
    requires SortedByStart(rest)
    requires StartsAfter(cur, rest)
    ensures Spanned(MergeFrom(cur, rest), x) <==> Reaches(cur, x) || Spanned(rest, x)
    decreases |rest|
  {
    var r := MergeFrom(cur, rest);
    if |rest| == 0 {
      assert r == [cur];
    } else if rest[0].start <= cur.end {
      var cur' := Span(cur.start, Max(cur.end, rest[0].end));
      MergeFromSpans(cur', rest[1..], x);
      assert Reaches(cur', x) <==> Reaches(cur, x) || Reaches(rest[0], x);
      SpannedCons(rest, x);
    } else {
      MergeFromSpans(rest[0], rest[1..], x);
      SpannedCons(r, x);
      assert r[1..] == MergeFrom(rest[0], rest[1..]);
      SpannedCons(rest, x);
    }
  }

  /** Well-formed periods merge into well-formed periods. */
  lemma {:induction false} MergeFromWellFormed(cur: Span, rest: seq<Span>)
    requires SortedByStart(rest)
    requires StartsAfter(cur, rest)
    requires cur.start <= cur.end && WellFormed(rest)
    ensures WellFormed(MergeFrom(cur, rest))
    decreases |rest|
  {
    if |rest| > 0 {
      if rest[0].start <= cur.end {
        MergeFromWellFormed(Span(cur.start, Max(cur.end, rest[0].end)), rest[1..]);
      } else {
        MergeFromWellFormed(rest[0], rest[1..]);
      }
    }
  }

  /** The merged output reaches exactly the input's real time points. */
  lemma {:induction false} MergeSpansSpans(b: seq<Span>, x: real)
    ensures Spanned(MergeSpans(b), x) <==> Spanned(b, x)
  {
    if |b| > 0 {
      var s := SortByStart(b);
      MergeFromSpans(s[0], s[1..], x);
      SpannedCons(s, x);
      PermutationSpans(s, b, x);
    }
  }

  lemma {:induction false} MergeSpansWellFormed(b: seq<Span>)
    requires WellFormed(b)
    ensures WellFormed(MergeSpans(b))
  {
    if |b| > 0 {
      var s := SortByStart(b);
      WellFormedPermutation(b, s);
      MergeFromWellFormed(s[0], s[1..]);
    }
  }

  /** Just past the end of the first period, a gapped list reaches nothing. */
  lemma {:induction false} NotSpannedPastFirst(a: seq<Span>, x: real)
    requires WellFormed(a) && Gapped(a)
    requires |a| > 0 && a[0].end as real < x < a[0].end as real + 1.0
    ensures !Spanned(a, x)
  {
    forall i | 0 <= i < |a|
      ensures !Reaches(a[i], x)
    {
      if i > 0 {
        assert a[0].end < a[i].start;
      }
    }
  }

  /**
   * Well-formed, gapped period lists are determined by the real time points
   * they reach: the merged form is unique.
   */
  lemma {:induction false} ExtentDetermines(a: seq<Span>, b: seq<Span>)
    requires WellFormed(a) && Gapped(a)
    requires WellFormed(b) && Gapped(b)
    requires forall x: real :: Spanned(a, x) <==> Spanned(b, x)
    ensures a == b
    decreases |a| + |b|
  {
    if |a| == 0 || |b| == 0 {
      if |a| > 0 {
        assert Spanned(a, a[0].start as real);
      }
      if |b| > 0 {
        assert Spanned(b, b[0].start as real);
      }
    } else {
      var a0, b0 := a[0], b[0];
      // Equal first starts: each list's first start is its least reached point.
      assert Spanned(b, a0.start as real);
      assert Spanned(a, b0.start as real);
      assert a0.start == b0.start;
      // Equal first ends: the half-step after the shorter end separates the lists.
      var xa := a0.end as real + 0.5;
      NotSpannedPastFirst(a, xa);
      assert !Reaches(b0, xa);
      var xb := b0.end as real + 0.5;
      NotSpannedPastFirst(b, xb);
      assert !Reaches(a0, xb);
      assert a0 == b0;
      // The tails reach the same points: those of the whole lists beyond `a0`.
      forall x: real
        ensures Spanned(a[1..], x) <==> Spanned(b[1..], x)
      {
        SpannedCons(a, x);
        SpannedCons(b, x);
        if Spanned(a[1..], x) {
          var i :| 0 <= i < |a[1..]| && Reaches(a[1..][i], x);
          assert a[i + 1] == a[1..][i];
        }
        if Spanned(b[1..], x) {
          var i :| 0 <= i < |b[1..]| && Reaches(b[1..][i], x);
          assert b[i + 1] == b[1..][i];
        }
      }
      ExtentDetermines(a[1..], b[1..]);
      assert a == [a0] + a[1..];
      assert b == [b0] + b[1..];
    }
  }

  /** The order of the input periods does not affect the merged result. */
  lemma {:induction false} MergePermutation(a: seq<Span>, b: seq<Span>)
    requires multiset(a) == multiset(b)
    requires WellFormed(a)
    ensures MergeSpans(a) == MergeSpans(b)
  {
    WellFormedPermutation(a, b);
    MergeSpansWellFormed(a);
    MergeSpansWellFormed(b);
    forall x: real
      ensures Spanned(MergeSpans(a), x) <==> Spanned(MergeSpans(b), x)
    {
      MergeSpansSpans(a, x);
      MergeSpansSpans(b, x);
      PermutationSpans(a, b, x);
    }
    ExtentDetermines(MergeSpans(a), MergeSpans(b));
  }

  // ---------------------------------------------------------------------
  // Idempotence

  lemma {:induction false} MergeFromGapped(s: seq<Span>)
    requires |s| > 0
    requires SortedByStart(s) && Gapped(s)
    ensures MergeFrom(s[0], s[1..]) == s
    decreases |s|
  {
    if |s| > 1 {
      assert s[1] == s[1..][0];
      assert s[1..][1..] == s[2..];
      MergeFromGapped(s[1..]);
      assert s == [s[0]] + s[1..];
    }
  }

  /** Merging a merged list changes nothing. */
  lemma {:induction false} MergeIdempotent(b: seq<Span>)
    ensures MergeSpans(MergeSpans(b)) == MergeSpans(b)
  {
    var m := MergeSpans(b);
    if |m| > 0 {
      SortSorted(m);
      MergeFromGapped(m);
    }
  }
}
