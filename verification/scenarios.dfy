/**
 * Worked examples of the free/busy engine on one day, with instants written
 * as minutes after midnight (09:00 is 540).
 */
module Scenarios {
  import opened Wrappers
  import opened Intervals
  import opened StartOrder
  import opened BusyMerge
  import opened FreeTimes

  function Period(start: Instant, end: Instant): TimePeriod {
    TimePeriod(Some(start), Some(end))
  }

  /** 09:00–10:00 and 09:30–11:00 overlap and merge; 13:00–14:00 stays apart. */
  lemma {:induction false} MergeScenario()
    ensures MergeBusyTimes([Period(540, 600), Period(570, 660), Period(780, 840)]) ==
              [Period(540, 660), Period(780, 840)]
  {
    SpansStep();
    AlreadySorted();
    MergeSteps();
    PeriodsStep();
  }

  /** The three example periods all carry both bounds. */
  lemma {:induction false} SpansStep()
    ensures AllBounded([Period(540, 600), Period(570, 660), Period(780, 840)])
    ensures Spans([Period(540, 600), Period(570, 660), Period(780, 840)]) == [Span(540, 600), Span(570, 660), Span(780, 840)]
  {
    assert Spans([Period(540, 600), Period(570, 660), Period(780, 840)]) == [Span(540, 600), Span(570, 660), Span(780, 840)];
  }

  lemma {:induction false} PeriodsStep()
    ensures Periods([Span(540, 660), Span(780, 840)]) == [Period(540, 660), Period(780, 840)]
  {
    assert Periods([Span(540, 660), Span(780, 840)]) == [Period(540, 660), Period(780, 840)];
  }

  /** The example periods are already in start order, so sorting keeps them. */
  lemma {:induction false} AlreadySorted()
    ensures SortByStart([Span(540, 600), Span(570, 660), Span(780, 840)]) == [Span(540, 600), Span(570, 660), Span(780, 840)]
  {
    SortSorted([Span(540, 600), Span(570, 660), Span(780, 840)]);
  }

  /** The merge pass over the sorted example periods. */
  lemma {:induction false} MergeSteps()
    ensures MergeFrom(Span(540, 600), [Span(570, 660), Span(780, 840)]) == [Span(540, 660), Span(780, 840)]
  {
    assert MergeFrom(Span(540, 660), [Span(780, 840)]) == [Span(540, 660), Span(780, 840)];
  }

  /** Within 08:00–18:00, the merged busy periods above leave three free slots. */
  lemma {:induction false} FreeScenario()
    ensures FindFreeTimes(Span(480, 1080), [Period(540, 660), Period(780, 840)]) ==
              [Span(480, 540), Span(660, 780), Span(840, 1080)]
  {
    var s := [Span(540, 660), Span(780, 840)];
    assert Usable([Period(540, 660), Period(780, 840)]) == s;
    SortSorted(s);
    WalkSteps();
  }

  lemma {:induction false} WalkSteps()
    ensures Walk(480, [Span(540, 660), Span(780, 840)], 1080) == [Span(480, 540), Span(660, 780), Span(840, 1080)]
  {
    assert Walk(840, [], 1080) == [Span(840, 1080)];
    WalkCons(660, Span(780, 840), [], 1080);
    assert [Span(780, 840)] + [] == [Span(540, 660), Span(780, 840)][1..];
    WalkCons(480, Span(540, 660), [Span(780, 840)], 1080);
  }
}
