/**
 * The free/busy query pipeline of `findFreeMeetingSlots`: the queried
 * calendar ids, the provider's per-calendar busy lists flattened into one
 * list, merged, and turned into the free slots of the window; then both the
 * per-calendar busy periods and the free slots are formatted for display.
 * Formatting a missing bound throws in the source, so an answer holding a
 * period without a start or an end makes the whole call fail.
 *
 * The provider call is a parameter (`FreeBusyQuery -> response`), as is the
 * date formatter; the window is given (the source takes `now` from the clock
 * and adds the range in days with date-fns).
 */
module FreeBusy {
  import opened Wrappers
  import opened Intervals
  import opened StartOrder
  import opened BusyMerge
  import opened FreeTimes

  const PrimaryCalendar: string := "primary"

  /** The request body of the provider's free/busy query. */
  datatype FreeBusyQuery = FreeBusyQuery(timeMin: Instant, timeMax: Instant, items: seq<string>)

  /** One calendar of the provider's answer: its id and its busy periods, if any. */
  datatype CalendarBusy = CalendarBusy(id: string, busy: Option<seq<TimePeriod>>)

  /** A period rendered for display. */
  datatype FormattedPeriod = FormattedPeriod(start: string, end: string)

  /** The result of `findFreeMeetingSlots`. */
  datatype FreeSlotResult = FreeSlotResult(
    individualBusyTimes: seq<(string, seq<FormattedPeriod>)>,
    combinedFreeSlots: seq<FormattedPeriod>)

  /** The query for a window: the primary calendar, then each attendee in order. */
  function QueryFor(window: Span, attendees: seq<string>): (q: FreeBusyQuery)
    ensures q.timeMin == window.start && q.timeMax == window.end
    ensures |q.items| == |attendees| + 1
    ensures q.items[0] == PrimaryCalendar
    ensures forall i :: 0 <= i < |attendees| ==> q.items[i + 1] == attendees[i]
  {
    FreeBusyQuery(window.start, window.end, [PrimaryCalendar] + attendees)
  }

  /** A calendar's busy periods; a missing list reads as empty. */
  function BusyOf(c: CalendarBusy): seq<TimePeriod> {
    c.busy.GetOr([])
  }

  /** Every calendar's busy periods concatenated, in calendar order. */
  function AllBusy(calendars: seq<CalendarBusy>): (r: seq<TimePeriod>)
    ensures r == [] <==> forall k :: 0 <= k < |calendars| ==> BusyOf(calendars[k]) == []
  {
    if |calendars| == 0 then []
    else
      assert (forall k :: 0 <= k < |calendars| ==> BusyOf(calendars[k]) == []) <==>
             BusyOf(calendars[0]) == [] && forall k :: 0 <= k < |calendars[1..]| ==> BusyOf(calendars[1..][k]) == [] by {
        forall k | 0 < k < |calendars|
          ensures calendars[k] == calendars[1..][k - 1]
        {
        }
      }
      BusyOf(calendars[0]) + AllBusy(calendars[1..])
  }

  /** Every busy period of every calendar has both bounds. */
  predicate ResponseBounded(calendars: seq<CalendarBusy>) {
    forall k :: 0 <= k < |calendars| ==> AllBounded(BusyOf(calendars[k]))
  }

  /** Some calendar is busy at `t`. */
  predicate AnyoneBusy(calendars: seq<CalendarBusy>, t: Instant) {
    exists k :: 0 <= k < |calendars| && BusyAt(BusyOf(calendars[k]), t)
  }

  /** The unformatted free slots: merge everyone's busy periods, then derive the gaps. */
  function CombinedFreeSpans(window: Span, calendars: seq<CalendarBusy>): (r: seq<Span>)
    requires ResponseBounded(calendars)
    ensures forall i :: 0 <= i < |r| ==> window.start <= r[i].start < r[i].end
  {
    AllBusyBounded(calendars);
    FindFreeTimes(window, MergeBusyTimes(AllBusy(calendars)))
  }

  function FormatPeriods(ss: seq<Span>, fmt: Instant -> string): (r: seq<FormattedPeriod>)
    ensures |r| == |ss|
    ensures forall i :: 0 <= i < |ss| ==> r[i] == FormattedPeriod(fmt(ss[i].start), fmt(ss[i].end))
  {
    seq(|ss|, i requires 0 <= i < |ss| => FormattedPeriod(fmt(ss[i].start), fmt(ss[i].end)))
  }

  /** `formatIndividualBusyTimes`: each calendar's own busy periods, formatted, in key order. */
  function FormatIndividual(calendars: seq<CalendarBusy>, fmt: Instant -> string): (r: seq<(string, seq<FormattedPeriod>)>)
    requires ResponseBounded(calendars)
    ensures |r| == |calendars|
    ensures forall k :: 0 <= k < |calendars| ==>
              r[k].0 == calendars[k].id && |r[k].1| == |BusyOf(calendars[k])|
    ensures forall k, i :: 0 <= k < |calendars| && 0 <= i < |BusyOf(calendars[k])| ==>
              r[k].1[i] == FormattedPeriod(fmt(BusyOf(calendars[k])[i].start.value), fmt(BusyOf(calendars[k])[i].end.value))
  {
    seq(|calendars|, k requires 0 <= k < |calendars| && ResponseBounded(calendars) =>
      (calendars[k].id, FormatPeriods(Spans(BusyOf(calendars[k])), fmt)))
  }

  /** The calendars of a provider answer; a missing map reads as empty. */
  function CalendarsOf(response: Option<seq<CalendarBusy>>): seq<CalendarBusy> {
    response.GetOr([])
  }

  /** The calendars the provider answers for the query of a window and attendees. */
  function Answer(window: Span, attendees: seq<string>, provider: FreeBusyQuery -> Option<seq<CalendarBusy>>): seq<CalendarBusy> {
    CalendarsOf(provider(QueryFor(window, attendees)))
  }

  /** Inside the window, an instant lies in `free` exactly when no calendar is busy then. */
  predicate FreeForAll(window: Span, calendars: seq<CalendarBusy>, free: seq<Span>) {
    forall t :: window.start <= t < window.end ==> (Covered(free, t) <==> !AnyoneBusy(calendars, t))
  }

  /**
   * `findFreeMeetingSlots` over the window from now to the given number of
   * days ahead, with `provider` answering the query. There is
   * no result when a busy period lacks a bound: the source fails formatting it.
   */
  function FindFreeMeetingSlots(
    window: Span,
    attendees: seq<string>,
    provider: FreeBusyQuery -> Option<seq<CalendarBusy>>,
    fmt: Instant -> string): (r: Option<FreeSlotResult>)
    ensures r.None? <==> !ResponseBounded(Answer(window, attendees, provider))
    ensures r.Some? ==>
              |r.value.individualBusyTimes| == |Answer(window, attendees, provider)| &&
              forall k :: 0 <= k < |Answer(window, attendees, provider)| ==>
                r.value.individualBusyTimes[k] ==
                (Answer(window, attendees, provider)[k].id, FormatPeriods(Usable(BusyOf(Answer(window, attendees, provider)[k])), fmt))
    ensures r.Some? ==>
              exists free: seq<Span> :: r.value.combinedFreeSlots == FormatPeriods(free, fmt) &&
                FreeForAll(window, Answer(window, attendees, provider), free) &&
                forall i :: 0 <= i < |free| ==> window.start <= free[i].start < free[i].end
  {
    var calendars := Answer(window, attendees, provider);
    if !ResponseBounded(calendars) then None
    else
      SlotResultFacts(window, calendars, fmt);
      Some(SlotResult(window, calendars, fmt))
  }

  /** For an answer whose busy periods all carry both bounds, the pipeline's result is the pair of lists. */
  lemma {:induction false} MeetingSlotsValue(
    window: Span,
    attendees: seq<string>,
    provider: FreeBusyQuery -> Option<seq<CalendarBusy>>,
    fmt: Instant -> string)
    requires ResponseBounded(Answer(window, attendees, provider))
    ensures FindFreeMeetingSlots(window, attendees, provider, fmt) == Some(SlotResult(window, Answer(window, attendees, provider), fmt))
  {
  }

  /** Both lists of the result, for an answer whose busy periods all carry both bounds. */
  function SlotResult(window: Span, calendars: seq<CalendarBusy>, fmt: Instant -> string): FreeSlotResult
    requires ResponseBounded(calendars)
  {
    FreeSlotResult(FormatIndividual(calendars, fmt), FormatPeriods(CombinedFreeSpans(window, calendars), fmt))
  }

  /** The result lists each calendar's usable busy periods and slots free for everyone, inside the window. */
  lemma {:induction false} SlotResultFacts(window: Span, calendars: seq<CalendarBusy>, fmt: Instant -> string)
    requires ResponseBounded(calendars)
    ensures |SlotResult(window, calendars, fmt).individualBusyTimes| == |calendars|
    ensures forall k :: 0 <= k < |calendars| ==>
              SlotResult(window, calendars, fmt).individualBusyTimes[k] == (calendars[k].id, FormatPeriods(Usable(BusyOf(calendars[k])), fmt))
    ensures exists free: seq<Span> :: SlotResult(window, calendars, fmt).combinedFreeSlots == FormatPeriods(free, fmt) &&
              FreeForAll(window, calendars, free) &&
              forall i :: 0 <= i < |free| ==> window.start <= free[i].start < free[i].end
  {
    CombinedFreeIsFree(window, calendars);
    IndividualUsable(calendars, fmt);
    var free := CombinedFreeSpans(window, calendars);
    assert SlotResult(window, calendars, fmt).combinedFreeSlots == FormatPeriods(free, fmt);
  }

  /** The combined free spans are free for every calendar. */
  lemma {:induction false} CombinedFreeIsFree(window: Span, calendars: seq<CalendarBusy>)
    requires ResponseBounded(calendars)
    ensures FreeForAll(window, calendars, CombinedFreeSpans(window, calendars))
  {
    forall t | window.start <= t < window.end
      ensures Covered(CombinedFreeSpans(window, calendars), t) <==> !AnyoneBusy(calendars, t)
    {
      FreeForEveryone(window, calendars, t);
    }
  }

  /** Each calendar's entry formats its own busy periods, in order. */
  lemma {:induction false} IndividualUsable(calendars: seq<CalendarBusy>, fmt: Instant -> string)
    requires ResponseBounded(calendars)
    ensures forall k :: 0 <= k < |calendars| ==>
              FormatIndividual(calendars, fmt)[k] == (calendars[k].id, FormatPeriods(Usable(BusyOf(calendars[k])), fmt))
  {
    forall k | 0 <= k < |calendars|
      ensures FormatIndividual(calendars, fmt)[k] == (calendars[k].id, FormatPeriods(Usable(BusyOf(calendars[k])), fmt))
    {
      UsableOfBounded(BusyOf(calendars[k]));
    }
  }

  // ---------------------------------------------------------------------
  // Flattening

  /** Flattening keeps the provider's calendar order. */
  lemma {:induction false} AllBusyAppend(a: seq<CalendarBusy>, b: seq<CalendarBusy>)
    ensures AllBusy(a + b) == AllBusy(a) + AllBusy(b)
  {
    if |a| == 0 {
      assert a + b == b;
    } else {
      assert (a + b)[1..] == a[1..] + b;
      AllBusyAppend(a[1..], b);
    }
  }

  lemma {:induction false} AllBusyBounded(calendars: seq<CalendarBusy>)
    requires ResponseBounded(calendars)
    ensures AllBounded(AllBusy(calendars))
  {
    if |calendars| > 0 {
      AllBusyBounded(calendars[1..]);
      assert AllBounded(BusyOf(calendars[0]));
    }
  }

  lemma {:induction false} BusyAtAppend(a: seq<TimePeriod>, b: seq<TimePeriod>, t: Instant)
    ensures BusyAt(a + b, t) <==> BusyAt(a, t) || BusyAt(b, t)
  {
    if BusyAt(a + b, t) {
      var i :| 0 <= i < |a + b| && (a + b)[i].Bounded() && Contains(AsSpan((a + b)[i]), t);
      if i >= |a| {
        assert b[i - |a|] == (a + b)[i];
      } else {
        assert a[i] == (a + b)[i];
      }
    }
    if BusyAt(a, t) {
      var i :| 0 <= i < |a| && a[i].Bounded() && Contains(AsSpan(a[i]), t);
      assert (a + b)[i] == a[i];
    }
    if BusyAt(b, t) {
      var i :| 0 <= i < |b| && b[i].Bounded() && Contains(AsSpan(b[i]), t);
      assert (a + b)[|a| + i] == b[i];
    }
  }

  /** An instant is busy in the flattened list iff some calendar is busy then. */
  lemma {:induction false} AllBusyCovers(calendars: seq<CalendarBusy>, t: Instant)
    ensures BusyAt(AllBusy(calendars), t) <==> AnyoneBusy(calendars, t)
  {
    if |calendars| > 0 {
      AllBusyCovers(calendars[1..], t);
      BusyAtAppend(BusyOf(calendars[0]), AllBusy(calendars[1..]), t);
      if AnyoneBusy(calendars[1..], t) {
        var k :| 0 <= k < |calendars[1..]| && BusyAt(BusyOf(calendars[1..][k]), t);
        assert calendars[k + 1] == calendars[1..][k];
      }
      if AnyoneBusy(calendars, t) && !BusyAt(BusyOf(calendars[0]), t) {
        var k :| 0 <= k < |calendars| && BusyAt(BusyOf(calendars[k]), t);
        assert calendars[1..][k - 1] == calendars[k];
      }
    }
  }

  // ---------------------------------------------------------------------
  // Merge, then complement

  /** Walking two touching periods is walking their union. */
  lemma {:induction false} WalkCoalesce(cursor: Instant, a: Span, b: Span, rest: seq<Span>, windowEnd: Instant)
    requires b.start <= a.end
    ensures Walk(cursor, [a] + ([b] + rest), windowEnd) == Walk(cursor, [Span(a.start, Max(a.end, b.end))] + rest, windowEnd)
  {
    var c := Span(a.start, Max(a.end, b.end));
    WalkCons(cursor, a, [b] + rest, windowEnd);
    WalkCons(Advance(cursor, a), b, rest, windowEnd);
    WalkCons(cursor, c, rest, windowEnd);
    assert Gap(Advance(cursor, a), b) == [];
    assert Gap(cursor, a) == Gap(cursor, c);
    assert Advance(Advance(cursor, a), b) == Advance(cursor, c);
  }

  /** Walking a merged list yields the same slots as walking the sorted list it came from. */
  lemma {:induction false} WalkMergeFrom(cursor: Instant, cur: Span, rest: seq<Span>, windowEnd: Instant)
    requires SortedByStart(rest)
    requires StartsAfter(cur, rest)
    ensures Walk(cursor, MergeFrom(cur, rest), windowEnd) == Walk(cursor, [cur] + rest, windowEnd)
    decreases |rest|
  {
    if |rest| > 0 {
      assert [rest[0]] + rest[1..] == rest;
      if rest[0].start <= cur.end {
        var cur' := Span(cur.start, Max(cur.end, rest[0].end));
        WalkMergeFrom(cursor, cur', rest[1..], windowEnd);
        WalkCoalesce(cursor, cur, rest[0], rest[1..], windowEnd);
      } else {
        var tail := MergeFrom(rest[0], rest[1..]);
        WalkMergeFrom(Advance(cursor, cur), rest[0], rest[1..], windowEnd);
        WalkCons(cursor, cur, tail, windowEnd);
        WalkCons(cursor, cur, rest, windowEnd);
      }
    }
  }

  /** Merging before deriving free slots changes nothing: the merge only normalises. */
  lemma {:induction false} MergeThenFree(window: Span, busy: seq<TimePeriod>)
    requires AllBounded(busy)
    ensures FindFreeTimes(window, MergeBusyTimes(busy)) == FindFreeTimes(window, busy)
  {
    var spans := Spans(busy);
    var m := MergeSpans(spans);
    UsableOfBounded(Periods(m));
    UsableOfBounded(busy);
    SortSorted(m);
    if |spans| > 0 {
      var s := SortByStart(spans);
      WalkMergeFrom(window.start, s[0], s[1..], window.end);
      assert [s[0]] + s[1..] == s;
    }
  }

  /**
   * Inside the window, an instant lies in a combined free slot exactly when
   * no queried calendar is busy then: the slots are free for everyone.
   */
  lemma {:induction false} FreeForEveryone(window: Span, calendars: seq<CalendarBusy>, t: Instant)
    requires ResponseBounded(calendars)
    requires window.start <= t < window.end
    ensures Covered(CombinedFreeSpans(window, calendars), t) <==> !AnyoneBusy(calendars, t)
  {
    AllBusyBounded(calendars);
    var all := AllBusy(calendars);
    FreeTimesExact(window, MergeBusyTimes(all), t);
    MergeBusyTimesCovers(all, t);
    AllBusyCovers(calendars, t);
  }

  /** Over ordered bounds, the combined free slots are ascending and pairwise disjoint. */
  lemma {:induction false} CombinedFreeSequential(window: Span, calendars: seq<CalendarBusy>)
    requires ResponseBounded(calendars)
    requires BoundsOrdered(AllBusy(calendars))
    ensures Sequential(CombinedFreeSpans(window, calendars))
  {
    AllBusyBounded(calendars);
    MergeThenFree(window, AllBusy(calendars));
    FreeTimesSequential(window, AllBusy(calendars));
  }

  /** With no busy period anywhere, the one free slot is the whole window. */
  lemma {:induction false} CombinedFreeWithoutBusy(window: Span, calendars: seq<CalendarBusy>)
    requires ResponseBounded(calendars)
    requires AllBusy(calendars) == []
    ensures CombinedFreeSpans(window, calendars) == (if window.start < window.end then [window] else [])
  {
    FreeTimesWithoutBusy(window, MergeBusyTimes([]));
  }

  /** With no busy period anywhere, the pipeline reports the whole window as its one free slot. */
  lemma {:induction false} MeetingSlotsWithoutBusy(
    window: Span,
    attendees: seq<string>,
    provider: FreeBusyQuery -> Option<seq<CalendarBusy>>,
    fmt: Instant -> string)
    requires forall k :: 0 <= k < |Answer(window, attendees, provider)| ==> BusyOf(Answer(window, attendees, provider)[k]) == []
    requires window.start < window.end
    ensures FindFreeMeetingSlots(window, attendees, provider, fmt).Some?
    ensures FindFreeMeetingSlots(window, attendees, provider, fmt).value.combinedFreeSlots ==
              [FormattedPeriod(fmt(window.start), fmt(window.end))]
  {
    var calendars := Answer(window, attendees, provider);
    assert ResponseBounded(calendars);
    assert AllBusy(calendars) == [];
    CombinedFreeWithoutBusy(window, calendars);
    MeetingSlotsValue(window, attendees, provider, fmt);
    assert SlotResult(window, calendars, fmt).combinedFreeSlots == FormatPeriods([window], fmt);
  }
}
