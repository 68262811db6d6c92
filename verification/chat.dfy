/**
 * The chat controller (`handleChatRequest`): an authorisation guard, then
 * one branch per detected query type, each producing the structured data
 * that is wrapped into that branch's prompt for the language model; any
 * other query type sends the raw message itself as the prompt.
 *
 * Every external call is a parameter: the provider's meeting list, its
 * free/busy answer, the language-model summary round trip and the event
 * insertion.  The outcome is the prompt that goes to the language model, the
 * 401 refusal, or the 500 failure the free-slot branch ends in when the
 * provider answers with a busy period lacking a bound.
 */
module Chat {
  import opened Wrappers
  import opened Intervals
  import opened Text
  import opened CalendarEvent
  import opened FreeBusy
  import opened Booking

  const NoMeetings: string := "No meetings found in the upcoming week."
  const NoFreeSlots: string := "No free slots available in the upcoming week."

  const MeetingInfoType: string := "meeting_info"
  const FreeSlotsType: string := "free_slots"
  const BookEventType: string := "book_event"

  const MeetingInfoPrompt: string := "Please summarize the my upcoming meetings based on the following information: "
  const FreeSlotsPrompt: string := "Based on my availability, suggest possible meeting times from the following free slots: "
  const BookEventPrompt: string := "A user has just booked a meeting with the following details: "
  const BookEventPromptEnd: string := ", please confirm the booking to them with adequate details."

  /** An upcoming event as listed by the provider: summary and start/end `dateTime`, each possibly absent. */
  datatype Meeting = Meeting(summary: Option<string>, start: Option<string>, end: Option<string>)

  /** The signed-in user, as far as the guard reads it. */
  datatype User = User(accessToken: Option<string>)

  /** The branches of the query-type dispatch. */
  datatype Branch = MeetingInfo | FreeSlots | Book | PassThrough

  /** The 401 refusal, the 500 failure, or the branch taken and the prompt sent to the language model. */
  datatype ChatOutcome = Unauthorized | ServerError | Prompt(branch: Branch, text: string)

  /** The answers of the external services one request may consult. */
  datatype Services = Services(
    week: Span,
    meetings: seq<Meeting>,
    freeBusy: FreeBusyQuery -> Option<seq<CalendarBusy>>,
    fmt: Instant -> string,
    summarize: SummaryRequest -> Option<ParsedFields>,
    createEvent: Event -> string)

  // ---------------------------------------------------------------------
  // Rendering

  /** A template literal's rendering of an optional value: absent reads `undefined`. */
  function Show(o: Option<string>): string {
    o.GetOr("undefined")
  }

  /** The three lines of one meeting: its summary, its start and its end, each behind a label. */
  function OwnLines(m: Meeting): seq<string> {
    ["Meeting: " + Show(m.summary), "Start: " + Show(m.start), "End: " + Show(m.end)]
  }

  /** One meeting's block: its three labelled lines joined by newlines. */
  function MeetingBlock(m: Meeting): (r: string)
    ensures r == Join(OwnLines(m), "\n")
  {
    var own := OwnLines(m);
    assert own[1..][1..] == [own[2]];
    assert Join(own[1..], "\n") == own[1] + "\n" + own[2];
    "Meeting: " + Show(m.summary) + "\n" + "Start: " + Show(m.start) + "\n" + "End: " + Show(m.end)
  }

  function MeetingBlocks(ms: seq<Meeting>): (r: seq<string>)
    ensures |r| == |ms|
  {
    seq(|ms|, i requires 0 <= i < |ms| => MeetingBlock(ms[i]))
  }

  /** `fetchMeetingInformation`: the sentinel, or one block per meeting separated by a blank line. */
  function RenderMeetings(ms: seq<Meeting>): (r: string)
    ensures r == NoMeetings <==> |ms| == 0
  {
    if |ms| == 0 then NoMeetings
    else
      var r := Join(MeetingBlocks(ms), "\n\n");
      assert r[0] == 'M';
      r
  }

  /** One free slot's line: a label, then its formatted start and end; a single line when they are. */
  function SlotLine(p: FormattedPeriod): (r: string)
    ensures "Free Slot: " <= r
    ensures '\n' !in p.start && '\n' !in p.end ==> '\n' !in r
  {
    "Free Slot: " + p.start + " - " + p.end
  }

  function SlotLines(slots: seq<FormattedPeriod>): (r: seq<string>)
    ensures |r| == |slots|
  {
    seq(|slots|, i requires 0 <= i < |slots| => SlotLine(slots[i]))
  }

  /** `fetchFreeSlots`'s rendering: the sentinel, or one line per free slot. */
  function RenderFreeSlots(slots: seq<FormattedPeriod>): (r: string)
    ensures r == NoFreeSlots <==> |slots| == 0
  {
    if |slots| == 0 then NoFreeSlots
    else
      var r := Join(SlotLines(slots), "\n");
      assert SlotLines(slots)[0][0] == 'F';
      assert NoFreeSlots[0] == 'N' by {
        assert NoFreeSlots == ['N'] + NoFreeSlots[1..];
      }
      assert r[0] == 'F';
      r
  }

  // ---------------------------------------------------------------------
  // Dispatch

  /** The guard passes only for a signed-in user holding a non-empty access token. */
  function Authorized(user: Option<User>): (ok: bool)
    ensures ok <==> user.Some? && user.value.accessToken.Some? && |user.value.accessToken.value| > 0
  {
    user.Some? && Truthy(user.value.accessToken)
  }

  /** The dispatch on the query type: each known type selects its own branch, anything else passes through. */
  function BranchOf(queryType: string): (r: Branch)
    ensures r == MeetingInfo <==> queryType == MeetingInfoType
    ensures r == FreeSlots <==> queryType == FreeSlotsType
    ensures r == Book <==> queryType == BookEventType
    ensures r == PassThrough <==> queryType != MeetingInfoType && queryType != FreeSlotsType && queryType != BookEventType
  {
    if queryType == MeetingInfoType then MeetingInfo
    else if queryType == FreeSlotsType then FreeSlots
    else if queryType == BookEventType then Book
    else PassThrough
  }

  /** The free/busy answer for the week, with no extra attendees. */
  function WeekCalendars(env: Services): seq<CalendarBusy> {
    Answer(env.week, [], env.freeBusy)
  }

  /**
   * `fetchFreeSlots`: the week's common free slots, rendered; it fails when
   * the answer holds a busy period without both bounds, and shows the
   * sentinel exactly when the combined free spans are empty.  Busy periods
   * reaching past the week can leave spans after its end, so the sentinel
   * is not the same as a week that is busy throughout.
   */
  function FetchFreeSlots(env: Services): (r: Option<string>)
    ensures r.None? <==> !ResponseBounded(WeekCalendars(env))
    ensures r.Some? ==> (r.value == NoFreeSlots <==> CombinedFreeSpans(env.week, WeekCalendars(env)) == [])
  {
    var found := FindFreeMeetingSlots(env.week, [], env.freeBusy, env.fmt);
    if found.None? then None else Some(RenderFreeSlots(found.value.combinedFreeSlots))
  }

  /** The prompt a branch sends to the language model; only the free-slot branch can fail. */
  function PromptFor(b: Branch, message: string, entities: seq<Entity>, env: Services): (r: Option<string>)
    ensures r.None? <==> b == FreeSlots && !ResponseBounded(WeekCalendars(env))
    ensures b == PassThrough ==> r == Some(message)
    ensures r.Some? && b == MeetingInfo ==> MeetingInfoPrompt <= r.value
    ensures r.Some? && b == FreeSlots ==> FreeSlotsPrompt <= r.value
    ensures r.Some? && b == Book ==> BookEventPrompt <= r.value
  {
    match b
    case MeetingInfo => Some(MeetingInfoPrompt + RenderMeetings(env.meetings))
    case FreeSlots =>
      var slots := FetchFreeSlots(env);
      if slots.None? then None else Some(FreeSlotsPrompt + slots.value)
    case Book => Some(BookEventPrompt + BookEvent(entities, env.summarize, env.createEvent) + BookEventPromptEnd)
    case PassThrough => Some(message)
  }

  /**
   * `handleChatRequest`: the guard, then exactly one branch; a failure in
   * the free-slot branch becomes the 500 answer.
   */
  function HandleChatRequest(
    user: Option<User>,
    queryType: string,
    message: string,
    entities: seq<Entity>,
    env: Services): (r: ChatOutcome)
    ensures r.Unauthorized? <==> !Authorized(user)
    ensures r.ServerError? <==> Authorized(user) && queryType == FreeSlotsType && !ResponseBounded(WeekCalendars(env))
    ensures r.Prompt? ==> r.branch == BranchOf(queryType)
  {
    if !Authorized(user) then Unauthorized
    else
      var b := BranchOf(queryType);
      var prompt := PromptFor(b, message, entities, env);
      if prompt.None? then ServerError else Prompt(b, prompt.value)
  }

  // ---------------------------------------------------------------------
  // Rendering, read back line by line

  /** The lines of the meeting listing: three per meeting, a blank line between meetings. */
  function MeetingLines(ms: seq<Meeting>): (r: seq<string>)
    requires |ms| > 0
    ensures |r| == 4 * |ms| - 1
  {
    if |ms| == 1 then OwnLines(ms[0]) else OwnLines(ms[0]) + [""] + MeetingLines(ms[1..])
  }

  /** The listing is the meeting lines joined by newlines. */
  lemma {:induction false} MeetingsAsLines(ms: seq<Meeting>)
    requires |ms| > 0
    ensures Join(MeetingBlocks(ms), "\n\n") == Join(MeetingLines(ms), "\n")
  {
    var own := OwnLines(ms[0]);
    if |ms| > 1 {
      var rest := MeetingLines(ms[1..]);
      MeetingsAsLines(ms[1..]);
      assert MeetingBlocks(ms)[1..] == MeetingBlocks(ms[1..]);
      JoinAppend(own, [""], "\n");
      JoinAppend(own + [""], rest, "\n");
      calc {
        Join(MeetingBlocks(ms), "\n\n");
        MeetingBlock(ms[0]) + "\n\n" + Join(rest, "\n");
        { BlankLine(Join(own, "\n"), Join(rest, "\n")); }
        Join(own, "\n") + "\n" + "" + "\n" + Join(rest, "\n");
        Join(own + [""], "\n") + "\n" + Join(rest, "\n");
        Join(MeetingLines(ms), "\n");
      }
    }
  }

  /** A blank-line separator is a newline, an empty line and a newline. */
  lemma {:induction false} BlankLine(a: string, b: string)
    ensures a + "\n\n" + b == a + "\n" + "" + "\n" + b
  {
    assert "\n\n" == "\n" + "" + "\n";
  }

  predicate NoNewline(o: Option<string>) {
    o.Some? ==> '\n' !in o.value
  }

  /**
   * Read back line by line, a non-empty listing gives each meeting's three
   * lines in order, separated by blank lines (when no field holds a newline).
   */
  lemma {:induction false} MeetingListingLines(ms: seq<Meeting>)
    requires |ms| > 0
    requires forall i :: 0 <= i < |ms| ==> NoNewline(ms[i].summary) && NoNewline(ms[i].start) && NoNewline(ms[i].end)
    ensures Split(RenderMeetings(ms), '\n') == MeetingLines(ms)
  {
    SplitMeetingLines(ms);
    SplitListing(ms);
  }

  lemma {:induction false} SplitMeetingLines(ms: seq<Meeting>)
    requires |ms| > 0
    requires forall i :: 0 <= i < |ms| ==> NoNewline(ms[i].summary) && NoNewline(ms[i].start) && NoNewline(ms[i].end)
    ensures Split(Join(MeetingLines(ms), "\n"), '\n') == MeetingLines(ms)
  {
    MeetingLinesClean(ms);
    SplitLines(MeetingLines(ms));
  }

  lemma {:induction false} SplitListing(ms: seq<Meeting>)
    requires |ms| > 0
    ensures Split(RenderMeetings(ms), '\n') == Split(Join(MeetingLines(ms), "\n"), '\n')
  {
    MeetingsAsLines(ms);
  }

  lemma {:induction false} SplitLines(lines: seq<string>)
    requires |lines| > 0
    requires forall i :: 0 <= i < |lines| ==> '\n' !in lines[i]
    ensures Split(Join(lines, "\n"), '\n') == lines
  {
    assert "\n" == ['\n'];
    SplitJoin(lines, '\n');
  }

  lemma {:induction false} MeetingLinesClean(ms: seq<Meeting>)
    requires |ms| > 0
    requires forall i :: 0 <= i < |ms| ==> NoNewline(ms[i].summary) && NoNewline(ms[i].start) && NoNewline(ms[i].end)
    ensures forall i :: 0 <= i < |MeetingLines(ms)| ==> '\n' !in MeetingLines(ms)[i]
  {
    var m := ms[0];
    assert '\n' !in Show(m.summary) && '\n' !in Show(m.start) && '\n' !in Show(m.end);
    assert '\n' !in "Meeting: " && '\n' !in "Start: " && '\n' !in "End: ";
    if |ms| > 1 {
      MeetingLinesClean(ms[1..]);
    }
  }

  /**
   * Read back line by line, a non-empty free-slot listing gives one
   * `Free Slot: start - end` line per slot, in order.
   */
  lemma {:induction false} FreeSlotListingLines(slots: seq<FormattedPeriod>)
    requires |slots| > 0
    requires forall i :: 0 <= i < |slots| ==> '\n' !in slots[i].start && '\n' !in slots[i].end
    ensures Split(RenderFreeSlots(slots), '\n') == SlotLines(slots)
  {
    assert '\n' !in "Free Slot: " && '\n' !in " - ";
    SplitLines(SlotLines(slots));
  }

  // ---------------------------------------------------------------------
  // Dispatch

  /** Any query type other than the three known ones sends the raw message, unchanged. */
  lemma {:induction false} PassThroughVerbatim(user: Option<User>, queryType: string, message: string, entities: seq<Entity>, env: Services)
    requires Authorized(user)
    requires queryType != MeetingInfoType && queryType != FreeSlotsType && queryType != BookEventType
    ensures HandleChatRequest(user, queryType, message, entities, env) == Prompt(PassThrough, message)
  {
  }

  /**
   * The meeting-information prompt embeds the sentinel when no meeting is
   * listed, and otherwise every meeting's three lines, a blank line between
   * meetings.
   */
  lemma {:induction false} MeetingInfoPromptLines(user: Option<User>, message: string, entities: seq<Entity>, env: Services)
    requires Authorized(user)
    ensures |env.meetings| == 0 ==>
              HandleChatRequest(user, MeetingInfoType, message, entities, env) == Prompt(MeetingInfo, MeetingInfoPrompt + NoMeetings)
    ensures |env.meetings| > 0 ==>
              HandleChatRequest(user, MeetingInfoType, message, entities, env) ==
              Prompt(MeetingInfo, MeetingInfoPrompt + Join(MeetingLines(env.meetings), "\n"))
  {
    if |env.meetings| > 0 {
      MeetingsAsLines(env.meetings);
    }
  }

  /**
   * When every busy period carries both bounds, the free-slot prompt embeds
   * the rendering of the week's free slots, derived from every calendar's
   * busy periods.
   */
  lemma {:induction false} FreeSlotsPromptFromCalendars(user: Option<User>, message: string, entities: seq<Entity>, env: Services)
    requires ResponseBounded(WeekCalendars(env))
    requires Authorized(user)
    ensures HandleChatRequest(user, FreeSlotsType, message, entities, env) ==
              Prompt(FreeSlots, FreeSlotsPrompt + RenderFreeSlots(FormatPeriods(CombinedFreeSpans(env.week, WeekCalendars(env)), env.fmt)))
  {
  }

  /** Without busy periods, the week's free slots render as one line spanning the week. */
  lemma {:induction false} FetchFreeSlotsWithoutBusy(env: Services)
    requires forall k :: 0 <= k < |WeekCalendars(env)| ==> BusyOf(WeekCalendars(env)[k]) == []
    requires env.week.start < env.week.end
    ensures FetchFreeSlots(env) == Some(SlotLine(FormattedPeriod(env.fmt(env.week.start), env.fmt(env.week.end))))
  {
    var calendars := WeekCalendars(env);
    assert forall k :: 0 <= k < |calendars| ==> BusyOf(calendars[k]) == [];
    MeetingSlotsWithoutBusy(env.week, [], env.freeBusy, env.fmt);
    var line := FormattedPeriod(env.fmt(env.week.start), env.fmt(env.week.end));
    var found := FindFreeMeetingSlots(env.week, [], env.freeBusy, env.fmt);
    assert found.Some? && found.value.combinedFreeSlots == [line];
    OneSlot(line);
  }

  /** A single free slot renders as its own line. */
  lemma {:induction false} OneSlot(line: FormattedPeriod)
    ensures RenderFreeSlots([line]) == SlotLine(line)
  {
    assert SlotLines([line]) == [SlotLine(line)];
  }

  /**
   * A provider answer without busy periods over a non-empty week yields one
   * free slot spanning the week; the sentinel is not used.
   */
  lemma {:induction false} FreeSlotsWhenNothingBusy(user: Option<User>, message: string, entities: seq<Entity>, env: Services)
    requires forall k :: 0 <= k < |WeekCalendars(env)| ==> BusyOf(WeekCalendars(env)[k]) == []
    requires Authorized(user)
    requires env.week.start < env.week.end
    ensures HandleChatRequest(user, FreeSlotsType, message, entities, env) ==
              Prompt(FreeSlots, FreeSlotsPrompt + SlotLine(FormattedPeriod(env.fmt(env.week.start), env.fmt(env.week.end))))
  {
    FetchFreeSlotsWithoutBusy(env);
  }

  /**
   * Booking always answers with a prompt embedding the confirmation of an
   * inserted event that carries exactly the details resolved from the
   * entities and the summary reply, at least one attendee and UTC times.
   */
  lemma {:induction false} BookingPrompt(user: Option<User>, message: string, entities: seq<Entity>, env: Services)
    requires Authorized(user)
    ensures exists e: Event ::
              HandleChatRequest(user, BookEventType, message, entities, env) ==
                Prompt(Book, BookEventPrompt + (ScheduledPrefix + env.createEvent(e)) + BookEventPromptEnd) &&
              DetailsOf(e) == ResolveEventDetails(entities, env.summarize(SummaryRequestFor(entities))) &&
              e.attendees.Some? && |e.attendees.value| >= 1 &&
              e.start.timeZone == EventTimeZone && e.end.timeZone == EventTimeZone
  {
    var details := ResolveEventDetails(entities, env.summarize(SummaryRequestFor(entities)));
    ToEventRoundTrip(details);
    var e := ToEvent(details);
    assert HandleChatRequest(user, BookEventType, message, entities, env) ==
             Prompt(Book, BookEventPrompt + (ScheduledPrefix + env.createEvent(e)) + BookEventPromptEnd);
  }

  /**
   * Booking with no attendee, no date and no usable summary reply sends the
   * default event: the default attendee, the fallback times and the default
   * texts.
   */
  lemma {:induction false} BookingDefaults(user: Option<User>, message: string, entities: seq<Entity>, env: Services)
    requires Authorized(user)
    requires forall k :: 0 <= k < |entities| ==> entities[k].entity != AttendeeTag
    requires !Truthy(DateEntity(entities))
    requires env.summarize(SummaryRequestFor(entities)).None?
    ensures HandleChatRequest(user, BookEventType, message, entities, env) ==
              Prompt(Book, BookEventPrompt + (ScheduledPrefix + env.createEvent(DefaultEvent)) + BookEventPromptEnd)
  {
    BookEventDefaults(entities, env.summarize, env.createEvent);
  }
}
