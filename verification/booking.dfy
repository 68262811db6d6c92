/**
 * Booking-parameter resolution (`bookEvent`): attendees, date, time and
 * purpose are read from the classifier's entities; summary and description
 * come from the language model's delimited JSON reply, falling back to fixed
 * defaults; the event details are then handed to `createCalendarEvent`.
 *
 * The language-model round trip (prompt, reply, delimiter match and
 * `JSON.parse`) is a parameter `summarize` yielding the parsed fields or
 * `None`; the provider's insert call and the serialisation of the created
 * event is a parameter `createEvent`.
 */
module Booking {
  import opened Wrappers
  import opened Text
  import opened CalendarEvent

  const AttendeeTag: string := "attendee"
  const DateTag: string := "date"
  const TimeTag: string := "time"
  const DescriptionTag: string := "description"

  const DefaultAttendee: string := "default@example.com"
  const DefaultPurpose: string := "No specific agenda"
  const DefaultSummary: string := "General Meeting"
  const DefaultDescription: string := "No description provided"
  const DefaultStartTime: string := "10:00:00"
  const DefaultEndTime: string := "11:00:00"
  const FallbackStart: string := "2024-09-15T10:00:00"
  const FallbackEnd: string := "2024-09-15T11:00:00"
  const NotSpecified: string := "not specified"
  const ScheduledPrefix: string := "Meeting successfully scheduled, details: "

  /** The resolution part of a classifier entity (only the fields read here). */
  datatype Resolution = Resolution(date: Option<string>, start: Option<string>)

  /** A classifier entity: its tag, the matched text and an optional resolution. */
  datatype Entity = Entity(entity: string, sourceText: string, resolution: Option<Resolution>)

  /** The summary and description fields of the model's JSON reply, when it parsed. */
  datatype ParsedFields = ParsedFields(summary: Option<string>, description: Option<string>)

  /** The four values interpolated into the summary prompt. */
  datatype SummaryRequest = SummaryRequest(attendees: string, date: string, time: string, purpose: string)

  /** JavaScript truthiness of an optional string: present and non-empty. */
  predicate Truthy(o: Option<string>) {
    o.Some? && o.value != ""
  }

  /** The value when it is truthy, the fallback otherwise: JavaScript's logical or. */
  function Or(o: Option<string>, fallback: string): (r: string)
    ensures Truthy(o) ==> r == o.value
    ensures !Truthy(o) ==> r == fallback
    ensures fallback != "" ==> r != ""
  {
    if Truthy(o) then o.value else fallback
  }

  /** The source texts of the entities tagged `attendee`, in order. */
  function AttendeesOf(entities: seq<Entity>): (r: seq<string>)
    ensures |r| <= |entities|
    ensures |r| == 0 <==> forall k :: 0 <= k < |entities| ==> entities[k].entity != AttendeeTag
  {
    if |entities| == 0 then []
    else if entities[0].entity == AttendeeTag then [entities[0].sourceText] + AttendeesOf(entities[1..])
    else AttendeesOf(entities[1..])
  }

  /** The first entity carrying the tag, if any. */
  function FindTagged(entities: seq<Entity>, tag: string): (r: Option<Entity>)
    ensures r.Some? ==> r.value in entities && r.value.entity == tag
    ensures r.None? <==> forall k :: 0 <= k < |entities| ==> entities[k].entity != tag
  {
    if |entities| == 0 then None
    else if entities[0].entity == tag then Some(entities[0])
    else FindTagged(entities[1..], tag)
  }

  /** The resolved date of the first entity tagged `date`, if it has one. */
  function DateEntity(entities: seq<Entity>): (r: Option<string>)
    ensures (forall k :: 0 <= k < |entities| ==> entities[k].entity != DateTag) ==> r.None?
  {
    match FindTagged(entities, DateTag)
    case Some(Entity(_, _, Some(res))) => res.date
    case _ => None
  }

  /** The resolved start of the first entity tagged `time`, if it has one. */
  function TimeEntity(entities: seq<Entity>): (r: Option<string>)
    ensures (forall k :: 0 <= k < |entities| ==> entities[k].entity != TimeTag) ==> r.None?
  {
    match FindTagged(entities, TimeTag)
    case Some(Entity(_, _, Some(res))) => res.start
    case _ => None
  }

  /** The text of the first entity tagged `description`, or the default agenda when there is none or it is empty. */
  function Purpose(entities: seq<Entity>): (r: string)
    ensures (forall k :: 0 <= k < |entities| ==> entities[k].entity != DescriptionTag) ==> r == DefaultPurpose
  {
    match FindTagged(entities, DescriptionTag)
    case Some(e) => Or(Some(e.sourceText), DefaultPurpose)
    case None => DefaultPurpose
  }

  /** The values the summary prompt shows: what is missing reads `not specified`. */
  function SummaryRequestFor(entities: seq<Entity>): (r: SummaryRequest)
    ensures |AttendeesOf(entities)| == 0 ==> r.attendees == NotSpecified
    ensures |AttendeesOf(entities)| > 0 ==> r.attendees == Join(AttendeesOf(entities), ", ")
    ensures Truthy(DateEntity(entities)) ==> r.date == DateEntity(entities).value
    ensures !Truthy(DateEntity(entities)) ==> r.date == NotSpecified
    ensures Truthy(TimeEntity(entities)) ==> r.time == TimeEntity(entities).value
    ensures !Truthy(TimeEntity(entities)) ==> r.time == NotSpecified
    ensures r.purpose == Purpose(entities)
  {
    var attendees := AttendeesOf(entities);
    SummaryRequest(
      if |attendees| > 0 then Join(attendees, ", ") else NotSpecified,
      Or(DateEntity(entities), NotSpecified),
      Or(TimeEntity(entities), NotSpecified),
      Purpose(entities))
  }

  /**
   * The start and end strings built from the date and time entities: the
   * fixed fallback without a date; otherwise the date, `T`, and the time or
   * a default hour. Start and end coincide exactly when both are given.
   */
  function Times(date: Option<string>, time: Option<string>): (r: (string, string))
    ensures !Truthy(date) ==> r == (FallbackStart, FallbackEnd)
    ensures Truthy(date) ==> date.value + "T" <= r.0 && date.value + "T" <= r.1
    ensures r.0 == r.1 <==> Truthy(date) && Truthy(time)
  {
    if Truthy(date) then
      var prefix := date.value + "T";
      var r := (prefix + Or(time, DefaultStartTime), prefix + Or(time, DefaultEndTime));
      assert !Truthy(time) ==> r.0[|prefix| + 1] == '0' && r.1[|prefix| + 1] == '1';
      r
    else
      assert FallbackStart[12] == '0' && FallbackEnd[12] == '1';
      (FallbackStart, FallbackEnd)
  }

  /**
   * The summary/description pair: the parsed fields where truthy, the
   * defaults otherwise; the booked summary and description are never empty.
   */
  function Texts(parsed: Option<ParsedFields>): (r: (string, string))
    ensures r.0 != "" && r.1 != ""
    ensures parsed.Some? && Truthy(parsed.value.summary) ==> r.0 == parsed.value.summary.value
    ensures !(parsed.Some? && Truthy(parsed.value.summary)) ==> r.0 == DefaultSummary
    ensures parsed.Some? && Truthy(parsed.value.description) ==> r.1 == parsed.value.description.value
    ensures !(parsed.Some? && Truthy(parsed.value.description)) ==> r.1 == DefaultDescription
  {
    match parsed
    case None => (DefaultSummary, DefaultDescription)
    case Some(p) => (Or(p.summary, DefaultSummary), Or(p.description, DefaultDescription))
  }

  /** The `eventDetails` object of `bookEvent`. */
  function ResolveEventDetails(entities: seq<Entity>, parsed: Option<ParsedFields>): (d: EventDetails)
    ensures d.attendees.Some? && |d.attendees.value| >= 1
  {
    var attendees := AttendeesOf(entities);
    var times := Times(DateEntity(entities), TimeEntity(entities));
    var texts := Texts(parsed);
    EventDetails(
      texts.0,
      texts.1,
      times.0,
      times.1,
      Some(if |attendees| > 0 then attendees else [DefaultAttendee]))
  }

  /**
   * `bookEvent`: the confirmation embedding the created event, which carries
   * exactly the resolved details, at least one attendee and UTC times.
   */
  function BookEvent(
    entities: seq<Entity>,
    summarize: SummaryRequest -> Option<ParsedFields>,
    createEvent: Event -> string): (r: string)
    ensures exists e: Event ::
              r == ScheduledPrefix + createEvent(e) &&
              DetailsOf(e) == ResolveEventDetails(entities, summarize(SummaryRequestFor(entities))) &&
              e.attendees.Some? && |e.attendees.value| >= 1 &&
              e.start.timeZone == EventTimeZone && e.end.timeZone == EventTimeZone
  {
    var details := ResolveEventDetails(entities, summarize(SummaryRequestFor(entities)));
    ToEventRoundTrip(details);
    ScheduledPrefix + createEvent(ToEvent(details))
  }

  // ---------------------------------------------------------------------
  // Attendees

  /** The attendees are exactly the texts of the entities tagged `attendee`. */
  lemma {:induction false} AttendeesOfMembers(entities: seq<Entity>, x: string)
    ensures x in AttendeesOf(entities) <==>
              exists k :: 0 <= k < |entities| && entities[k].entity == AttendeeTag && entities[k].sourceText == x
  {
    if |entities| > 0 {
      AttendeesOfMembers(entities[1..], x);
      if exists k :: 0 <= k < |entities| && entities[k].entity == AttendeeTag && entities[k].sourceText == x {
        var k :| 0 <= k < |entities| && entities[k].entity == AttendeeTag && entities[k].sourceText == x;
        if k > 0 {
          assert entities[1..][k - 1] == entities[k];
        }
      }
      if x in AttendeesOf(entities[1..]) {
        var k :| 0 <= k < |entities[1..]| && entities[1..][k].entity == AttendeeTag && entities[1..][k].sourceText == x;
        assert entities[k + 1] == entities[1..][k];
      }
    }
  }

  /** The attendees keep the order of the entities: extraction distributes over concatenation. */
  lemma {:induction false} AttendeesOfAppend(a: seq<Entity>, b: seq<Entity>)
    ensures AttendeesOf(a + b) == AttendeesOf(a) + AttendeesOf(b)
  {
    if |a| == 0 {
      assert a + b == b;
    } else {
      assert (a + b)[1..] == a[1..] + b;
      AttendeesOfAppend(a[1..], b);
    }
  }

  /**
   * The event's attendees are the extracted attendees when some entity is
   * tagged `attendee`, and the single default address otherwise.
   */
  lemma {:induction false} ResolvedAttendees(entities: seq<Entity>, parsed: Option<ParsedFields>)
    ensures (exists k :: 0 <= k < |entities| && entities[k].entity == AttendeeTag) ==>
              ResolveEventDetails(entities, parsed).attendees == Some(AttendeesOf(entities))
    ensures (forall k :: 0 <= k < |entities| ==> entities[k].entity != AttendeeTag) ==>
              ResolveEventDetails(entities, parsed).attendees == Some([DefaultAttendee])
  {
    var a := AttendeesOf(entities);
    if exists k :: 0 <= k < |entities| && entities[k].entity == AttendeeTag {
      var k :| 0 <= k < |entities| && entities[k].entity == AttendeeTag;
      AttendeesOfMembers(entities, entities[k].sourceText);
    }
    if |a| > 0 {
      AttendeesOfMembers(entities, a[0]);
    }
  }

  // ---------------------------------------------------------------------
  // The summary prompt

  /** The date, time and purpose lines of the summary prompt are never blank. */
  lemma {:induction false} SummaryFieldsShown(entities: seq<Entity>)
    ensures SummaryRequestFor(entities).date != ""
    ensures SummaryRequestFor(entities).time != ""
    ensures SummaryRequestFor(entities).purpose != ""
  {
    assert NotSpecified != "" && DefaultPurpose != "";
  }

  /** Searching past an entity carrying another tag finds the same entity as searching without it. */
  lemma {:induction false} FindTaggedSkip(a: seq<Entity>, e: Entity, b: seq<Entity>, tag: string)
    requires e.entity != tag
    ensures FindTagged(a + [e] + b, tag) == FindTagged(a + b, tag)
  {
    if |a| == 0 {
      assert a + [e] + b == [e] + b && ([e] + b)[1..] == b;
      assert a + b == b;
    } else {
      assert (a + [e] + b)[1..] == a[1..] + [e] + b;
      assert (a + b)[1..] == a[1..] + b;
      FindTaggedSkip(a[1..], e, b, tag);
    }
  }

  /**
   * Only the `attendee`, `date`, `time` and `description` entities reach the
   * summary prompt: removing an entity with any other tag changes nothing.
   */
  lemma {:induction false} SummaryIgnoresOtherEntities(a: seq<Entity>, e: Entity, b: seq<Entity>)
    requires e.entity != AttendeeTag && e.entity != DateTag && e.entity != TimeTag && e.entity != DescriptionTag
    ensures SummaryRequestFor(a + [e] + b) == SummaryRequestFor(a + b)
  {
    AttendeesSkip(a, e, b);
    FindTaggedSkip(a, e, b, DateTag);
    FindTaggedSkip(a, e, b, TimeTag);
    FindTaggedSkip(a, e, b, DescriptionTag);
    assert DateEntity(a + [e] + b) == DateEntity(a + b);
    assert TimeEntity(a + [e] + b) == TimeEntity(a + b);
    assert Purpose(a + [e] + b) == Purpose(a + b);
  }

  /** An entity not tagged `attendee` contributes no attendee. */
  lemma {:induction false} AttendeesSkip(a: seq<Entity>, e: Entity, b: seq<Entity>)
    requires e.entity != AttendeeTag
    ensures AttendeesOf(a + [e] + b) == AttendeesOf(a + b)
  {
    assert AttendeesOf([e]) == [] by {
      assert [e][1..] == [];
    }
    AttendeesOfAppend(a, [e]);
    AttendeesOfAppend(a + [e], b);
    AttendeesOfAppend(a, b);
  }

  // ---------------------------------------------------------------------
  // Start and end

  /**
   * Start and end coincide exactly when both a date and a time entity are
   * present: the end is built from the same time as the start.
   */
  lemma {:induction false} StartEqualsEnd(entities: seq<Entity>, parsed: Option<ParsedFields>)
    ensures ResolveEventDetails(entities, parsed).start == ResolveEventDetails(entities, parsed).end <==>
              Truthy(DateEntity(entities)) && Truthy(TimeEntity(entities))
  {
    var date, time := DateEntity(entities), TimeEntity(entities);
    var d := ResolveEventDetails(entities, parsed);
    if Truthy(date) && !Truthy(time) {
      var n := |date.value|;
      assert d.start[n + 2] == '0';
      assert d.end[n + 2] == '1';
    } else if !Truthy(date) {
      assert d.start[12] == '0';
      assert d.end[12] == '1';
    }
  }

  /** Without a date entity the fixed fallback strings are used, whatever the time entity says. */
  lemma {:induction false} UndatedFallback(entities: seq<Entity>, parsed: Option<ParsedFields>)
    requires !Truthy(DateEntity(entities))
    ensures ResolveEventDetails(entities, parsed).start == FallbackStart
    ensures ResolveEventDetails(entities, parsed).end == FallbackEnd
  {
  }

  /** With a date entity both times are that date, a `T`, and the time entity or the default hour. */
  lemma {:induction false} DatedTimes(entities: seq<Entity>, parsed: Option<ParsedFields>)
    requires Truthy(DateEntity(entities))
    ensures ResolveEventDetails(entities, parsed).start ==
              DateEntity(entities).value + "T" + (if Truthy(TimeEntity(entities)) then TimeEntity(entities).value else DefaultStartTime)
    ensures ResolveEventDetails(entities, parsed).end ==
              DateEntity(entities).value + "T" + (if Truthy(TimeEntity(entities)) then TimeEntity(entities).value else DefaultEndTime)
  {
  }

  // ---------------------------------------------------------------------
  // Summary and description

  /**
   * A summary other than the default comes from a truthy parsed field, and
   * a truthy parsed field is always used; likewise for the description.
   */
  lemma {:induction false} TextsFromParsed(entities: seq<Entity>, parsed: Option<ParsedFields>)
    ensures var d := ResolveEventDetails(entities, parsed);
            (parsed.Some? && Truthy(parsed.value.summary) ==> d.summary == parsed.value.summary.value) &&
            (d.summary != DefaultSummary ==> parsed.Some? && Truthy(parsed.value.summary))
    ensures var d := ResolveEventDetails(entities, parsed);
            (parsed.Some? && Truthy(parsed.value.description) ==> d.description == parsed.value.description.value) &&
            (d.description != DefaultDescription ==> parsed.Some? && Truthy(parsed.value.description))
  {
  }

  /** A reply that could not be parsed books exactly what a reply with neither field books. */
  lemma {:induction false} ParseFailureKeepsDefaults(entities: seq<Entity>)
    ensures ResolveEventDetails(entities, None) == ResolveEventDetails(entities, Some(ParsedFields(None, None)))
    ensures ResolveEventDetails(entities, None).summary == DefaultSummary
    ensures ResolveEventDetails(entities, None).description == DefaultDescription
  {
  }

  // ---------------------------------------------------------------------
  // Purpose

  /** The purpose is the text of the first `description` entity, unless that text is empty. */
  lemma {:induction false} PurposeFromFirstDescription(entities: seq<Entity>, k: int)
    requires 0 <= k < |entities| && entities[k].entity == DescriptionTag
    requires forall j :: 0 <= j < k ==> entities[j].entity != DescriptionTag
    ensures Purpose(entities) == (if entities[k].sourceText != "" then entities[k].sourceText else DefaultPurpose)
  {
    FirstTagged(entities, DescriptionTag, k);
  }

  lemma {:induction false} FirstTagged(entities: seq<Entity>, tag: string, k: int)
    requires 0 <= k < |entities| && entities[k].entity == tag
    requires forall j :: 0 <= j < k ==> entities[j].entity != tag
    ensures FindTagged(entities, tag) == Some(entities[k])
  {
    if k > 0 {
      FirstTagged(entities[1..], tag, k - 1);
    }
  }

  /** The date is read from the first entity tagged `date`; it is absent when that entity has no resolution. */
  lemma {:induction false} DateFromFirst(entities: seq<Entity>, k: int)
    requires 0 <= k < |entities| && entities[k].entity == DateTag
    requires forall j :: 0 <= j < k ==> entities[j].entity != DateTag
    ensures DateEntity(entities) == (if entities[k].resolution.Some? then entities[k].resolution.value.date else None)
  {
    FirstTagged(entities, DateTag, k);
  }

  /** The time is read from the first entity tagged `time`; it is absent when that entity has no resolution. */
  lemma {:induction false} TimeFromFirst(entities: seq<Entity>, k: int)
    requires 0 <= k < |entities| && entities[k].entity == TimeTag
    requires forall j :: 0 <= j < k ==> entities[j].entity != TimeTag
    ensures TimeEntity(entities) == (if entities[k].resolution.Some? then entities[k].resolution.value.start else None)
  {
    FirstTagged(entities, TimeTag, k);
  }

  // ---------------------------------------------------------------------
  // The booking as a whole

  /** The event booked when nothing is known: default texts, fallback times, the default attendee. */
  const DefaultEvent: Event := Event(
    DefaultSummary, DefaultDescription,
    EventTime(FallbackStart, EventTimeZone), EventTime(FallbackEnd, EventTimeZone),
    Some([Attendee(DefaultAttendee)]))

  /**
   * With no attendee entity, no date entity and no usable summary reply,
   * the default event is the one created.
   */
  lemma {:induction false} BookEventDefaults(
    entities: seq<Entity>,
    summarize: SummaryRequest -> Option<ParsedFields>,
    createEvent: Event -> string)
    requires forall k :: 0 <= k < |entities| ==> entities[k].entity != AttendeeTag
    requires !Truthy(DateEntity(entities))
    requires summarize(SummaryRequestFor(entities)).None?
    ensures BookEvent(entities, summarize, createEvent) == ScheduledPrefix + createEvent(DefaultEvent)
  {
    var parsed := summarize(SummaryRequestFor(entities));
    ResolvedAttendees(entities, parsed);
    var d := ResolveEventDetails(entities, parsed);
    assert AttendeeRecords([DefaultAttendee]) == [Attendee(DefaultAttendee)];
    assert ToEvent(d) == DefaultEvent;
  }
}
