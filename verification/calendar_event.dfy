/**
 * The event record that `createCalendarEvent` hands to the provider's insert call:
 * summary and description copied, both times in the fixed `UTC` zone, and
 * each attendee address wrapped in a record holding it as its email.
 */
module CalendarEvent {
  import opened Wrappers

  const EventTimeZone: string := "UTC"

  /** `EventDetails`: what a caller asks to book. */
  datatype EventDetails = EventDetails(
    summary: string,
    description: string,
    start: string,
    end: string,
    attendees: Option<seq<string>>)

  datatype EventTime = EventTime(dateTime: string, timeZone: string)

  datatype Attendee = Attendee(email: string)

  /** The provider's event resource as sent. */
  datatype Event = Event(
    summary: string,
    description: string,
    start: EventTime,
    end: EventTime,
    attendees: Option<seq<Attendee>>)

  /** Each address becomes an attendee record carrying it as its email, in order. */
  function AttendeeRecords(emails: seq<string>): (r: seq<Attendee>)
    ensures |r| == |emails|
    ensures forall i :: 0 <= i < |emails| ==> r[i].email == emails[i]
  {
    seq(|emails|, i requires 0 <= i < |emails| => Attendee(emails[i]))
  }

  function Emails(records: seq<Attendee>): (r: seq<string>)
    ensures |r| == |records|
  {
    seq(|records|, i requires 0 <= i < |records| => records[i].email)
  }

  /** The event built by `createCalendarEvent`; a missing attendee list stays missing. */
  function ToEvent(d: EventDetails): (e: Event)
    ensures e.start.timeZone == EventTimeZone && e.end.timeZone == EventTimeZone
    ensures e.attendees.Some? <==> d.attendees.Some?
  {
    Event(
      d.summary,
      d.description,
      EventTime(d.start, EventTimeZone),
      EventTime(d.end, EventTimeZone),
      match d.attendees
      case None => None
      case Some(xs) => Some(AttendeeRecords(xs)))
  }

  /** The details an event was built from. */
  function DetailsOf(e: Event): EventDetails {
    EventDetails(
      e.summary,
      e.description,
      e.start.dateTime,
      e.end.dateTime,
      match e.attendees
      case None => None
      case Some(rs) => Some(Emails(rs)))
  }

  /** Each address becomes one record, in order, and nothing is lost. */
  lemma {:induction false} AttendeeRecordsRoundTrip(emails: seq<string>)
    ensures Emails(AttendeeRecords(emails)) == emails
  {
  }

  /** Building the event loses nothing of the details. */
  lemma {:induction false} ToEventRoundTrip(d: EventDetails)
    ensures DetailsOf(ToEvent(d)) == d
  {
    if d.attendees.Some? {
      AttendeeRecordsRoundTrip(d.attendees.value);
    }
  }
}
