# Free/busy engine and chat dispatch of an executive-assistant backend

This project models two parts of the assistant backend in Dafny. The first is
the calendar service's free/busy engine:
- `findFreeMeetingSlots` queries the provider for the primary calendar and
  the attendees.
- It flattens every calendar's busy periods.
- `mergeBusyTimes` merges the overlapping periods.
- `findFreeTimes` walks the merged periods to find the gaps in the window.

The second is the chat controller: the authorisation guard, the switch on the
detected query type, and the three branches that build the language-model
prompt:
- listing meetings;
- listing free slots;
- booking an event through `bookEvent` and `createCalendarEvent`.

A request ends in one of three ways: the 401 refusal, the 500 failure, or the
prompt sent to the language model. The 500 comes from the free-slot branch.
If any busy period in the provider's answer lacks a start or an end,
formatting that period throws, and the controller's catch turns the error
into the 500. The model makes that failure explicit: the pipeline returns no
result, and the chat outcome is `ServerError`.

Time is an integer instant. A busy or free period is a `Span` with both
bounds. A period as the provider sends it is a `TimePeriod`, and each of its
bounds may be missing. Coverage is half-open (`start <= t < end`). This is
the sense in which a free slot "avoids" busy time and "fills" the window.
Merging compares a start with the previous end using `<=`, so two periods
that touch are merged. The extent of a set of periods is therefore stated on
closed intervals over real time points (`Spanned`). That extent is what
merging preserves exactly. It is also what makes the merged form unique, and
so independent of input order.

Modules, in dependency order:
- `Wrappers`: `Option`.
- `Intervals`: spans, periods, coverage predicates, and the filter of usable periods.
- `StartOrder`: a stable insertion sort by start, standing for `Array.prototype.sort` with a start comparator.
- `BusyMerge`: `mergeBusyTimes`.
- `FreeTimes`: `findFreeTimes`.
- `FreeBusy`: the `findFreeMeetingSlots` pipeline.
- `CalendarEvent`: the event built by `createCalendarEvent`.
- `Text`: `join`, and a split used to read renderings back.
- `Booking`: `bookEvent`.
- `Chat`: `handleChatRequest`, `fetchMeetingInformation` and `fetchFreeSlots`.
- `Scenarios`: two worked examples on one day, in minutes.

External services are function-typed parameters of the model:
- the provider's free/busy answer;
- its meeting list;
- the language-model summary round trip;
- the event insertion;
- date formatting.

The booking code and the documented behaviour disagree in two places. The
model follows the code:
- When both a date and a time entity are present, the end is built from the
  same time as the start, so start and end coincide (`Booking.StartEqualsEnd`).
  It is not one hour later.
- The date and time entities are used as the classifier resolved them; no
  date parsing happens. Without a date entity, the fixed strings
  `2024-09-15T10:00:00` and `2024-09-15T11:00:00` are used, even when a time
  entity is present.

## Model

| member | source | states |
|---|---|---|
| Intervals.Usable | src/services/googleCalendar.ts:119 | the filter is never longer than its input, and keeps every period exactly when all of them carry both bounds |
| Intervals.UsableCovers | src/services/googleCalendar.ts:119 | filtering to periods with both bounds keeps exactly the instants that some bounded input period covers |
| Intervals.UsableAppend | src/services/googleCalendar.ts:119 | the filter keeps the input order: it distributes over concatenation |
| StartOrder.SortByStart | src/services/googleCalendar.ts:96 | the sorted sequence is ordered by start and is a permutation of the input |
| StartOrder.SortSorted | src/services/googleCalendar.ts:120 | sorting a sequence already ordered by start leaves it unchanged |
| StartOrder.PermutationCovers | src/services/googleCalendar.ts:96 | reordering the periods does not change which instants are busy |
| BusyMerge.MergeFrom | src/services/googleCalendar.ts:98-107 | the merge pass keeps the first start, never shortens the current period, and yields sorted periods each ending strictly before the next starts |
| BusyMerge.MergeSpans | src/services/googleCalendar.ts:93-109 | the merge of bounded spans is empty exactly when the input is, is no longer than the input, and is sorted with strictly positive gaps |
| BusyMerge.MergeBusyTimes | src/services/googleCalendar.ts:93-109 | the merge is empty exactly when the input is, is no longer than the input, and is sorted with strictly positive gaps |
| BusyMerge.MergeBusyTimesCovers | src/services/googleCalendar.ts:93-109 | an instant is busy after merging if and only if some input period covers it |
| BusyMerge.MergeSpansEncloses | src/services/googleCalendar.ts:102-103 | every input period lies inside some merged period |
| BusyMerge.MergeSpansOrigins | src/services/googleCalendar.ts:98-107 | every merged start is the start of some input period, and every merged end is the end of some input period |
| BusyMerge.MergeSpansSpans | src/services/googleCalendar.ts:102 | merging preserves the closed extent exactly, so touching periods merge |
| BusyMerge.ExtentDetermines | src/services/googleCalendar.ts:98-107 | two sequences of well-formed periods with strictly positive gaps and the same extent are equal |
| BusyMerge.MergePermutation | src/services/googleCalendar.ts:96 | the merge does not depend on the order of the input periods |
| BusyMerge.MergeIdempotent | src/services/googleCalendar.ts:93-109 | merging a merged sequence changes nothing |
| FreeTimes.Walk | src/services/googleCalendar.ts:121-135 | every slot the walk emits is non-empty and starts no earlier than the cursor |
| FreeTimes.FindFreeTimes | src/services/googleCalendar.ts:111-138 | every free slot is non-empty and starts no earlier than the window start; busy periods reaching beyond the window can yield slots outside it |
| FreeTimes.FreeTimesWithoutBusy | src/services/googleCalendar.ts:133-135 | with no usable busy period, the only free slot is the window itself, or there is none if the window is empty |
| FreeTimes.FreeTimesIgnoreUnbounded | src/services/googleCalendar.ts:119 | a busy period missing a bound has no effect on the free slots |
| FreeTimes.FreeTimesAvoidBusy | src/services/googleCalendar.ts:121-131 | no instant of a free slot is busy |
| FreeTimes.FreeTimesFillWindow | src/services/googleCalendar.ts:121-135 | every instant of the window is free or busy |
| FreeTimes.FreeTimesExact | src/services/googleCalendar.ts:111-138 | inside the window, an instant is in a free slot if and only if it is not busy |
| FreeTimes.FreeTimesSequential | src/services/googleCalendar.ts:120-131 | when every busy period starts no later than it ends, the free slots are pairwise disjoint and in ascending order |
| FreeTimes.FreeTimesInsideWindow | src/services/googleCalendar.ts:125-135 | when no busy period starts after the window, every free slot lies inside the window |
| FreeTimes.FreeTimesEmptyWhenFull | src/services/googleCalendar.ts:111-138 | when no busy period starts after the window, there is no free slot if and only if busy periods cover the whole window |
| FreeBusy.QueryFor | src/services/googleCalendar.ts:69-75 | the query spans the window and asks for `primary` first, then each attendee in order |
| FreeBusy.AllBusy | src/services/googleCalendar.ts:79-82 | the flattened list is empty if and only if every calendar has no busy period |
| FreeBusy.AllBusyAppend | src/services/googleCalendar.ts:79-82 | flattening keeps the calendar order: it distributes over concatenation |
| FreeBusy.AllBusyCovers | src/services/googleCalendar.ts:79-82 | an instant is busy in the flattened list if and only if some calendar is busy at it |
| FreeBusy.CombinedFreeSpans | src/services/googleCalendar.ts:84-85 | every combined free span is non-empty and starts no earlier than the window start |
| FreeBusy.FormatPeriods | src/services/googleCalendar.ts:140-145 | each slot is formatted bound by bound, one output per slot, in order |
| FreeBusy.FormatIndividual | src/services/googleCalendar.ts:147-157 | there is one entry per calendar, under its id, holding each of its busy periods formatted bound by bound, in order |
| FreeBusy.FindFreeMeetingSlots | src/services/googleCalendar.ts:58-91 | there is no result if and only if some busy period of the answer lacks a bound, as formatting it for the per-calendar listing throws; otherwise there is one entry per calendar holding that calendar's own busy periods formatted, and the free slots format spans that start no earlier than the window start and, inside the window, cover an instant exactly when no calendar is busy at it |
| FreeBusy.CombinedFreeIsFree | src/services/googleCalendar.ts:79-85 | inside the window, an instant lies in a combined free span if and only if no calendar is busy at it |
| FreeBusy.IndividualUsable | src/services/googleCalendar.ts:147-157 | each calendar's entry holds its own busy periods, in order, formatted |
| FreeBusy.MergeThenFree | src/services/googleCalendar.ts:84-85 | deriving free slots from the merged busy periods gives the same slots as deriving them from the unmerged ones |
| FreeBusy.FreeForEveryone | src/services/googleCalendar.ts:79-85 | inside the window, an instant is in a combined free slot if and only if no calendar is busy at it |
| FreeBusy.CombinedFreeSequential | src/services/googleCalendar.ts:84-85 | when every busy period starts no later than it ends, the combined free slots are pairwise disjoint and in ascending order |
| FreeBusy.CombinedFreeWithoutBusy | src/services/googleCalendar.ts:84-85 | with no busy period on any calendar, the combined free slot is the whole window |
| FreeBusy.MeetingSlotsWithoutBusy | src/services/googleCalendar.ts:84-89 | with no busy period on any calendar and a non-empty window, the pipeline succeeds and reports exactly one slot, the formatted window |
| CalendarEvent.AttendeeRecords | src/services/googleCalendar.ts:29 | there is one record per address, in order, carrying that address as its email |
| CalendarEvent.ToEvent | src/services/googleCalendar.ts:18-30 | both times carry the `UTC` zone, and attendees are present exactly when the details have them |
| CalendarEvent.AttendeeRecordsRoundTrip | src/services/googleCalendar.ts:29 | wrapping each address in a record loses nothing: reading the emails back gives the addresses in order |
| CalendarEvent.ToEventRoundTrip | src/services/googleCalendar.ts:18-30 | the event determines the details it was built from |
| Text.SplitJoin | src/controllers/chatController.ts:138-143 | splitting a join on its one-character separator gives back the pieces when none contains the separator |
| Text.JoinAppend | src/controllers/chatController.ts:138-143 | joining a concatenation joins the halves around one separator |
| Booking.Or | src/controllers/chatController.ts:100-101 | with a non-empty fallback, as every fallback in `bookEvent` is, the result is never empty |
| Booking.FindTagged | src/controllers/chatController.ts:66-69 | the entity found carries the tag and comes from the list; nothing is found exactly when no entity carries the tag |
| Booking.AttendeesOf | src/controllers/chatController.ts:63-64 | there is at most one attendee per entity, and none exactly when no entity is tagged `attendee` |
| Booking.AttendeesOfMembers | src/controllers/chatController.ts:63-64 | a text is an attendee if and only if some entity tagged `attendee` has it as source text |
| Booking.AttendeesOfAppend | src/controllers/chatController.ts:63-64 | attendees keep the order of the entities |
| Booking.FirstTagged | src/controllers/chatController.ts:66-69 | the entity found for a tag is the first entity carrying it |
| Booking.DateEntity | src/controllers/chatController.ts:66 | without an entity tagged `date` there is no date |
| Booking.DateFromFirst | src/controllers/chatController.ts:66 | the date is the resolved date of the first entity tagged `date`, and is absent when that entity has no resolution |
| Booking.TimeEntity | src/controllers/chatController.ts:67 | without an entity tagged `time` there is no time |
| Booking.TimeFromFirst | src/controllers/chatController.ts:67 | the time is the resolved start of the first entity tagged `time`, and is absent when that entity has no resolution |
| Booking.Purpose | src/controllers/chatController.ts:69 | without a `description` entity the purpose is `No specific agenda` |
| Booking.PurposeFromFirstDescription | src/controllers/chatController.ts:69 | the purpose is the text of the first `description` entity, or the default when that text is empty |
| Booking.SummaryFieldsShown | src/controllers/chatController.ts:75-77 | the summary prompt's date, time and purpose are never blank: a missing or empty value shows as `not specified` or the default agenda |
| Booking.SummaryIgnoresOtherEntities | src/controllers/chatController.ts:63-77 | only entities tagged `attendee`, `date`, `time` or `description` reach the summary prompt: removing an entity with any other tag leaves the request unchanged |
| Booking.Times | src/controllers/chatController.ts:112-113 | without a date the times are the fixed fallback strings; with one, both begin with the date and `T`; start and end are equal if and only if both a date and a time are given |
| Booking.Texts | src/controllers/chatController.ts:94-101 | the booked summary and description are never empty, whatever the reply holds |
| Booking.ResolveEventDetails | src/controllers/chatController.ts:109-115 | the event details always carry at least one attendee |
| Booking.ResolvedAttendees | src/controllers/chatController.ts:114 | the attendees are the extracted ones when any entity is tagged `attendee`, and `default@example.com` alone otherwise |
| Booking.StartEqualsEnd | src/controllers/chatController.ts:112-113 | start and end coincide if and only if both a date and a time entity are present |
| Booking.UndatedFallback | src/controllers/chatController.ts:112-113 | without a date entity, the times are the fixed fallback strings |
| Booking.DatedTimes | src/controllers/chatController.ts:112-113 | with a date entity, each time is the date, `T`, then the time entity or the default hour |
| Booking.TextsFromParsed | src/controllers/chatController.ts:94-107 | a parsed non-empty summary or description is always used, and a non-default one always comes from the reply |
| Booking.ParseFailureKeepsDefaults | src/controllers/chatController.ts:97-107 | a reply that cannot be parsed books the default summary and description, as a reply with neither field does |
| Booking.BookEvent | src/controllers/chatController.ts:109-119 | the confirmation is the fixed prefix followed by the serialisation of an inserted event that carries exactly the resolved details, at least one attendee, and `UTC` start and end times |
| Booking.BookEventDefaults | src/controllers/chatController.ts:60-120 | with no attendee, no date and no parsable reply, the created event is the default event |
| Chat.MeetingBlock | src/controllers/chatController.ts:139-142 | a meeting's block is its three labelled lines (summary, start, end) joined by newlines |
| Chat.RenderMeetings | src/controllers/chatController.ts:133-143 | the meeting listing is the sentinel if and only if there is no meeting |
| Chat.SlotLine | src/controllers/chatController.ts:162 | a slot's line begins with `Free Slot: ` and contains no newline when neither formatted bound does |
| Chat.RenderFreeSlots | src/controllers/chatController.ts:156-163 | the free-slot listing is the sentinel if and only if there is no free slot |
| Chat.MeetingsAsLines | src/controllers/chatController.ts:138-143 | joining the blocks with blank lines is joining the lines of all meetings, with an empty line between meetings, by newlines |
| Chat.MeetingListingLines | src/controllers/chatController.ts:138-143 | read back line by line, the listing gives each meeting's three lines in order, separated by empty lines |
| Chat.FreeSlotListingLines | src/controllers/chatController.ts:161-163 | read back line by line, the listing gives one `Free Slot: start - end` line per slot, in order |
| Chat.BranchOf | src/controllers/chatController.ts:31-49 | each known query type selects its own branch, and only that one; every other type passes through |
| Chat.FetchFreeSlots | src/controllers/chatController.ts:153-164 | the listing fails if and only if some busy period of the week's answer lacks a bound; otherwise it is the sentinel if and only if the combined free spans are empty (spans after the week's end count, so a week busy throughout can still list slots) |
| Chat.PromptFor | src/controllers/chatController.ts:31-49 | only the free-slot branch can fail, and only on such an answer; the pass-through prompt is the message; each other prompt begins with its branch's fixed text |
| Chat.HandleChatRequest | src/controllers/chatController.ts:19-55 | the request is refused if and only if there is no user or no non-empty access token; it fails with the 500 if and only if it is authorised, asks for free slots and the answer holds a period without both bounds; otherwise the prompt comes from the branch the query type selects |
| Chat.PassThroughVerbatim | src/controllers/chatController.ts:47-48 | any other query type sends the raw message unchanged |
| Chat.MeetingInfoPromptLines | src/controllers/chatController.ts:32-35 | the meeting prompt embeds the sentinel when nothing is listed, and every meeting's lines otherwise |
| Chat.FreeSlotsPromptFromCalendars | src/controllers/chatController.ts:37-40 | the free-slot prompt embeds the rendered combined free slots of the week |
| Chat.FetchFreeSlotsWithoutBusy | src/controllers/chatController.ts:153-164 | with no busy period, the free-slot listing is the single line spanning the week |
| Chat.FreeSlotsWhenNothingBusy | src/controllers/chatController.ts:37-40 | with no busy period, the free-slot prompt carries one slot spanning the week and not the sentinel |
| Chat.BookingPrompt | src/controllers/chatController.ts:42-45 | an authorised booking request always yields the booking prompt around the confirmation of an inserted event that carries exactly the resolved details, at least one attendee and `UTC` times |
| Chat.BookingDefaults | src/controllers/chatController.ts:42-45 | with nothing known, the booking prompt wraps the confirmation of the default event |
| Scenarios.MergeScenario | src/services/googleCalendar.ts:93-109 | 09:00–10:00, 09:30–11:00 and 13:00–14:00 merge to 09:00–11:00 and 13:00–14:00 |
| Scenarios.FreeScenario | src/services/googleCalendar.ts:111-138 | within 08:00–18:00, those merged periods leave 08:00–09:00, 11:00–13:00 and 14:00–18:00 free |

## Left out

- OAuth, the provider's HTTP calls and the language-model calls are not modelled. Their answers are parameters: the free/busy answer, the meeting list, the summary reply and the created event's serialisation.
- The clock and `addDays` are not modelled. The query window is a parameter.
- `formatDate` is a single opaque `Instant -> string` parameter. The source formats each free slot twice, first as ISO and then as `Pp zzzz`; the model treats that composition as one formatter. Date-string parsing through `new Date` is not modelled: instants are integers.
- The prompt to the language model, the `#+#` regular expression and `JSON.parse` are not modelled. Together they are the `summarize` parameter, which returns the parsed summary and description fields, or nothing when no JSON was found or parsing failed.
- `JSON.stringify` of the created event is part of the `createEvent` parameter.
- FreeBusy.FindFreeMeetingSlots: `mergeBusyTimes` updates the end of the last merged period in place. That object is shared with the provider's answer, so the source's `individualBusyTimes` shows the extended end for the first period of each merged group. The model computes without mutation, so each calendar's own periods are reported unchanged.
- BusyMerge.MergeBusyTimes: requires every period to carry both bounds. The pipeline calls it only on such answers. When a bound is missing, the request fails anyway: formatting that period for the per-calendar listing throws (src/services/googleCalendar.ts:150-154), so the merge's result is never observed. How the source merges with `new Date(undefined)` in comparisons is not modelled.
- BusyMerge.MergePermutation: requires every period to start no later than it ends, as the provider's periods do. Merging inverted periods in different orders can give different results.
- FreeTimes.FreeTimesSequential: requires every busy period to start no later than it ends. With inverted periods, the source's free slots can overlap.
- The `console.log` and `console.error` calls are not modelled, nor is the `async` control flow. The 500 response is modelled only for the failure the model's own code can cause: a busy period without both bounds. A failing external service is outside the model.
- `listUpcomingMeetings` is not modelled beyond its result. The provider's events are the `meetings` parameter.
- The query-detection middleware, the language-model service wrapper, routes, persistence and passport setup are not part of this model.
- The classifier entities are reduced to the fields `bookEvent` reads: the tag, the source text, and the resolution's `date` and `start`.

