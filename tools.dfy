/**
 * The two calendar tools the assistant exposes: `list_events` and `create_event`.
 *
 * The clock is an input (today's civil date in UTC); the calendar service is represented by
 * its answer to the one request each tool issues (a `ListResponse` or an `InsertResponse`),
 * and each tool reports the request it issued (the listing window, or the inserted event
 * body), `None` when it issued none.
 */
module Tools {
  import opened Wrappers
  import opened CivilDate
  import opened DateText

  // ---------------------------------------------------------------------------------------
  // Tool inputs
  // ---------------------------------------------------------------------------------------

  /** `day` is "today", "tomorrow" or a date such as "2025-05-10". */
  datatype ListEventsInput = ListEventsInput(day: string)

  /** Times are 24-hour "HH:MM" text; nothing checks them. */
  datatype CreateEventInput = CreateEventInput(
    title: string, date: string, startTime: string, endTime: string, description: string := "")

  // ---------------------------------------------------------------------------------------
  // The calendar service, as seen by the tools
  // ---------------------------------------------------------------------------------------

  /** The `start` object of a listed event: a timed `dateTime`, an all-day `date`, or neither. */
  datatype EventStart = EventStart(dateTime: Option<string>, date: Option<string>)

  /** A listed event; either key may be missing from the service's dictionary. */
  datatype RemoteEvent = RemoteEvent(summary: Option<string>, start: Option<EventStart>)

  /** The answer to a list request: the result's `items` entry (possibly missing), or an exception's text. */
  datatype ListResponse = Listed(items: Option<seq<RemoteEvent>>) | ListFailed(error: string)

  /** The answer to an insert request. */
  datatype InsertResponse = Inserted | InsertFailed(error: string)

  /** The listing window `[start 00:00 UTC, end 00:00 UTC)`. */
  datatype Window = Window(start: Date, end: Date)

  datatype EventDateTime = EventDateTime(dateTime: string, timeZone: string)

  /** The body sent to the service's insert call. */
  datatype EventBody = EventBody(summary: string, description: string, start: EventDateTime, end: EventDateTime)

  /** What a tool call ends with: the text it returns, or an exception that escapes it. */
  datatype Reply = Text(text: string) | Raised(exception: string)

  datatype CreateResult = CreateResult(reply: Reply, inserted: Option<EventBody>)

  const UnrecognizedMessage := "Unrecognized date format. Use 'today', 'tomorrow', or YYYY-MM-DD."
  const ErrorPrefix := "Error retrieving events: "
  /** The text of the `KeyError` raised by `event['start']`. */
  const MissingStartError := "'start'"
  const NoTitle := "(No title)"
  /** What an f-string makes of `None`. */
  const NoneText := "None"
  const ZoneLabel := "America/Chicago"
  const OverflowException := "OverflowError: date value out of range"
  const CheckMark := "\U{2705} "
  const CrossMark := "\U{274C} "

  // ---------------------------------------------------------------------------------------
  // Day resolution, shared by both tools
  // ---------------------------------------------------------------------------------------

  function LowerChar(c: char): char {
    if 'A' <= c <= 'Z' then (c as int + 32) as char else c
  }

  /** `str.lower()`, on the letters that can make up "today" or "tomorrow". */
  function Lower(s: string): string {
    seq(|s|, i requires 0 <= i < |s| => LowerChar(s[i]))
  }

  datatype Outcome<T> = Done(value: T) | Unrecognized | Overflowed

  /** "today", "tomorrow" (any case) or a date `strptime` accepts; "tomorrow" on 9999-12-31 overflows. */
  function ResolveDay(spec: string, today: Date): (r: Outcome<Date>)
    requires ValidDate(today)
    ensures r.Done? ==> ValidDate(r.value)
  {
    if Lower(spec) == "today" then Done(today)
    else if Lower(spec) == "tomorrow" then
      (var next := NextDay(today); if next.year <= MaxYear then Done(next) else Overflowed)
    else
      match ParseStrict(spec)
      case Some(d) => Done(d)
      case None => Unrecognized
  }

  /** `list_events`' window: midnight of the resolved day to midnight one day later. */
  function DayWindow(spec: string, today: Date): (r: Outcome<Window>)
    requires ValidDate(today)
    ensures r.Done? ==> ValidDate(r.value.start) && ValidDate(r.value.end)
  {
    match ResolveDay(spec, today)
    case Unrecognized => Unrecognized
    case Overflowed => Overflowed
    case Done(d) =>
      var next := NextDay(d);
      if next.year <= MaxYear then Done(Window(d, next)) else Overflowed
  }

  /** The keywords match whatever their case. */
  lemma KeywordsIgnoreCase(spec: string, today: Date)
    requires ValidDate(today)
    ensures Lower(spec) == "today" ==> ResolveDay(spec, today) == ResolveDay("today", today)
    ensures Lower(spec) == "tomorrow" ==> ResolveDay(spec, today) == ResolveDay("tomorrow", today)
  {
    assert Lower("today") == "today";
    assert Lower("tomorrow") == "tomorrow";
  }

  /** "tomorrow" is exactly one calendar day after "today" for the same clock reading. */
  lemma TomorrowFollowsToday(todaySpec: string, tomorrowSpec: string, today: Date)
    requires ValidDate(today)
    requires Lower(todaySpec) == "today" && Lower(tomorrowSpec) == "tomorrow"
    ensures ResolveDay(todaySpec, today) == Done(today)
    ensures !ResolveDay(tomorrowSpec, today).Unrecognized?
    ensures ResolveDay(tomorrowSpec, today).Overflowed? <==> today == Date(MaxYear, 12, 31)
    ensures ResolveDay(tomorrowSpec, today).Done? ==>
              Ordinal(ResolveDay(tomorrowSpec, today).value) == Ordinal(today) + 1
  {
    assert Lower(tomorrowSpec) != "today" by {
      assert Lower(tomorrowSpec)[2] == 'm';
    }
    NextDayIsOneDayLater(today);
  }

  /** A text that is neither keyword resolves exactly as `strptime` parses it. */
  lemma ExplicitDateResolution(spec: string, today: Date)
    requires ValidDate(today)
    requires Lower(spec) != "today" && Lower(spec) != "tomorrow"
    ensures ResolveDay(spec, today).Overflowed? == false
    ensures ResolveDay(spec, today).Unrecognized? <==> ParseStrict(spec).None?
    ensures ResolveDay(spec, today).Done? ==> ParseStrict(spec) == Some(ResolveDay(spec, today).value)
  {
  }

  /** The formatted text of every representable date resolves to that date. */
  lemma {:induction false} FormattedDateResolves(d: Date, today: Date)
    requires ValidDate(d) && ValidDate(today)
    ensures ResolveDay(Format(d), today) == Done(d)
  {
    var s := Format(d);
    assert Lower(s)[0] == s[0];
    ParseFormat(d);
  }

  /**
   * Whenever a list request is issued, its window is one whole day: it starts at midnight of
   * the resolved date and ends at midnight of the one real date whose day number follows it.
   */
  lemma {:induction false} WindowIsOneDay(spec: string, today: Date, e: Date)
    requires ValidDate(today) && WellFormed(e)
    requires DayWindow(spec, today).Done?
    ensures ResolveDay(spec, today) == Done(DayWindow(spec, today).value.start)
    ensures Ordinal(DayWindow(spec, today).value.end) == Ordinal(DayWindow(spec, today).value.start) + 1
    ensures e == DayWindow(spec, today).value.end <==> Ordinal(e) == Ordinal(DayWindow(spec, today).value.start) + 1
  {
    var w := DayWindow(spec, today).value;
    NextDayUnique(w.start, e);
    NextDayIsOneDayLater(w.start);
  }

  /**
   * A text that is neither keyword gets no window, although `strptime` accepts it, exactly
   * when it spells the last representable day: adding one day then overflows.
   */
  lemma ExplicitWindowOverflow(spec: string, today: Date)
    requires ValidDate(today)
    requires Lower(spec) != "today" && Lower(spec) != "tomorrow"
    ensures DayWindow(spec, today).Overflowed? <==> ParseStrict(spec) == Some(Date(MaxYear, 12, 31))
    ensures DayWindow(spec, today).Unrecognized? <==> ParseStrict(spec).None?
  {
    ExplicitDateResolution(spec, today);
  }

  // ---------------------------------------------------------------------------------------
  // list_events
  // ---------------------------------------------------------------------------------------

  /** `event['start'].get('dateTime', event['start'].get('date'))`. */
  function StartText(st: EventStart): string {
    match st.dateTime
    case Some(t) => t
    case None => st.date.GetOr(NoneText)
  }

  /** `event.get('summary', '(No title)')`. */
  function TitleText(e: RemoteEvent): string {
    e.summary.GetOr(NoTitle)
  }

  function EventLine(e: RemoteEvent): string
    requires e.start.Some?
  {
    "- " + TitleText(e) + " at " + StartText(e.start.value)
  }

  predicate AllHaveStart(events: seq<RemoteEvent>) {
    forall i :: 0 <= i < |events| ==> events[i].start.Some?
  }

  function EventLines(events: seq<RemoteEvent>): seq<string>
    requires AllHaveStart(events)
  {
    if events == [] then [] else [EventLine(events[0])] + EventLines(events[1..])
  }

  function Header(day: string): string {
    "Events on " + day + ":"
  }

  function NoEventsMessage(day: string): string {
    "No events found on " + day + "."
  }

  /** `"\n".join(lines)`. */
  function Join(lines: seq<string>): string {
    if |lines| == 0 then ""
    else if |lines| == 1 then lines[0]
    else lines[0] + "\n" + Join(lines[1..])
  }

  /** `s.split("\n")`: the pieces between newlines; always at least one. */
  function SplitLines(s: string): (r: seq<string>)
    ensures |r| >= 1
  {
    if |s| == 0 then [""]
    else if s[0] == '\n' then [""] + SplitLines(s[1..])
    else
      var rest := SplitLines(s[1..]);
      [[s[0]] + rest[0]] + rest[1..]
  }

  /** The text `list_events` returns once the window's events (or the failure) are known. */
  function Listing(day: string, response: ListResponse): (r: string)
    ensures |r| >= 10
    ensures r[..10] == "Events on " <==>
              response.Listed? && response.items.GetOr([]) != [] && AllHaveStart(response.items.GetOr([]))
  {
    match response
    case ListFailed(error) =>
      assert (ErrorPrefix + error)[1] == 'r';
      ErrorPrefix + error
    case Listed(items) =>
      var events := items.GetOr([]);
      if events == [] then
        assert NoEventsMessage(day)[0] == 'N';
        NoEventsMessage(day)
      else if !AllHaveStart(events) then
        assert (ErrorPrefix + MissingStartError)[1] == 'r';
        ErrorPrefix + MissingStartError
      else Join([Header(day)] + EventLines(events))
  }

  method ListEvents(input: ListEventsInput, today: Date, response: ListResponse)
      returns (reply: Reply, request: Option<Window>)
    requires ValidDate(today)
    ensures DayWindow(input.day, today).Unrecognized? ==>
              reply == Text(UnrecognizedMessage) && request == None
    ensures DayWindow(input.day, today).Overflowed? ==>
              reply == Raised(OverflowException) && request == None
    ensures DayWindow(input.day, today).Done? ==>
              request == Some(DayWindow(input.day, today).value) &&
              reply == Text(Listing(input.day, response))
  {
    var window := DayWindow(input.day, today);
    if window.Unrecognized? {
      return Text(UnrecognizedMessage), None;
    } else if window.Overflowed? {
      return Raised(OverflowException), None;
    }
    request := Some(window.value);
    match response
    case ListFailed(error) =>
      reply := Text(ErrorPrefix + error);
    case Listed(items) =>
      var events := items.GetOr([]);
      if events == [] {
        return Text(NoEventsMessage(input.day)), request;
      }
      var lines := [Header(input.day)];
      var i := 0;
      while i < |events|
        invariant 0 <= i <= |events|
        invariant AllHaveStart(events[..i])
        invariant lines == [Header(input.day)] + EventLines(events[..i])
      {
        var event := events[i];
        if event.start.None? {
          return Text(ErrorPrefix + MissingStartError), request;
        }
        EventLinesAppend(events[..i], event);
        assert events[..i + 1] == events[..i] + [event];
        lines := lines + [EventLine(event)];
        i := i + 1;
      }
      assert events[..i] == events;
      reply := Text(Join(lines));
  }

  lemma {:induction false} EventLinesAppend(events: seq<RemoteEvent>, e: RemoteEvent)
    requires AllHaveStart(events) && e.start.Some?
    ensures AllHaveStart(events + [e])
    ensures EventLines(events + [e]) == EventLines(events) + [EventLine(e)]
  {
    if events != [] {
      assert (events + [e])[1..] == events[1..] + [e];
      EventLinesAppend(events[1..], e);
    }
  }

  /** One line per event, in the order the service returned them. */
  lemma {:induction false} EventLinesInOrder(events: seq<RemoteEvent>)
    requires AllHaveStart(events)
    ensures |EventLines(events)| == |events|
    ensures forall i :: 0 <= i < |events| ==> EventLines(events)[i] == EventLine(events[i])
  {
    if events != [] {
      EventLinesInOrder(events[1..]);
    }
  }

  lemma {:induction false} SplitSingleLine(a: string)
    requires '\n' !in a
    ensures SplitLines(a) == [a]
  {
    if a != [] {
      assert a[0] in a;
      SplitSingleLine(a[1..]);
      assert [a[0]] + a[1..] == a;
    }
  }

  lemma {:induction false} SplitAfterLine(a: string, rest: string)
    requires '\n' !in a
    ensures SplitLines(a + "\n" + rest) == [a] + SplitLines(rest)
  {
    if a == [] {
      assert a + "\n" + rest == "\n" + rest;
      assert ("\n" + rest)[1..] == rest;
    } else {
      assert (a + "\n" + rest)[1..] == a[1..] + "\n" + rest;
      SplitAfterLine(a[1..], rest);
      assert [a[0]] + a[1..] == a;
    }
  }

  /** Splitting joined lines that hold no newline gives the lines back. */
  lemma {:induction false} SplitJoin(lines: seq<string>)
    requires |lines| >= 1
    requires forall i :: 0 <= i < |lines| ==> '\n' !in lines[i]
    ensures SplitLines(Join(lines)) == lines
  {
    if |lines| == 1 {
      SplitSingleLine(lines[0]);
    } else {
      SplitAfterLine(lines[0], Join(lines[1..]));
      SplitJoin(lines[1..]);
    }
  }

  /**
   * The shape of `list_events`' reply for a list of events: none gives the fixed message;
   * otherwise the reply's lines are the header and then one line per event, in order, each
   * "- {title} at {time}" with the title and time fallbacks, when no piece holds a newline.
   */
  lemma {:induction false} ListingShape(day: string, events: seq<RemoteEvent>)
    requires '\n' !in day
    requires forall i :: 0 <= i < |events| ==> '\n' !in TitleText(events[i])
    requires forall i :: 0 <= i < |events| && events[i].start.Some? ==> '\n' !in StartText(events[i].start.value)
    ensures events == [] ==> Listing(day, Listed(Some(events))) == "No events found on " + day + "."
    ensures events != [] && AllHaveStart(events) ==>
              var lines := SplitLines(Listing(day, Listed(Some(events))));
              |lines| == |events| + 1 &&
              lines[0] == "Events on " + day + ":" &&
              forall i :: 0 <= i < |events| ==>
                lines[i + 1] == "- " + events[i].summary.GetOr("(No title)") + " at " +
                  (match events[i].start.value.dateTime
                   case Some(t) => t
                   case None => events[i].start.value.date.GetOr("None"))
  {
    if events != [] && AllHaveStart(events) {
      EventLinesInOrder(events);
      var lines := [Header(day)] + EventLines(events);
      forall i | 0 <= i < |lines|
        ensures '\n' !in lines[i]
      {
        if i > 0 {
          NoNewlineInLine(events[i - 1]);
        }
      }
      SplitJoin(lines);
    }
  }

  lemma NoNewlineInLine(e: RemoteEvent)
    requires e.start.Some? && '\n' !in TitleText(e) && '\n' !in StartText(e.start.value)
    ensures '\n' !in EventLine(e)
  {
  }

  /** An event without a start time, anywhere in the list, turns the whole reply into an error. */
  lemma MissingStartFails(day: string, events: seq<RemoteEvent>, k: nat)
    requires k < |events| && events[k].start.None?
    ensures Listing(day, Listed(Some(events))) == "Error retrieving events: 'start'"
  {
  }

  /** A missing `items` entry reads as an empty list, and a failed request reports its error. */
  lemma ListingFallbacks(day: string, error: string)
    ensures Listing(day, Listed(None)) == "No events found on " + day + "."
    ensures Listing(day, ListFailed(error)) == "Error retrieving events: " + error
  {
  }

  // ---------------------------------------------------------------------------------------
  // create_event
  // ---------------------------------------------------------------------------------------

  /** `f"{resolved_date}T{time}:00"`. */
  function LocalDateTime(resolvedDate: string, time: string): string {
    resolvedDate + "T" + time + ":00"
  }

  function Confirmation(input: CreateEventInput, resolvedDate: string): string {
    CheckMark + "Event '" + input.title + "' created for " + resolvedDate +
    " from " + input.startTime + " to " + input.endTime
  }

  function CreateEvent(input: CreateEventInput, today: Date, response: InsertResponse): (r: CreateResult)
    requires ValidDate(today)
    ensures r.inserted.Some? <==> ResolveDay(input.date, today).Done?
    ensures r.reply.Raised? <==> ResolveDay(input.date, today).Overflowed?
    ensures r.inserted.Some? ==> r.inserted.value.summary == input.title
  {
    match ResolveDay(input.date, today)
    case Unrecognized => CreateResult(Text(CrossMark + UnrecognizedMessage), None)
    case Overflowed => CreateResult(Raised(OverflowException), None)
    case Done(d) =>
      var resolvedDate := Format(d);
      var body := EventBody(input.title, input.description,
                            EventDateTime(LocalDateTime(resolvedDate, input.startTime), ZoneLabel),
                            EventDateTime(LocalDateTime(resolvedDate, input.endTime), ZoneLabel));
      var reply := match response
        case Inserted => Text(Confirmation(input, resolvedDate))
        case InsertFailed(error) => Text(CrossMark + "Failed to create event: " + error);
      CreateResult(reply, Some(body))
  }

  /**
   * The inserted body: issued exactly when the date resolves, whatever the two times are (no
   * check that the start precedes the end); both date-times start with the same `YYYY-MM-DD`
   * text, which parses back to the resolved date, then "T", the given time and ":00"; both
   * carry the fixed zone label; title and description are copied unchanged.
   */
  lemma {:induction false} CreatedEventBody(input: CreateEventInput, today: Date, response: InsertResponse)
    requires ValidDate(today)
    ensures CreateEvent(input, today, response).inserted.Some? <==> ResolveDay(input.date, today).Done?
    ensures ResolveDay(input.date, today).Done? ==>
              var d := ResolveDay(input.date, today).value;
              var b := CreateEvent(input, today, response).inserted.value;
              var day := b.start.dateTime[..10];
              |b.start.dateTime| == 10 + 1 + |input.startTime| + 3 &&
              |b.end.dateTime| == 10 + 1 + |input.endTime| + 3 &&
              b.end.dateTime[..10] == day && IsCanonical(day) && ParseStrict(day) == Some(d) &&
              b.start.dateTime[10..] == "T" + input.startTime + ":00" &&
              b.end.dateTime[10..] == "T" + input.endTime + ":00" &&
              b.start.timeZone == "America/Chicago" && b.end.timeZone == "America/Chicago" &&
              b.summary == input.title && b.description == input.description
  {
    if ResolveDay(input.date, today).Done? {
      var d := ResolveDay(input.date, today).value;
      LocalDateTimeParts(d, input.startTime);
      LocalDateTimeParts(d, input.endTime);
    }
  }

  lemma LocalDateTimeParts(d: Date, time: string)
    requires ValidDate(d)
    ensures var s := LocalDateTime(Format(d), time);
            |s| == 14 + |time| && s[..10] == Format(d) && s[10..] == "T" + time + ":00" &&
            ParseStrict(s[..10]) == Some(d)
  {
    ParseFormat(d);
    var s := LocalDateTime(Format(d), time);
    assert s == Format(d) + ("T" + time + ":00");
  }

  /** For a canonical `YYYY-MM-DD` date, the date part of both date-times is the input text itself. */
  lemma {:induction false} CanonicalDateKept(input: CreateEventInput, today: Date, response: InsertResponse)
    requires ValidDate(today) && IsCanonical(input.date)
    requires CreateEvent(input, today, response).inserted.Some?
    ensures CreateEvent(input, today, response).inserted.value.start.dateTime
              == input.date + "T" + input.startTime + ":00"
    ensures CreateEvent(input, today, response).inserted.value.end.dateTime
              == input.date + "T" + input.endTime + ":00"
  {
    assert Lower(input.date)[0] == input.date[0];
    FormatParse(input.date);
  }

  /**
   * The reply: a date that does not resolve gives the fixed message and no insert; an insert
   * that succeeds names the title, the resolved date and both times; one that fails reports
   * the error text instead of raising it.
   */
  lemma CreateEventReplies(input: CreateEventInput, today: Date, response: InsertResponse)
    requires ValidDate(today)
    ensures ResolveDay(input.date, today).Unrecognized? ==>
              CreateEvent(input, today, response) == CreateResult(Text(CrossMark + UnrecognizedMessage), None)
    ensures ResolveDay(input.date, today).Overflowed? ==>
              CreateEvent(input, today, response) == CreateResult(Raised(OverflowException), None)
    ensures ResolveDay(input.date, today).Done? && response.Inserted? ==>
              CreateEvent(input, today, response).reply ==
              Text(CheckMark + "Event '" + input.title + "' created for " + Format(ResolveDay(input.date, today).value) +
                   " from " + input.startTime + " to " + input.endTime)
    ensures ResolveDay(input.date, today).Done? && response.InsertFailed? ==>
              CreateEvent(input, today, response).reply == Text(CrossMark + "Failed to create event: " + response.error)
  {
  }
}
