# Calendar assistant tools, modelled in Dafny

The assistant offers a language model two tools over a Google calendar. `list_events` takes a
day ("today", "tomorrow" or `YYYY-MM-DD`) and lists that day's events, one line each.
`create_event` takes a title, a date, start and end times and a description, and inserts the
event. This project models both tools (`app/tools.py`) and proves what their replies and the
requests they send say.

- `wrappers.dfy`: `Option`, for dictionary entries that may be missing.
- `civil_date.dfy` (module `CivilDate`): Python's proleptic Gregorian dates, years 1 to 9999.
  `NextDay` is `+ timedelta(days=1)` applied to the date. `Ordinal` is `date.toordinal()`.
  Ordinal is the reference definition: `NextDay` is proved to be the one real date whose day
  number is one higher.
- `date_text.dfy` (module `DateText`): `strptime(s, "%Y-%m-%d")` as `ParseStrict`, and
  `strftime("%Y-%m-%d")` as `Format`. Format gives the ISO 8601 calendar date `YYYY-MM-DD`.
  ParseStrict follows the patterns of CPython's `_strptime`:
  - the year is exactly four digits;
  - the month is `1[0-2]`, `0[1-9]` or `[1-9]`;
  - the day is the first of `3[01]`, `[12]\d`, `0[1-9]`, `[1-9]`, ` [1-9]` that matches;
  - the whole string must be used;
  - `datetime()` must accept the fields (year 0 and Feb 30 are rejected).
  It is therefore lenient: `2025-5-1` and `2025-05- 1` are both accepted.
- `tools.dfy` (module `Tools`): day resolution, the listing window, `ListEvents` and
  `CreateEvent`.
  - The clock is a parameter: today's civil date in UTC.
  - The service's answer to the single request each tool sends is a parameter:
    `ListResponse` (the `items` entry, possibly missing, or an exception's text) or
    `InsertResponse`.
  - Each tool also returns the request it sent: the listing `Window`, or the inserted
    `EventBody`. It returns `None` when it sent nothing.
  - `Reply` tells a returned text from an exception that escapes the tool.

Both tools resolve the day with the same if/elif chain (`app/tools.py:17-25` and `66-74`).
The model defines that chain once, as `ResolveDay`. `ListEvents` is a method because the
source builds its lines in a loop. It is proved against the specification function `Listing`.

Three facts about the code shape the model:
- There is no fallback parser. A text that is not a keyword and that `strptime` refuses gets
  the fixed "Unrecognized date format" message.
- Adding one day to 9999-12-31 (`app/tools.py:20`, `27`, `69`) raises `OverflowError`
  outside any `try`, so the exception escapes the tool. The model returns
  `Raised(OverflowException)` and sends no request. An explicit `9999-12-31` does this in
  `list_events`, but not in `create_event`.
- The zone label attached to created events is `America/Chicago`. "today" is nevertheless
  taken from the UTC clock.

## Model

| member | source | states |
|---|---|---|
| `CivilDate.DaysInMonth` | app/tools.py:23 | month lengths are 28 to 31 days; 29 exactly for February of a leap year, 28 for February otherwise |
| `CivilDate.NextDay` | app/tools.py:27 | the day after a real date is a real date; it stays in Python's range unless the date is 9999-12-31 |
| `CivilDate.NextDayIsOneDayLater` | app/tools.py:27 | `+ timedelta(days=1)` raises the `toordinal` day number by exactly one, across month ends, year ends and February in leap and common years |
| `CivilDate.OrdinalInjective` | app/tools.py:27 | different real dates have different day numbers |
| `CivilDate.NextDayUnique` | app/tools.py:27 | a real date `e` is the next day of `d` if and only if its day number is `d`'s plus one |
| `CivilDate.NextDayRollovers` | app/tools.py:20 | concrete rollovers: Feb 28 to 29 in 2024 and 2000, Feb 28 to Mar 1 in 2023 and 1900, Feb 29 to Mar 1, Apr 30 to May 1, Dec 31 to Jan 1 |
| `CivilDate.MonthsFillYear` | app/tools.py:27 | the twelve month lengths add up to 365, or 366 in a leap year |
| `DateText.Format` | app/tools.py:77 | `strftime("%Y-%m-%d")` always gives canonical text: ten characters, digits with dashes at positions 4 and 7 |
| `DateText.ParseStrict` | app/tools.py:23 | every date `strptime` returns is a real date in Python's range; the final `datetime(y, m, d)` check (`MakeDate`) accepts the fields exactly when they form such a date |
| `DateText.MonthField` | app/tools.py:72 | a `%m` match is 1 to 12, one or two characters wide, a dash follows it, and the matched text is a spelling of its value (zero-padded, or one digit below 10) |
| `DateText.DayField` | app/tools.py:72 | a `%d` match is 1 to 31, one or two characters wide, and the matched text is a spelling of its value (zero-padded, or below 10 one digit or a space and one digit) |
| `DateText.MonthFieldAccepts` | app/tools.py:72 | every spelling of every month, followed by a dash, is matched with that value and width |
| `DateText.DayFieldAccepts` | app/tools.py:72 | every spelling of every day starts a match, and on its own is matched whole with that value |
| `DateText.ParsedTextSpellsDate` | app/tools.py:72 | text that `strptime` accepts is exactly four year digits of the returned date, a dash, a spelling of its month, a dash and a spelling of its day |
| `DateText.SpelledDateParses` | app/tools.py:72 | conversely, every such spelling of every representable date is accepted and gives that date |
| `DateText.ParseFormat` | app/tools.py:72-77 | parsing the formatted text of any representable date gives that date back |
| `DateText.FormatParse` | app/tools.py:72-77 | for canonical input that parses, formatting the result gives back exactly the input text |
| `DateText.CanonicalAccepted` | app/tools.py:71-74 | canonical text is accepted exactly when its year, month and day form a real date, and then it gives that date |
| `DateText.LenientInputsAccepted` | app/tools.py:22-25 | lenient inputs are accepted: `2025-5-1`, `2025-05- 1`, and Feb 29 of a leap year |
| `DateText.NonexistentDatesRefused` | app/tools.py:22-25 | refused: Feb 29 in a common year, Apr 31, year 0 |
| `DateText.MalformedInputsRefused` | app/tools.py:22-25 | refused: month 13, trailing characters, a two-digit year |
| `DateText.Pad4Digits` | app/tools.py:77 | the four year characters are digits whose value is the year |
| `Tools.ResolveDay` | app/tools.py:66-74 | any date the day text resolves to is a real date in Python's range |
| `Tools.DayWindow` | app/tools.py:17-27 | both ends of the listing window are representable dates |
| `Tools.KeywordsIgnoreCase` | app/tools.py:17-19 | any text that lower-cases to "today" or "tomorrow" resolves like the keyword itself |
| `Tools.TomorrowFollowsToday` | app/tools.py:66-69 | "today" resolves to the clock's date. "tomorrow" is never refused: it resolves to the day with the next day number, or overflows exactly on 9999-12-31 |
| `Tools.ExplicitDateResolution` | app/tools.py:22-25 | any other text never overflows; it resolves exactly when `strptime` accepts it, and to the parsed date |
| `Tools.FormattedDateResolves` | app/tools.py:71-72 | the canonical text of every representable date resolves to that date |
| `Tools.WindowIsOneDay` | app/tools.py:18-27 | a sent window starts at the resolved date and ends at the one real date whose day number is one higher |
| `Tools.ExplicitWindowOverflow` | app/tools.py:22-27 | for any text that is neither keyword: no window because of overflow exactly when `strptime` gives 9999-12-31, and the fixed message exactly when `strptime` refuses it |
| `Tools.Listing` | app/tools.py:38-51 | the reply starts with "Events on " exactly when the service listed at least one event and every event has a `start`; otherwise it is the no-events message or an "Error retrieving events" report (shape in `ListingShape`, `MissingStartFails`, `ListingFallbacks`) |
| `Tools.ListEvents` | app/tools.py:13-51 | unresolvable day: the fixed message and no request. Overflow: the exception and no request. Otherwise the one-day window is requested and the reply is `Listing` of the response |
| `Tools.EventLinesAppend` | app/tools.py:43-46 | each loop step adds the current event's line after those of the earlier events |
| `Tools.EventLinesInOrder` | app/tools.py:42-46 | one line per event, line i for event i |
| `Tools.SplitJoin` | app/tools.py:48 | splitting the `"\n".join` of newline-free lines gives back those lines |
| `Tools.ListingShape` | app/tools.py:38-48 | no events gives "No events found on {day}.". Otherwise the reply's lines are "Events on {day}:" and then "- {title} at {time}" per event, in order, so there is one more line than events. The time is `dateTime`, else `date`, else "None". The title is the summary, else "(No title)". All of this holds when no piece contains a newline |
| `Tools.NoNewlineInLine` | app/tools.py:46 | an event line has no newline when its title and time have none |
| `Tools.MissingStartFails` | app/tools.py:44-51 | an event without a `start` anywhere in the list turns the reply into "Error retrieving events: 'start'" |
| `Tools.ListingFallbacks` | app/tools.py:38-51 | a missing `items` entry means "no events", and a failed request reports "Error retrieving events: {e}" |
| `Tools.CreateEvent` | app/tools.py:62-100 | an insert is sent exactly when the date resolves; the tool raises exactly when resolving overflows; the inserted title is the input title (body in `CreatedEventBody`, replies in `CreateEventReplies`) |
| `Tools.CreatedEventBody` | app/tools.py:77-96 | an insert is sent exactly when the date resolves, whatever the times (no start-before-end check). Both date-times are the same `YYYY-MM-DD`, which parses back to the resolved date, then "T", the given time and ":00". Both carry "America/Chicago". Title and description are copied unchanged |
| `Tools.LocalDateTimeParts` | app/tools.py:80-81 | `{date}T{time}:00` splits into the ten-character date, which parses back to the date, and "T" + time + ":00" |
| `Tools.CanonicalDateKept` | app/tools.py:72-81 | for canonical date text, the date-times are the input text itself followed by "T{time}:00" |
| `Tools.CreateEventReplies` | app/tools.py:71-100 | an unresolvable date gives "❌ Unrecognized date format…" and no insert. Overflow gives the exception. A successful insert names the title, the resolved date and both times. A failed insert gives "❌ Failed to create event: {e}" instead of raising |

## Left out

- `app/calendar_api.py` is not part of this model. It holds the OAuth flow, the token file, the
  environment variables and the client construction: I/O and library calls only.
- `main.py` is not part of this model. It holds the language-model agent and the console loop.
- Building the service client (`get_calendar_service()`, `app/tools.py:14` and `63`) is
  assumed to succeed. It runs before the date is resolved and outside any `try`, so in the
  source a failure there escapes whatever the day text is, even one that would get the
  "Unrecognized date format" message. The model does not show that path.
- The service calls are represented only by their answers and by the window or body sent.
  Other request parameters (`calendarId`, `singleEvents`, `orderBy`) are not modelled. Neither
  are the exact `isoformat()` texts of `timeMin`/`timeMax` or the created event the service
  returns.
- Time zones are not modelled. "today" is the UTC civil date, given as a parameter.
  "America/Chicago" is an opaque label.
- The `HH:MM` times are opaque text, as in the source, which never checks them.
- `Tools.Lower`: `str.lower()` is modelled on ASCII letters only. No other character
  lower-cases to a letter of "today" or "tomorrow", so the keyword comparison is unaffected.
- `DateText.ParseStrict`: only ASCII digits are taken as digits. Python's `\d` in the year and
  `[12]\d` day patterns also accepts other Unicode decimal digits.
- `DateText.Format`: years below 1000 are zero-padded to four digits. Some C libraries'
  `strftime` leave them unpadded.
- `Tools.TitleText`: a `summary` that is present but null renders as "None" in the source. The
  model only knows present or missing.
- Pydantic's type validation of the inputs and non-string field values from the service are
  not modelled.
- The service is modelled per call rather than as a stateful object with a log of inserted
  bodies. `CreateEvent` returns the body it sends, which carries the same information.
