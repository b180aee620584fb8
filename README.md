# vevent.py in Dafny

A model of `vevent.py`, a single `Calendar` class. It reads the text of an iCalendar
(`.ics`) file and builds a date index of its events: year → month → day → list of
events. It then answers three lookups:
- the events of a day;
- the event in progress now;
- the next upcoming event.

The model follows the code through five stages:

- **Unfolding** (`unfolding.dfy`).
  - `__unwrap` splits the text into physical lines.
  - It walks them backwards from the last index to index 1. A line whose first character is a space is appended, minus that space, to the line before it, and is then removed.
  - The lines are joined with `"\n"`.
  - The backward loop is `UnfoldLines`, a method over the list. It is proved against `Unfolded`, a front-to-back reference definition.
- **Unescaping** (`unescaping.dfy`).
  - `__unformat` runs `str.replace` for `\n` and then for `\,`, in a loop over its replacement table. That loop is `Unformat`.
  - `Escape` is the partner: unescaping undoes escaping.
- **Property lines** (`property_lines.dfy`).
  - The three regular expressions of `__parse` become recognisers: `EndsWithStamp`, `MatchStampLine` and `ParseProperty`.
  - `Render` is the partner: parsing gives back a rendered well-formed property.
- **Date-times** (`timestamps.dfy`).
  - `strptime("%Y%m%dT%H%M%S")` becomes `StampToDateTime`. Its partner is the zero-padded `YYYYMMDDTHHMMSS` rendering, `Format`.
  - Datetimes compare field by field (`Before`).
- **Parsing and the index** (`events.dfy`, `calendar.dfy`).
  - An `Event` maps attribute names to values, which are Null, a text or a datetime. This mirrors `setattr` on a Python object.
  - `Step`, `Run` and `Extract` give the line-by-line state machine of `__parse` on values.
  - The `Calendar` class holds the index as a mutable field. `Calendar.Parse` is the loop of `__parse`, proved to reach the outcome `Extract` gives.
  - The invariant `Valid` says the index holds exactly the filed events: each sits under its own `start` day, in filing order, and no level is empty.
  - The queries are functions over the index. `now` is a parameter.

The `Outcomes` module turns each Python exception into an `Error` constructor. The code
raises in these cases:
- `IndexError` on an empty line while unfolding;
- `AttributeError` on `END:VEVENT` with no event in progress;
- `AttributeError` when `start` is not a datetime;
- `AttributeError` when a line ends in a stamp but the second regular expression does not match it;
- `ValueError` from `strptime`;
- `TypeError` when None or a string is compared with a datetime.

Where a natural reading of the calendar format and the code differ, the model follows the
code:
- Only a space marks a continuation line, not a tab. A first line that starts with a space is kept as it is.
- `END:VEVENT` with no event in progress is a failure, not a no-op.
- An event whose `end` is missing or is text makes `get_current_event` and `get_next_event` fail when the comparison reaches it. The event is not simply skipped.
- A text property whose value ends in `:` followed by a stamp passes the first regular expression but not the second. Such a line makes the parser fail (`TextEndingInStamp`).
- `get_next_event` scans the day backwards. It returns the last upcoming event in stored order, not the one that starts soonest (`NextIsLastUpcoming`).

## Model

| member | source | states |
|---|---|---|
| Strings.Lower | vevent.py:76 | on property names (`[A-Z-]+`), `str.lower()` keeps the length and lowers each letter on its own |
| Timestamps.Valid | vevent.py:38 | the range check of the `datetime` constructor: a valid date has at most 31 days, February at most 29, and 29 February only in a leap year |
| Timestamps.Before | vevent.py:92 | datetime `<` (and `>` with the operands swapped): a date-time is never before itself, and never before one of an earlier year |
| Timestamps.BeforeIsStrictTotalOrder | vevent.py:92 | datetime `<` is irreflexive, asymmetric, transitive and total on distinct values |
| Timestamps.Fields | vevent.py:38 | `strptime` reads each field from its fixed run of digits, so year is below 10000, every other field below 100, and microsecond 0 |
| Timestamps.StampToDateTime | vevent.py:37-38 | a `YYYYMMDDTHHMMSS` stamp is accepted exactly when it names a valid date-time; it is then the datetime whose zero-padded rendering gives the stamp back, with microsecond 0; otherwise `ValueError` |
| Timestamps.StampRoundTrip | vevent.py:38 | every valid whole-second datetime is read back from its own stamp |
| Timestamps.Format | vevent.py:38 | the zero-padded `YYYYMMDDTHHMMSS` rendering, the exact inverse of the `strptime` call, yields the `[0-9]{8}T[0-9]{6}` shape for every valid date-time |
| Unfolding.SplitLines | vevent.py:41 | `splitlines` gives no lines exactly for the empty text |
| Unfolding.SplitLinesShape | vevent.py:41 | the lines hold no `"\n"`, and no break at all when `"\n"` is the only break in the text |
| Unfolding.Join | vevent.py:46 | joining break-free lines with `"\n"` gives a text whose only breaks are `"\n"` |
| Unfolding.TrailingBlankLine | vevent.py:41 | a text ending in `"\n\n"` splits into at least two lines, the last of them empty |
| Unfolding.SplitJoin | vevent.py:46 | splitting joined break-free lines gives them back unless the last one is empty |
| Unfolding.JoinSplit | vevent.py:41-46 | joining the lines of a text gives it back unless it ends with `"\n"` |
| Unfolding.Unfolded | vevent.py:42-45 | the reference unfolding has one line per non-continuation line, is empty only for no lines, and starts with the first line extended |
| Unfolding.UnfoldedSettled | vevent.py:42-45 | after unfolding no line after the first is empty or starts with a space |
| Unfolding.UnfoldedLength | vevent.py:44-45 | unfolding removes exactly one character per removed line |
| Unfolding.UnfoldedOneLine | vevent.py:44 | unfolding adds no line break |
| Unfolding.UnfoldedWithoutContinuations | vevent.py:42-45 | with no continuation line after the first, unfolding changes nothing |
| Unfolding.ContinuationJoins | vevent.py:43-45 | a line starting with a space is appended, minus the space, to the line before it |
| Unfolding.ChainJoins | vevent.py:42-45 | a chain of continuation lines folds onto the nearest earlier non-continued line |
| Unfolding.UnfoldLines | vevent.py:42-45 | the backward loop fails only when some line after the first is empty, and always when the last of two or more lines is empty; with none it returns exactly `Unfolded`; any result has no empty or continued line after the first, starts with the first line, loses one character per removed line and adds no line break |
| Unfolding.Unwrap | vevent.py:40-46 | `__unwrap` fails only on an empty line after the first, and always on a text ending in `"\n\n"`; with no such line it gives the joined unfolding, whose only breaks are `"\n"` |
| Unfolding.UnwrapWithoutContinuations | vevent.py:40-46 | text without continuation lines comes back unchanged, up to a final `"\n"` |
| Unfolding.ParserSeesUnfoldedLines | vevent.py:46 | re-splitting the unwrapped text gives exactly the unfolded logical lines |
| Unescaping.ReplaceAll | vevent.py:51 | `str.replace` leaves a string without the pattern's first character unchanged |
| Unescaping.Unescaped | vevent.py:48-52 | unescaping leaves a string without backslashes unchanged |
| Unescaping.Unformat | vevent.py:48-52 | the loop over the table replaces every `\n` by a line break and then every `\,` by a comma; without a backslash nothing changes |
| Unescaping.UnescapeEscape | vevent.py:48-52 | unescaping an escaped text without backslashes gives the text back |
| PropertyLines.ParseProperty | vevent.py:78-79 | a recognised text line is a well-formed `NAME[;params]:value` that renders back to the line |
| PropertyLines.ParseRender | vevent.py:78-79 | every well-formed property is recognised from its rendering, with its name, parameters and value |
| PropertyLines.ParsePropertyExactly | vevent.py:78-79 | the recogniser yields `p` if and only if `p` is well formed and renders to the line |
| PropertyLines.EndsWithStamp | vevent.py:74 | a line passing the first stamp test has at least 17 characters and ends in a digit or `Z` |
| PropertyLines.EndsWithStampExactly | vevent.py:74 | the first stamp test holds exactly when a `:` after at least one character is followed by a stamp and an optional `Z` that end the line |
| PropertyLines.StripDT | vevent.py:75 | dropping a leading `DT` keeps a name a name and leaves a suffix of it |
| PropertyLines.MatchStampLine | vevent.py:75 | the second regular expression matches exactly when the line is a well-formed property with a stamp value; its name is a name, its stamp a stamp, and the first test holds too |
| PropertyLines.MatchRendered | vevent.py:75-76 | a rendered property with a stamp value yields its name without `DT` and the 15-character stamp, with the `Z` dropped |
| PropertyLines.StripDTExamples | vevent.py:75 | `DTSTART` names `START`, `DTEND` names `END`, a bare `DT` stays `DT` |
| PropertyLines.TextEndingInStamp | vevent.py:74-76 | a text value ending in `:` and a stamp passes the first test and fails the second |
| Events.Event.Set | vevent.py:76 | `setattr` sets one attribute and leaves every other one unchanged |
| Events.NewEvent | vevent.py:104-109 | a new event has empty summary, description and location, no start and no end |
| Events.SetProperty | vevent.py:73-80 | a property line fails only when it ends in a stamp, and only as an unmatched line or an invalid date-time; it changes the event only when it is a well-formed property |
| Events.StampLineSets | vevent.py:74-76 | a DATE-TIME line sets the lowered name without `DT` to the parsed date-time |
| Events.StampLineInvalid | vevent.py:74-76 | a DATE-TIME line whose digits do not form a valid date-time fails as `strptime` does (`ValueError`) |
| Events.StampLineFails | vevent.py:74-76 | a line ending in a stamp that does not fit `[DT]NAME[;params]:stamp` fails |
| Events.TextLineSets | vevent.py:78-80 | a text line sets the lowered name to the unescaped value; the parameters are dropped |
| Events.OtherLineIgnored | vevent.py:73-80 | a line of neither form leaves the event unchanged |
| Events.ShortValueIsText | vevent.py:78-80 | a value too short for a stamp, like `DTSTART;VALUE=DATE:20170118`, sets the text field `dtstart` and not `start` |
| Events.Step | vevent.py:59-80 | one line never removes filed events; `END:VEVENT` files exactly the event in progress, which must have a datetime start, and clears the slot, and fails otherwise; `BEGIN:VEVENT` starts a new blank event whatever was in progress |
| Events.Run | vevent.py:57 | the parse fails only with the four parse errors |
| Events.Extract | vevent.py:55-80 | parsing from no event and nothing filed fails only with the four parse errors; a parse that succeeds files one event per `END:VEVENT`, each with a datetime start |
| Events.RunAppend | vevent.py:57 | parsing two pieces of text in turn is parsing them together |
| Events.InertOutsideEvents | vevent.py:57-73 | lines other than the markers, outside an event, change nothing |
| Events.BeginDiscards | vevent.py:59-60 | after `BEGIN:VEVENT` the outcome does not depend on the event that was in progress |
| Events.RunFiles | vevent.py:62-71 | a parse that succeeds files one event per `END:VEVENT`, keeps what was filed before, and files only events with a datetime start |
| Events.FailureSticks | vevent.py:57 | a failure ends the parse; later lines do not change it |
| Events.MissingStartFails | vevent.py:62-63 | an event with no start cannot be filed |
| Calendars.OnDay | vevent.py:62-71 | a day's events are exactly the filed events starting that day |
| Calendars.OnDayExactly | vevent.py:62-71 | a filed event is in a day's list if and only if it starts that day |
| Calendars.OnDayAppend | vevent.py:70 | filing one event appends it to its own day's list and leaves other days alone |
| Calendars.InProgressTest | vevent.py:92 | the test is true exactly for an event strictly between its start and end, and fails exactly when start is not a datetime, or start is before `now` and end is not a datetime |
| Calendars.UpcomingTest | vevent.py:99 | the test is true exactly for an event whose start and end are both after `now`, and fails exactly when start is not a datetime, or start is after `now` and end is not a datetime |
| Calendars.FirstMatch | vevent.py:91-94 | the scan returns the first accepted event with every earlier one rejected, none exactly when all are rejected, or the failure of the first test that fails |
| Calendars.CurrentIn | vevent.py:91-94 | the scan of the day's events returns only an event of that day in progress at `now`, and fails only on an incomparable value |
| Calendars.NextIn | vevent.py:98-101 | the reversed scan returns only an event of that day upcoming at `now`, and fails only on an incomparable value |
| Calendars.Reverse | vevent.py:98 | `[::-1]` puts element `i` at position `n-1-i` |
| Calendars.CurrentIsFirstInProgress | vevent.py:89-94 | the current event is the first of the day in progress at `now`; there is none exactly when every event compares and none is in progress |
| Calendars.NextIsLastUpcoming | vevent.py:96-101 | the next event is the last of the day, in stored order, that is upcoming; there is none exactly when every event compares and none is upcoming |
| Calendars.NotCurrentAtStart | vevent.py:92 | an event is not current at the instant it starts |
| Calendars.NextPrefersLaterStored | vevent.py:98-101 | of two upcoming events stored as [a, b], the next event is b |
| Calendars.Calendar.constructor | vevent.py:55 | a new calendar has an empty index and nothing filed |
| Calendars.Calendar.File | vevent.py:62-71 | filing succeeds exactly when the start is a datetime; it then adds the event to the filed list and keeps the index exact, and otherwise changes nothing |
| Calendars.Calendar.Parse | vevent.py:54-80 | the parse loop fails exactly when `Extract` fails, with the same error, and otherwise files exactly the events `Extract` files, keeping the index exact |
| Calendars.Lookup | vevent.py:83-87 | a missing year, month or day gives no events instead of a `KeyError` |
| Calendars.LookupEmptyExactly | vevent.py:83-87 | in an index with no empty level, the lookup is empty exactly when a level is missing |
| Calendars.Calendar.EventsOnDay | vevent.py:82-87 | the day's bucket is exactly the filed events starting that day, in filing order, and empty when any level is missing |
| Calendars.Calendar.CurrentEvent | vevent.py:89-94 | a returned event is on today's list and in progress; none is returned exactly when every event of the day compares as not in progress |
| Calendars.Calendar.NextEvent | vevent.py:96-101 | a returned event is on today's list and upcoming; none is returned exactly when every event of the day compares as not upcoming |
| Calendars.AppendLookup | vevent.py:63-70 | creating the missing levels and appending adds the event to its own day only and leaves no level empty |
| Calendars.IndexesAppend | vevent.py:62-71 | filing a datetime-started event into its day keeps the index exact for the longer filed list |
| Calendars.FilingAppendsToOwnDay | vevent.py:62-71 | filing appends to the bucket of the event's own start day and leaves every other bucket unchanged |
| Calendars.NewCalendar | vevent.py:34-35 | `Calendar(contents)` fails on unfolding only at an empty line after the first, and always on a text ending in `"\n\n"`; when there is none, it fails exactly when parsing the unfolded lines fails, with the same error, and otherwise files what that parse files |

## Left out

- `datetime.today()` (vevent.py:90, 97) reads the clock. The queries take `now` as a parameter instead.
- `Event.get_time_string` and `Event.__str__` (vevent.py:111-115) only format for display and are not modelled.
- The regular-expression engine and `strptime` are not modelled. Hand-written recognisers stand for the three patterns, and a digit reader with a calendar-validity check stands for `strptime`.
- `str.splitlines` also breaks at `\r`, `\v`, `\f`, `\x1c`-`\x1e`, `\x85`, `\u2028` and `\u2029`. The model splits at `"\n"` only and requires the input to have no other break (`BreaksOnlyAtNewline`).
- Time zones are not modelled: a trailing `Z` is dropped, as in the code.
- Reading the file is not modelled: the calendar is given its text.
- Events are values, not objects. `get_events_on_day` returns the stored list itself, so a caller that changes that list changes the index. This aliasing is not modelled.
- Unfolding.UnfoldLines: the method computes the loop exactly. Its contract pins the result down completely only when no line after the first is empty. When an empty line is followed by continuation lines, their text is appended to it before it is examined, so the loop may still succeed. For that case the contract states only the shape and length properties.
- Unfolding.Unwrap: when an empty line after the first is not the last line, the contract says only that a failure needs such a line, for the same reason as `UnfoldLines`.
- Calendars.NewCalendar: the contract relates the result to `Extract` only when no line after the first is empty, for the same reason as `UnfoldLines`.
- Calendars.Calendar.Parse: after a failure, the partly built index is kept, still exact for the events filed so far. In Python the exception propagates out of `__init__`, and the object is never handed out.
- Attribute reads of names never set give Null. The code reads only `start` and `end`, which the event constructor always sets.
