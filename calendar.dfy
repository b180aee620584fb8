/**
 * The `Calendar` object (vevent.py:27-101): the date index of events it builds from the
 * text of a calendar file, and the three lookups it answers.
 */
module Calendars {
  import opened Outcomes
  import opened Strings
  import opened Timestamps
  import opened Unfolding
  import opened Unescaping
  import opened PropertyLines
  import opened Events

  /** `Calendar.events`: year to month to day to the events starting that day, in the order filed. */
  type Index = map<int, map<int, map<int, seq<Event>>>>

  /** The bucket for a day, or no events when any level is missing. */
  function Lookup(idx: Index, year: int, month: int, day: int): (r: seq<Event>)
    ensures !(year in idx && month in idx[year] && day in idx[year][month]) ==> r == []
  {
    if year in idx && month in idx[year] && day in idx[year][month] then idx[year][month][day] else []
  }

  /** Levels are created only to hold an event, so none is empty. */
  predicate NoEmptyLevels(idx: Index) {
    forall y :: y in idx ==>
      && idx[y] != map[]
      && forall m :: m in idx[y] ==>
           && idx[y][m] != map[]
           && forall d :: d in idx[y][m] ==> idx[y][m][d] != []
  }

  /** With no empty level, a day has no events exactly when one of its levels is missing. */
  lemma LookupEmptyExactly(idx: Index, year: int, month: int, day: int)
    requires NoEmptyLevels(idx)
    ensures Lookup(idx, year, month, day) == [] <==> !(year in idx && month in idx[year] && day in idx[year][month])
  {
  }

  /** The event's `start` falls on the given day. */
  predicate StartsOn(e: Event, year: int, month: int, day: int) {
    e.Get("start").Stamp? && e.Get("start").time.year == year && e.Get("start").time.month == month
    && e.Get("start").time.day == day
  }

  /** The filed events that start on a day, in the order they were filed. */
  function OnDay(filed: seq<Event>, year: int, month: int, day: int): (r: seq<Event>)
    ensures |r| <= |filed|
    ensures forall i :: 0 <= i < |r| ==> StartsOn(r[i], year, month, day) && r[i] in filed
    ensures forall i :: 0 <= i < |filed| && StartsOn(filed[i], year, month, day) ==> filed[i] in r
  {
    if filed == [] then []
    else
      var init, e := filed[..|filed| - 1], filed[|filed| - 1];
      assert forall i :: 0 <= i < |init| ==> init[i] == filed[i];
      OnDay(init, year, month, day) + (if StartsOn(e, year, month, day) then [e] else [])
  }

  /** Every filed event sits in the bucket of its own `start` day and in no other. */
  lemma OnDayExactly(filed: seq<Event>, e: Event, year: int, month: int, day: int)
    requires e in filed
    ensures e in OnDay(filed, year, month, day) <==> StartsOn(e, year, month, day)
  {
  }

  /** Filing one more event extends its own day's list at the end and leaves every other day's alone. */
  lemma OnDayAppend(filed: seq<Event>, e: Event, year: int, month: int, day: int)
    ensures OnDay(filed + [e], year, month, day) ==
              OnDay(filed, year, month, day) + (if StartsOn(e, year, month, day) then [e] else [])
  {
    assert (filed + [e])[..|filed|] == filed;
  }

  /** `event.start < now and event.end > now` (vevent.py:92), both bounds strict. */
  predicate InProgress(e: Event, now: DateTime) {
    e.Get("start").Stamp? && e.Get("end").Stamp?
    && Before(e.Get("start").time, now) && Before(now, e.Get("end").time)
  }

  /** `event.start > now and event.end > now` (vevent.py:99). */
  predicate Upcoming(e: Event, now: DateTime) {
    e.Get("start").Stamp? && e.Get("end").Stamp?
    && Before(now, e.Get("start").time) && Before(now, e.Get("end").time)
  }

  /**
   * The test of vevent.py:92 with Python's evaluation: `and` does not look at `end` when
   * the first comparison is false, and comparing None or a string with a datetime fails
   * (TypeError) instead of being false.
   */
  function InProgressTest(e: Event, now: DateTime): (r: Result<bool>)
    ensures r == Ok(true) <==> InProgress(e, now)
    ensures r.Err? ==> r.error == Incomparable
    ensures r.Err? <==> !e.Get("start").Stamp? || (Before(e.Get("start").time, now) && !e.Get("end").Stamp?)
  {
    match e.Get("start")
    case Stamp(s) =>
      if !Before(s, now) then Ok(false)
      else if e.Get("end").Stamp? then Ok(Before(now, e.Get("end").time))
      else Err(Incomparable)
    case _ => Err(Incomparable)
  }

  /** The test of vevent.py:99, evaluated as `InProgressTest` is. */
  function UpcomingTest(e: Event, now: DateTime): (r: Result<bool>)
    ensures r == Ok(true) <==> Upcoming(e, now)
    ensures r.Err? ==> r.error == Incomparable
    ensures r.Err? <==> !e.Get("start").Stamp? || (Before(now, e.Get("start").time) && !e.Get("end").Stamp?)
  {
    match e.Get("start")
    case Stamp(s) =>
      if !Before(now, s) then Ok(false)
      else if e.Get("end").Stamp? then Ok(Before(now, e.Get("end").time))
      else Err(Incomparable)
    case _ => Err(Incomparable)
  }

  /**
   * A `for` loop with an early `return`: the first event the test accepts, none when it
   * rejects them all, or the failure of the first test that fails.
   */
  function FirstMatch(evs: seq<Event>, test: Event -> Result<bool>): (r: Result<Option<Event>>)
    ensures r == Ok(None) <==> forall i :: 0 <= i < |evs| ==> test(evs[i]) == Ok(false)
    ensures r.Ok? && r.value.Some? ==>
              exists i :: 0 <= i < |evs| && evs[i] == r.value.value && test(evs[i]) == Ok(true)
                          && forall j :: 0 <= j < i ==> test(evs[j]) == Ok(false)
    ensures r.Err? ==>
              exists i :: 0 <= i < |evs| && test(evs[i]) == Err(r.error)
                          && forall j :: 0 <= j < i ==> test(evs[j]) == Ok(false)
  {
    if evs == [] then Ok(None)
    else
      match test(evs[0])
      case Err(x) => Err(x)
      case Ok(found) =>
        if found then Ok(Some(evs[0]))
        else
          var r := FirstMatch(evs[1..], test);
          assert forall i :: 1 <= i < |evs| ==> evs[i] == evs[1..][i - 1];
          r
  }

  function Reverse(s: seq<Event>): (r: seq<Event>)
    ensures |r| == |s| && forall i :: 0 <= i < |s| ==> r[i] == s[|s| - 1 - i]
  {
    if s == [] then [] else Reverse(s[1..]) + [s[0]]
  }

  /** The scan of `get_current_event` (vevent.py:91-94) over a day's events. */
  function CurrentIn(bucket: seq<Event>, now: DateTime): (r: Result<Option<Event>>)
    ensures r.Ok? && r.value.Some? ==> r.value.value in bucket && InProgress(r.value.value, now)
    ensures r.Err? ==> r.error == Incomparable
  {
    FirstMatch(bucket, e => InProgressTest(e, now))
  }

  /** The scan of `get_next_event` (vevent.py:98-101): the day's events in reverse order. */
  function NextIn(bucket: seq<Event>, now: DateTime): (r: Result<Option<Event>>)
    ensures r.Ok? && r.value.Some? ==> r.value.value in bucket && Upcoming(r.value.value, now)
    ensures r.Err? ==> r.error == Incomparable
  {
    FirstMatch(Reverse(bucket), e => UpcomingTest(e, now))
  }

  /**
   * The current event is the first event of the day in progress at `now`, provided every
   * event before it could be compared; there is none exactly when every event of the day
   * compares and none is in progress.
   */
  lemma CurrentIsFirstInProgress(bucket: seq<Event>, now: DateTime)
    ensures CurrentIn(bucket, now) == Ok(None) <==> forall i :: 0 <= i < |bucket| ==> InProgressTest(bucket[i], now) == Ok(false)
    ensures CurrentIn(bucket, now).Ok? && CurrentIn(bucket, now).value.Some? ==>
              exists i :: 0 <= i < |bucket| && bucket[i] == CurrentIn(bucket, now).value.value && InProgress(bucket[i], now)
                          && forall j :: 0 <= j < i ==> InProgressTest(bucket[j], now) == Ok(false)
  {
    var test := e => InProgressTest(e, now);
    var r := FirstMatch(bucket, test);
    assert forall i :: 0 <= i < |bucket| ==> test(bucket[i]) == InProgressTest(bucket[i], now);
  }

  /**
   * Because the scan runs backwards, the next event is the LAST event of the day, in
   * stored order, that is upcoming at `now`, not necessarily the one that starts soonest.
   */
  lemma NextIsLastUpcoming(bucket: seq<Event>, now: DateTime)
    ensures NextIn(bucket, now) == Ok(None) <==> forall i :: 0 <= i < |bucket| ==> UpcomingTest(bucket[i], now) == Ok(false)
    ensures NextIn(bucket, now).Ok? && NextIn(bucket, now).value.Some? ==>
              exists i :: 0 <= i < |bucket| && bucket[i] == NextIn(bucket, now).value.value && Upcoming(bucket[i], now)
                          && forall j :: i < j < |bucket| ==> UpcomingTest(bucket[j], now) == Ok(false)
  {
    NoNextExactly(bucket, now);
    if NextIn(bucket, now).Ok? && NextIn(bucket, now).value.Some? {
      NextIsLast(bucket, now);
    }
  }

  lemma NoNextExactly(bucket: seq<Event>, now: DateTime)
    ensures NextIn(bucket, now) == Ok(None) <==> NoneUpcoming(bucket, now)
  {
    NoneUpcomingReversed(bucket, now);
  }

  /** Every event compares and none is upcoming. */
  predicate NoneUpcoming(s: seq<Event>, now: DateTime) {
    forall i :: 0 <= i < |s| ==> UpcomingTest(s[i], now) == Ok(false)
  }

  lemma NoneUpcomingAppend(a: seq<Event>, b: seq<Event>, now: DateTime)
    ensures NoneUpcoming(a + b, now) <==> NoneUpcoming(a, now) && NoneUpcoming(b, now)
  {
    if NoneUpcoming(a, now) && NoneUpcoming(b, now) {
      forall i | 0 <= i < |a + b| ensures UpcomingTest((a + b)[i], now) == Ok(false) {
        if i >= |a| {
          assert (a + b)[i] == b[i - |a|];
        }
      }
    }
    if NoneUpcoming(a + b, now) {
      forall i | 0 <= i < |a| ensures UpcomingTest(a[i], now) == Ok(false) {
        assert (a + b)[i] == a[i];
      }
      forall i | 0 <= i < |b| ensures UpcomingTest(b[i], now) == Ok(false) {
        assert (a + b)[|a| + i] == b[i];
      }
    }
  }

  /** No event of a list is upcoming exactly when no event of its reverse is. */
  lemma {:induction false} NoneUpcomingReversed(s: seq<Event>, now: DateTime)
    ensures NoneUpcoming(Reverse(s), now) <==> NoneUpcoming(s, now)
  {
    if s != [] {
      NoneUpcomingReversed(s[1..], now);
      NoneUpcomingAppend(Reverse(s[1..]), [s[0]], now);
      assert s == [s[0]] + s[1..];
      NoneUpcomingAppend([s[0]], s[1..], now);
    }
  }

  lemma NextIsLast(bucket: seq<Event>, now: DateTime)
    requires NextIn(bucket, now).Ok? && NextIn(bucket, now).value.Some?
    ensures exists i :: 0 <= i < |bucket| && bucket[i] == NextIn(bucket, now).value.value && Upcoming(bucket[i], now)
                        && forall j :: i < j < |bucket| ==> UpcomingTest(bucket[j], now) == Ok(false)
  {
    var test := e => UpcomingTest(e, now);
    var rev := Reverse(bucket);
    var n := |bucket|;
    var k :| 0 <= k < n && rev[k] == NextIn(bucket, now).value.value && test(rev[k]) == Ok(true)
              && forall j :: 0 <= j < k ==> test(rev[j]) == Ok(false);
    var i := n - 1 - k;
    assert bucket[i] == rev[k];
    forall j | i < j < n ensures UpcomingTest(bucket[j], now) == Ok(false) {
      assert bucket[j] == rev[n - 1 - j];
    }
  }

  /** Both bounds are strict: an event is not current at the very instant it starts. */
  lemma NotCurrentAtStart(e: Event, now: DateTime)
    requires e.Get("start") == Stamp(now)
    ensures InProgressTest(e, now) == Ok(false)
  {
    BeforeIsStrictTotalOrder(now, now, now);
  }

  /** Of two upcoming events stored as [a, b], the next event is b. */
  lemma NextPrefersLaterStored(a: Event, b: Event, now: DateTime)
    requires Upcoming(a, now) && Upcoming(b, now)
    ensures NextIn([a, b], now) == Ok(Some(b))
  {
    var rev := Reverse([a, b]);
    assert rev == [b, a];
    assert rev[1..] == [a];
  }

  /** The calendar built from a text, with the index `__parse` fills in place. */
  class Calendar {
    /** `self.events`. */
    var events: Index
    /** The events filed so far, in the order of their `END:VEVENT` lines. */
    ghost var filed: seq<Event>

    /** The index holds exactly the filed events, each under its own `start` day, in filing order. */
    ghost predicate Valid()
      reads this
    {
      Indexes(events, filed)
    }

    constructor ()
      ensures Valid() && events == map[] && filed == []
    {
      events := map[];
      filed := [];
    }

    /**
     * The `END:VEVENT` branch (vevent.py:63-70) for an event in progress: missing levels
     * are created, then the event is appended to its day's bucket. An event whose `start`
     * is not a datetime fails on `event.start.year` (AttributeError) and nothing changes.
     */
    method File(e: Event) returns (err: Option<Error>)
      requires Valid()
      modifies this
      ensures Valid()
      ensures err.None? <==> e.Stamped()
      ensures err.Some? ==> err.value == StartNotTimestamp && events == old(events) && filed == old(filed)
      ensures err.None? ==> filed == old(filed) + [e]
    {
      if !e.Stamped() {
        return Some(StartNotTimestamp);
      }
      var t := e.Get("start").time;
      ghost var before := events;
      var years := events;
      if t.year !in years {
        years := years[t.year := map[]];
      }
      var months := years[t.year];
      if t.month !in months {
        months := months[t.month := map[]];
      }
      var days := months[t.month];
      if t.day !in days {
        days := days[t.day := []];
      }
      events := years[t.year := months[t.month := days[t.day := days[t.day] + [e]]]];
      assert days[t.day] == Lookup(before, t.year, t.month, t.day);
      assert days[t.day := days[t.day] + [e]] == DaysOf(before, t)[t.day := days[t.day] + [e]];
      assert months[t.month := days[t.day := days[t.day] + [e]]] ==
             MonthsOf(before, t)[t.month := days[t.day := days[t.day] + [e]]];
      assert events == before[t.year := months[t.month := days[t.day := days[t.day] + [e]]]];
      IndexesAppend(before, filed, e);
      filed := filed + [e];
      return None;
    }

    /**
     * `__parse` (vevent.py:54-80): the loop over the logical lines, with the event in
     * progress in a local variable and the index updated in place. The outcome is the
     * one `Extract` gives for the same lines.
     */
    method Parse(content: string) returns (err: Option<Error>)
      requires BreaksOnlyAtNewline(content)
      modifies this
      ensures Valid()
      ensures err.None? <==> Extract(SplitLines(content)).Ok?
      ensures err.Some? ==> Extract(SplitLines(content)) == Err(err.value)
      ensures err.None? ==> filed == Extract(SplitLines(content)).value.filed
    {
      events := map[];
      filed := [];
      err := None;
      var event: Option<Event> := None;
      var lines := SplitLines(content);
      for i := 0 to |lines|
        invariant Valid() && err.None?
        invariant Extract(lines[..i]) == Ok(State(event, filed))
      {
        var line := lines[i];
        ExtractNext(lines, i, State(event, filed));
        if line == BeginMarker {
          event := Some(NewEvent());
        } else if line == EndMarker {
          if event.None? {
            err := Some(EndWithoutEvent);
          } else {
            err := File(event.value);
            event := None;
          }
        } else if event.Some? {
          if EndsWithStamp(line) {
            var m := MatchStampLine(line);
            if m.None? {
              err := Some(StampLineUnmatched);
            } else {
              var t := StampToDateTime(m.value.stamp);
              if t.Err? {
                err := Some(t.error);
              } else {
                event := Some(event.value.Set(Lower(m.value.name), Stamp(t.value)));
              }
            }
          } else {
            var p := ParseProperty(line);
            if p.Some? {
              var text := Unformat(p.value.value);
              event := Some(event.value.Set(Lower(p.value.name), Text(text)));
            }
          }
        }
        if err.Some? {
          // The exception leaves `__parse` and the constructor.
          ExtractStops(lines, i);
          break;
        }
      }
      if err.None? {
        assert lines[..|lines|] == lines;
      }
    }

    /** `get_events_on_day` (vevent.py:82-87): the day's bucket, or no events. */
    function EventsOnDay(date: DateTime): (r: seq<Event>)
      reads this
      ensures Valid() ==> r == OnDay(filed, date.year, date.month, date.day)
    {
      Lookup(events, date.year, date.month, date.day)
    }

    /** `get_current_event` (vevent.py:89-94), with the clock reading passed in as `now`. */
    function CurrentEvent(now: DateTime): (r: Result<Option<Event>>)
      reads this
      ensures r.Ok? && r.value.Some? ==> r.value.value in EventsOnDay(now) && InProgress(r.value.value, now)
      ensures r == Ok(None) <==> forall e :: e in EventsOnDay(now) ==> InProgressTest(e, now) == Ok(false)
    {
      CurrentIsFirstInProgress(EventsOnDay(now), now);
      CurrentIn(EventsOnDay(now), now)
    }

    /** `get_next_event` (vevent.py:96-101), with the clock reading passed in as `now`. */
    function NextEvent(now: DateTime): (r: Result<Option<Event>>)
      reads this
      ensures r.Ok? && r.value.Some? ==> r.value.value in EventsOnDay(now) && Upcoming(r.value.value, now)
      ensures r == Ok(None) <==> forall e :: e in EventsOnDay(now) ==> UpcomingTest(e, now) == Ok(false)
    {
      NextIsLastUpcoming(EventsOnDay(now), now);
      NextIn(EventsOnDay(now), now)
    }
  }

  /** The months of `t`'s year, none when the year has no level yet. */
  function MonthsOf(idx: Index, t: DateTime): map<int, map<int, seq<Event>>> {
    if t.year in idx then idx[t.year] else map[]
  }

  /** The days of `t`'s month, none when the month has no level yet. */
  function DaysOf(idx: Index, t: DateTime): map<int, seq<Event>> {
    if t.month in MonthsOf(idx, t) then MonthsOf(idx, t)[t.month] else map[]
  }

  /**
   * Appending `e` to the bucket of day `t`, creating the missing levels (vevent.py:63-70),
   * adds `e` at the end of that day's events only, and leaves no level empty.
   */
  lemma AppendLookup(before: Index, e: Event, t: DateTime)
    requires NoEmptyLevels(before)
    ensures var after := before[t.year := MonthsOf(before, t)[t.month :=
                           DaysOf(before, t)[t.day := Lookup(before, t.year, t.month, t.day) + [e]]]];
            && NoEmptyLevels(after)
            && forall y, m, d :: Lookup(after, y, m, d) ==
                 Lookup(before, y, m, d) + (if (y, m, d) == (t.year, t.month, t.day) then [e] else [])
  {
    var months, days := MonthsOf(before, t), DaysOf(before, t);
    var days' := days[t.day := Lookup(before, t.year, t.month, t.day) + [e]];
    var months' := months[t.month := days'];
    var after := before[t.year := months'];
    forall y | y in after
      ensures after[y] != map[]
      ensures forall m :: m in after[y] ==> after[y][m] != map[] && forall d :: d in after[y][m] ==> after[y][m][d] != []
    {
      if y == t.year {
        assert t.month in months';
        forall m | m in months'
          ensures months'[m] != map[] && forall d :: d in months'[m] ==> months'[m][d] != []
        {
          if m == t.month {
            assert t.day in days';
            forall d | d in days' ensures days'[d] != [] {
              if d != t.day {
                assert days'[d] == before[y][m][d];
              }
            }
          } else {
            assert months'[m] == before[y][m];
          }
        }
      }
    }
  }

  /** The index holds exactly the filed events, each under its own `start` day, in filing order. */
  ghost predicate Indexes(idx: Index, filed: seq<Event>) {
    && (forall i :: 0 <= i < |filed| ==> filed[i].Stamped())
    && (forall y, m, d :: Lookup(idx, y, m, d) == OnDay(filed, y, m, d))
    && NoEmptyLevels(idx)
  }

  /** Filing a stamped event into its day's bucket keeps the index exact. */
  lemma IndexesAppend(idx: Index, filed: seq<Event>, e: Event)
    requires Indexes(idx, filed) && e.Stamped()
    ensures var t := e.Get("start").time;
            Indexes(idx[t.year := MonthsOf(idx, t)[t.month :=
                      DaysOf(idx, t)[t.day := Lookup(idx, t.year, t.month, t.day) + [e]]]], filed + [e])
  {
    var t := e.Get("start").time;
    var after := idx[t.year := MonthsOf(idx, t)[t.month :=
                   DaysOf(idx, t)[t.day := Lookup(idx, t.year, t.month, t.day) + [e]]]];
    AppendLookup(idx, e, t);
    forall y, m, d ensures Lookup(after, y, m, d) == OnDay(filed + [e], y, m, d) {
      OnDayAppend(filed, e, y, m, d);
    }
    assert forall i :: 0 <= i < |filed| ==> (filed + [e])[i] == filed[i];
  }

  /**
   * Between two exact indexes, filing one event appends it to the bucket of its own
   * `start` day and leaves every other bucket unchanged.
   */
  lemma FilingAppendsToOwnDay(before: Index, after: Index, filed: seq<Event>, e: Event)
    requires Indexes(before, filed) && Indexes(after, filed + [e])
    ensures forall y, m, d :: Lookup(after, y, m, d) ==
              Lookup(before, y, m, d) + (if StartsOn(e, y, m, d) then [e] else [])
  {
    forall y, m, d ensures Lookup(after, y, m, d) == Lookup(before, y, m, d) + (if StartsOn(e, y, m, d) then [e] else []) {
      OnDayAppend(filed, e, y, m, d);
    }
  }

  /**
   * `Calendar(contents)` (vevent.py:34-35): unfold the text, then parse it. When no line
   * after the first is empty, the events filed are those `Extract` finds in the unfolded
   * logical lines.
   */
  method NewCalendar(contents: string) returns (c: Calendar, err: Option<Error>)
    requires BreaksOnlyAtNewline(contents)
    ensures c.Valid()
    ensures err == Some(EmptyLineExamined) ==> exists i :: 1 <= i < |SplitLines(contents)| && SplitLines(contents)[i] == ""
    ensures |contents| >= 2 && contents[|contents| - 2..] == "\n\n" ==> err == Some(EmptyLineExamined)
    ensures Examinable(SplitLines(contents)) ==>
              (err.None? <==> Extract(SplitLines(Join(Unfolded(SplitLines(contents))))).Ok?)
              && (err.None? ==> c.filed == Extract(SplitLines(Join(Unfolded(SplitLines(contents))))).value.filed)
              && (err.Some? ==> Extract(SplitLines(Join(Unfolded(SplitLines(contents))))) == Err(err.value))
  {
    c := new Calendar();
    var text := Unwrap(contents);
    if text.Err? {
      return c, Some(text.error);
    }
    err := c.Parse(text.value);
  }
}
