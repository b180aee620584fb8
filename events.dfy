/**
 * Events and the line-by-line state machine of `Calendar.__parse` (vevent.py:54-80),
 * stated on values: the reference the imperative parser in `Calendars` is proved against.
 */
module Events {
  import opened Outcomes
  import opened Strings
  import opened Timestamps
  import opened Unescaping
  import opened PropertyLines

  /** What an attribute of an `Event` object can hold: None, a string or a datetime. */
  datatype Value = Null | Text(text: string) | Stamp(time: DateTime)

  /**
   * A `Calendar.Event` object: its attributes by name, as `setattr` leaves them. An
   * attribute that was never set reads as Null; the code only reads `start` and `end`,
   * which the constructor always sets.
   */
  datatype Event = Event(attrs: map<string, Value>) {

    function Get(name: string): Value {
      if name in attrs then attrs[name] else Null
    }

    /** `setattr(event, name, v)`: that attribute holds `v`, every other one is unchanged. */
    function Set(name: string, v: Value): (r: Event)
      ensures r.Get(name) == v
      ensures forall n :: n != name ==> r.Get(n) == Get(n)
      ensures r.attrs.Keys == attrs.Keys + {name}
    {
      Event(attrs[name := v])
    }

    /** The event can be filed: its `start` is a datetime. */
    predicate Stamped() {
      Get("start").Stamp?
    }
  }

  /** `Calendar.Event()` (vevent.py:104-109): empty texts, no start and no end. */
  function NewEvent(): (e: Event)
    ensures e.Get("summary") == Text("") && e.Get("description") == Text("") && e.Get("location") == Text("")
    ensures e.Get("start") == Null && e.Get("end") == Null
    ensures !e.Stamped()
  {
    Event(map["summary" := Text(""), "description" := Text(""), "location" := Text(""),
              "start" := Null, "end" := Null])
  }

  const BeginMarker: string := "BEGIN:VEVENT"
  const EndMarker: string := "END:VEVENT"

  /**
   * A property line applied to the event in progress (vevent.py:74-80). A line ending in
   * ':' and a stamp value must also fit `[DT]NAME[;params]:stamp`, or the code fails on
   * `matches.group` (AttributeError); its stamp must be a valid date-time, or `strptime`
   * fails (ValueError). Otherwise a line `NAME[;params]:value` sets the lowered NAME to the
   * unescaped value, and any other line is ignored.
   */
  function SetProperty(e: Event, line: string): (r: Result<Event>)
    ensures r.Err? ==> r.error == StampLineUnmatched || r.error == InvalidTimestamp
    ensures r.Err? ==> EndsWithStamp(line)
    ensures r.Ok? && r.value != e ==> ParseProperty(line).Some?
  {
    if EndsWithStamp(line) then
      match MatchStampLine(line)
      case None => Err(StampLineUnmatched)
      case Some(m) =>
        match StampToDateTime(m.stamp)
        case Err(x) => Err(x)
        case Ok(t) => Ok(e.Set(Lower(m.name), Stamp(t)))
    else
      match ParseProperty(line)
      case None => Ok(e)
      case Some(p) => Ok(e.Set(Lower(p.name), Text(Unescaped(p.value))))
  }

  /** A DATE-TIME line sets the field named by its property name without "DT", lowered, to the parsed stamp. */
  lemma StampLineSets(e: Event, p: Property)
    requires WellFormed(p) && IsStampValue(p.value) && Valid(Fields(p.value[..15]))
    ensures SetProperty(e, Render(p)) == Ok(e.Set(Lower(StripDT(p.name)), Stamp(Fields(p.value[..15]))))
  {
    MatchRendered(p);
  }

  /** A line that ends in a stamp but does not fit the DATE-TIME form is a failure. */
  lemma StampLineFails(e: Event, line: string)
    requires EndsWithStamp(line) && MatchStampLine(line).None?
    ensures SetProperty(e, line) == Err(StampLineUnmatched)
  {
  }

  /** A DATE-TIME line whose digits do not form a valid date-time fails as `strptime` does. */
  lemma StampLineInvalid(e: Event, p: Property)
    requires WellFormed(p) && IsStampValue(p.value) && !Valid(Fields(p.value[..15]))
    ensures SetProperty(e, Render(p)) == Err(InvalidTimestamp)
  {
    MatchRendered(p);
  }

  /** A text line sets the field named by its lowered property name to its unescaped value; parameters are dropped. */
  lemma TextLineSets(e: Event, p: Property)
    requires WellFormed(p) && !EndsWithStamp(Render(p))
    ensures SetProperty(e, Render(p)) == Ok(e.Set(Lower(p.name), Text(Unescaped(p.value))))
  {
    ParseRender(p);
  }

  /** A line of neither form leaves the event as it is. */
  lemma OtherLineIgnored(e: Event, line: string)
    requires !EndsWithStamp(line) && ParseProperty(line).None?
    ensures SetProperty(e, line) == Ok(e)
  {
  }

  /**
   * A value too short to hold a stamp, such as the DATE value of `DTSTART;VALUE=DATE:20170118`,
   * is text: the field is named after the whole property name (`dtstart`), and `start` is not set.
   */
  lemma ShortValueIsText(e: Event, p: Property)
    requires WellFormed(p) && |p.value| < 15
    requires forall i :: 0 <= i < |p.value| ==> p.value[i] != '\\'
    ensures SetProperty(e, Render(p)) == Ok(e.Set(Lower(p.name), Text(p.value)))
  {
    var line := Render(p);
    var k := |line| - |p.value| - 1;
    assert line[k] == ':';
    assert line[k + 1..] == p.value;
    TextLineSets(e, p);
  }

  /** The parser's state between lines: the event in progress, and the events filed so far, in order. */
  datatype State = State(current: Option<Event>, filed: seq<Event>)

  /** How `__parse` reacts to one logical line (vevent.py:59-80). */
  function Step(st: State, line: string): (r: Result<State>)
    ensures r.Ok? ==> st.filed <= r.value.filed
    ensures r.Ok? ==> |r.value.filed| == |st.filed| + (if line == EndMarker then 1 else 0)
    ensures r.Ok? && line == EndMarker ==>
              r.value.current.None? && st.current.Some? && r.value.filed[|st.filed|] == st.current.value
              && st.current.value.Stamped()
    ensures r.Err? && line == EndMarker ==>
              if st.current.None? then r.error == EndWithoutEvent else r.error == StartNotTimestamp
    ensures line == BeginMarker ==> r == Ok(State(Some(NewEvent()), st.filed))
  {
    if line == BeginMarker then Ok(State(Some(NewEvent()), st.filed))
    else if line == EndMarker then
      match st.current
      case None => Err(EndWithoutEvent)
      case Some(e) => if e.Stamped() then Ok(State(None, st.filed + [e])) else Err(StartNotTimestamp)
    else
      match st.current
      case None => Ok(st)
      case Some(e) =>
        match SetProperty(e, line)
        case Err(x) => Err(x)
        case Ok(e') => Ok(State(Some(e'), st.filed))
  }

  /** The state after the lines one by one; the first failure ends the run. */
  function Run(st: State, lines: seq<string>): (r: Result<State>)
    ensures r.Err? ==> r.error in {EndWithoutEvent, StartNotTimestamp, StampLineUnmatched, InvalidTimestamp}
  {
    if lines == [] then Ok(st)
    else
      match Run(st, lines[..|lines| - 1])
      case Err(x) => Err(x)
      case Ok(s) => Step(s, lines[|lines| - 1])
  }

  /** The parse of a whole text's logical lines, from no event and nothing filed. */
  function Extract(lines: seq<string>): (r: Result<State>)
    ensures r.Err? ==> r.error in {EndWithoutEvent, StartNotTimestamp, StampLineUnmatched, InvalidTimestamp}
    ensures r.Ok? ==> |r.value.filed| == EndCount(lines)
    ensures r.Ok? ==> forall i :: 0 <= i < |r.value.filed| ==> r.value.filed[i].Stamped()
  {
    RunFiles(State(None, []), lines);
    Run(State(None, []), lines)
  }

  /** Running two pieces of text one after the other is running them together. */
  lemma {:induction false} RunAppend(st: State, a: seq<string>, b: seq<string>)
    ensures Run(st, a + b) == (match Run(st, a) case Err(x) => Err(x) case Ok(s) => Run(s, b))
    decreases |b|
  {
    if b == [] {
      assert a + b == a;
    } else {
      var init := b[..|b| - 1];
      assert (a + b)[..|a + b| - 1] == a + init;
      RunAppend(st, a, init);
    }
  }

  /** Lines other than the markers, outside an event, change nothing. */
  lemma {:induction false} InertOutsideEvents(filed: seq<Event>, lines: seq<string>)
    requires forall i :: 0 <= i < |lines| ==> lines[i] != BeginMarker && lines[i] != EndMarker
    ensures Run(State(None, filed), lines) == Ok(State(None, filed))
  {
    if lines != [] {
      InertOutsideEvents(filed, lines[..|lines| - 1]);
    }
  }

  /**
   * `BEGIN:VEVENT` discards the event in progress: what follows it does not depend on
   * which event, if any, was being built.
   */
  lemma BeginDiscards(c1: Option<Event>, c2: Option<Event>, filed: seq<Event>, rest: seq<string>)
    ensures Run(State(c1, filed), [BeginMarker] + rest) == Run(State(c2, filed), [BeginMarker] + rest)
  {
    RunAppend(State(c1, filed), [BeginMarker], rest);
    RunAppend(State(c2, filed), [BeginMarker], rest);
    assert Run(State(c1, filed), [BeginMarker]) == Ok(State(Some(NewEvent()), filed));
    assert Run(State(c2, filed), [BeginMarker]) == Ok(State(Some(NewEvent()), filed));
  }

  /** The number of `END:VEVENT` lines. */
  function EndCount(lines: seq<string>): nat {
    if lines == [] then 0
    else EndCount(lines[..|lines| - 1]) + (if lines[|lines| - 1] == EndMarker then 1 else 0)
  }

  /**
   * A run that does not fail files exactly one event per `END:VEVENT` line, keeps what
   * was filed before, and files only events with a datetime `start`.
   */
  lemma {:induction false} RunFiles(st: State, lines: seq<string>)
    requires forall i :: 0 <= i < |st.filed| ==> st.filed[i].Stamped()
    ensures Run(st, lines).Ok? ==>
              && st.filed <= Run(st, lines).value.filed
              && |Run(st, lines).value.filed| == |st.filed| + EndCount(lines)
              && forall i :: 0 <= i < |Run(st, lines).value.filed| ==> Run(st, lines).value.filed[i].Stamped()
  {
    if lines != [] {
      RunFiles(st, lines[..|lines| - 1]);
    }
  }

  /** A failure is final: more lines do not change it. */
  lemma FailureSticks(st: State, a: seq<string>, b: seq<string>)
    requires Run(st, a).Err?
    ensures Run(st, a + b) == Run(st, a)
  {
    RunAppend(st, a, b);
  }

  /** The parse of one more line is one more step. */
  lemma ExtractNext(lines: seq<string>, i: nat, st: State)
    requires i < |lines| && Extract(lines[..i]) == Ok(st)
    ensures Extract(lines[..i + 1]) == Step(st, lines[i])
  {
    assert lines[..i + 1][..i] == lines[..i];
  }

  /** A parse that fails at line `i` fails for the whole text, with the same error. */
  lemma ExtractStops(lines: seq<string>, i: nat)
    requires i < |lines| && Extract(lines[..i + 1]).Err?
    ensures Extract(lines) == Extract(lines[..i + 1])
  {
    FailureSticks(State(None, []), lines[..i + 1], lines[i + 1..]);
    assert lines[..i + 1] + lines[i + 1..] == lines;
  }

  /** An event with no DTSTART line (here, an empty one) cannot be filed. */
  lemma MissingStartFails(filed: seq<Event>)
    ensures Run(State(None, filed), [BeginMarker, EndMarker]) == Err(StartNotTimestamp)
  {
    var lines := [BeginMarker, EndMarker];
    var st := State(None, filed);
    assert lines[..1] == [BeginMarker];
    assert [BeginMarker][..0] == [];
    assert Run(st, [BeginMarker]) == Step(st, BeginMarker) == Ok(State(Some(NewEvent()), filed));
    assert Run(st, lines) == Step(State(Some(NewEvent()), filed), EndMarker);
  }
}
