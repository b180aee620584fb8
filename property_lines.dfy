/**
 * Recognisers for the content lines the parser acts on, standing for the regular
 * expressions of `Calendar.__parse` (vevent.py:74-79). A content line has the shape
 * `NAME[;params]:value` of section 3.1 of RFC 5545, with NAME restricted to upper-case
 * letters and '-'. Lines come from `splitlines`, so they hold no "\n" and the regular
 * expressions' `.` (any character but "\n") is any character here.
 */
module PropertyLines {
  import opened Outcomes
  import opened Strings
  import opened Timestamps

  /** `[A-Z\-]`. */
  predicate IsNameChar(c: char) {
    'A' <= c <= 'Z' || c == '-'
  }

  predicate IsName(s: string) {
    |s| > 0 && forall i :: 0 <= i < |s| ==> IsNameChar(s[i])
  }

  /** The length of the longest run of name characters at the start of `s`. */
  function NameLength(s: string): (n: nat)
    ensures n <= |s|
    ensures forall i :: 0 <= i < n ==> IsNameChar(s[i])
    ensures n < |s| ==> !IsNameChar(s[n])
  {
    if s == [] || !IsNameChar(s[0]) then 0 else 1 + NameLength(s[1..])
  }

  /** A content line taken apart: the parameters are kept as one piece of text, without the ';'. */
  datatype Property = Property(name: string, params: Option<string>, value: string)

  /** What `[A-Z\-]+(;[^:]+)?:.+` accepts: a name, non-empty parameters without ':', a non-empty value. */
  predicate WellFormed(p: Property) {
    && IsName(p.name)
    && (p.params.Some? ==> |p.params.value| > 0 && forall i :: 0 <= i < |p.params.value| ==> p.params.value[i] != ':')
    && |p.value| > 0
  }

  /** The content line of a property. */
  function Render(p: Property): string {
    p.name + (if p.params.Some? then ";" + p.params.value else "") + ":" + p.value
  }

  /**
   * `re.search("^([A-Z\-]+)(?:;[^:]+)?:(.+)$", line)`: the name is the whole leading run of
   * name characters (a shorter one would leave a name character where ';' or ':' must
   * follow), the parameters run to the first ':' after it, and the value is the rest.
   */
  function ParseProperty(line: string): (r: Option<Property>)
    ensures r.Some? ==> WellFormed(r.value) && Render(r.value) == line
  {
    var n := NameLength(line);
    if n == 0 || n == |line| then None
    else if line[n] == ':' then
      if n + 1 == |line| then None
      else
        SplitWithoutParams(line, n);
        Some(Property(line[..n], None, line[n + 1..]))
    else if line[n] == ';' then
      var rest := line[n + 1..];
      var c := IndexOf(rest, ':');
      if c == 0 || c == |rest| || c + 1 == |rest| then None
      else
        SplitWithParams(line, n, rest, c);
        Some(Property(line[..n], Some(rest[..c]), rest[c + 1..]))
    else None
  }

  lemma SplitWithoutParams(line: string, n: nat)
    requires 0 < n && n + 1 < |line| && line[n] == ':'
    requires forall i :: 0 <= i < n ==> IsNameChar(line[i])
    ensures WellFormed(Property(line[..n], None, line[n + 1..]))
    ensures Render(Property(line[..n], None, line[n + 1..])) == line
  {
    assert line == line[..n] + ":" + line[n + 1..];
  }

  lemma SplitWithParams(line: string, n: nat, rest: string, c: nat)
    requires 0 < n < |line| && line[n] == ';' && rest == line[n + 1..]
    requires forall i :: 0 <= i < n ==> IsNameChar(line[i])
    requires 0 < c && c + 1 < |rest| && rest[c] == ':'
    requires forall j :: 0 <= j < c ==> rest[j] != ':'
    ensures WellFormed(Property(line[..n], Some(rest[..c]), rest[c + 1..]))
    ensures Render(Property(line[..n], Some(rest[..c]), rest[c + 1..])) == line
  {
    LeadingName(line, n);
    ParamsHaveNoColon(rest, c);
    PartsWellFormed(line[..n], rest[..c], rest[c + 1..]);
    RejoinParams(line, n, rest, c);
  }

  lemma LeadingName(line: string, n: nat)
    requires 0 < n <= |line| && forall i :: 0 <= i < n ==> IsNameChar(line[i])
    ensures IsName(line[..n])
  {
  }

  lemma PartsWellFormed(name: string, q: string, v: string)
    requires IsName(name) && |q| > 0 && |v| > 0
    requires forall j :: 0 <= j < |q| ==> q[j] != ':'
    ensures WellFormed(Property(name, Some(q), v))
  {
  }

  lemma RejoinParams(line: string, n: nat, rest: string, c: nat)
    requires 0 < n < |line| && line[n] == ';' && rest == line[n + 1..]
    requires c < |rest| && rest[c] == ':'
    ensures line == line[..n] + ";" + rest[..c] + ":" + rest[c + 1..]
  {
    assert rest == rest[..c] + ":" + rest[c + 1..];
    assert line == line[..n] + ";" + rest;
  }

  lemma ParamsHaveNoColon(rest: string, c: nat)
    requires c <= |rest| && forall j :: 0 <= j < c ==> rest[j] != ':'
    ensures forall j :: 0 <= j < |rest[..c]| ==> rest[..c][j] != ':'
  {
    forall j | 0 <= j < |rest[..c]| ensures rest[..c][j] != ':' {
      assert rest[..c][j] == rest[j];
    }
  }

  /** Reading a rendered well-formed property gives it back. */
  lemma ParseRender(p: Property)
    requires WellFormed(p)
    ensures ParseProperty(Render(p)) == Some(p)
  {
    var line := Render(p);
    var n := |p.name|;
    NameLengthOfName(p.name, line[n..]);
    assert line == p.name + line[n..];
    if p.params.Some? {
      var q := p.params.value;
      var rest := line[n + 1..];
      assert rest == q + ":" + p.value;
      assert rest[|q|] == ':';
      assert IndexOf(rest, ':') == |q|;
      assert rest[..|q|] == q;
      assert rest[|q| + 1..] == p.value;
    } else {
      assert line[n + 1..] == p.value;
    }
  }

  lemma {:induction false} NameLengthOfName(name: string, tail: string)
    requires IsName(name) && (tail == [] || !IsNameChar(tail[0]))
    ensures NameLength(name + tail) == |name|
    decreases |name|
  {
    var s := name + tail;
    assert s[1..] == name[1..] + tail;
    if |name| > 1 {
      NameLengthOfName(name[1..], tail);
    } else {
      assert name[1..] + tail == tail;
    }
  }

  /** The text recogniser accepts exactly the rendered well-formed properties. */
  lemma ParsePropertyExactly(line: string, p: Property)
    ensures ParseProperty(line) == Some(p) <==> WellFormed(p) && Render(p) == line
  {
    if WellFormed(p) && Render(p) == line {
      ParseRender(p);
    }
  }

  /** `[0-9]{8}T[0-9]{6}Z?`: a stamp, optionally followed by the UTC designator. */
  predicate IsStampValue(v: string) {
    IsStamp(v) || (|v| == 16 && v[15] == 'Z' && IsStamp(v[..15]))
  }

  /**
   * `re.match("^.+:([0-9]{8}T[0-9]{6})Z?$", line)`, decided on the line's last 16 or 17
   * characters: some character, then ':' and a stamp value ending the line.
   */
  predicate EndsWithStamp(line: string): (r: bool)
    ensures r ==> |line| >= 17 && (line[|line| - 1] == 'Z' || IsDigit(line[|line| - 1]))
  {
    || (|line| >= 17 && line[|line| - 16] == ':' && IsStamp(line[|line| - 15..]))
    || (|line| >= 18 && line[|line| - 1] == 'Z' && line[|line| - 17] == ':' && IsStamp(line[|line| - 16..|line| - 1]))
  }

  /** `EndsWithStamp` is the regular expression's meaning: a ':' after at least one character, then a stamp value. */
  lemma EndsWithStampExactly(line: string)
    ensures EndsWithStamp(line) <==> exists k :: 1 <= k < |line| && line[k] == ':' && IsStampValue(line[k + 1..])
  {
    if |line| >= 17 && line[|line| - 16] == ':' && IsStamp(line[|line| - 15..]) {
      assert IsStampValue(line[|line| - 16 + 1..]);
    } else if |line| >= 18 && line[|line| - 1] == 'Z' && line[|line| - 17] == ':' && IsStamp(line[|line| - 16..|line| - 1]) {
      var v := line[|line| - 17 + 1..];
      assert v[..15] == line[|line| - 16..|line| - 1];
      assert IsStampValue(v);
    }
    if exists k :: 1 <= k < |line| && line[k] == ':' && IsStampValue(line[k + 1..]) {
      var k :| 1 <= k < |line| && line[k] == ':' && IsStampValue(line[k + 1..]);
      var v := line[k + 1..];
      if IsStamp(v) {
        assert k == |line| - 16;
      } else {
        assert k == |line| - 17;
        assert v[..15] == line[|line| - 16..|line| - 1];
      }
    }
  }

  /** A leading "DT" is dropped when more name follows it: `(?:DT)?` is tried first and `[A-Z\-]+` needs a character. */
  function StripDT(name: string): (r: string)
    ensures IsName(name) ==> IsName(r)
    ensures |r| <= |name| && r == name[|name| - |r|..]
  {
    if |name| > 2 && name[..2] == "DT" then name[2..] else name
  }

  /** A DATE-TIME line taken apart: the field name before lowering, and the 15-character stamp. */
  datatype StampLine = StampLine(name: string, stamp: string)

  /**
   * `re.search("^(?:DT)?([A-Z\-]+)(?:;[^:]+)?:([0-9]{8}T[0-9]{6})Z?$", line)`: the same
   * split as `ParseProperty`, with a stamp value, and "DT" stripped from the name.
   */
  function MatchStampLine(line: string): (r: Option<StampLine>)
    ensures r.Some? ==> IsName(r.value.name) && IsStamp(r.value.stamp) && EndsWithStamp(line)
    ensures r.Some? <==> ParseProperty(line).Some? && IsStampValue(ParseProperty(line).value.value)
  {
    match ParseProperty(line)
    case None => None
    case Some(p) =>
      if IsStampValue(p.value) then
        StampValueEndsLine(p);
        Some(StampLine(StripDT(p.name), p.value[..15]))
      else None
  }

  lemma StampValueEndsLine(p: Property)
    requires WellFormed(p) && IsStampValue(p.value)
    ensures EndsWithStamp(Render(p))
  {
    var line := Render(p);
    var k := |line| - |p.value| - 1;
    assert line[k] == ':' && line[k + 1..] == p.value;
    EndsWithStampExactly(line);
  }

  /** A property whose value is a stamp value yields its stamp and its name without "DT". */
  lemma MatchRendered(p: Property)
    requires WellFormed(p) && IsStampValue(p.value)
    ensures MatchStampLine(Render(p)) == Some(StampLine(StripDT(p.name), p.value[..15]))
  {
    ParseRender(p);
  }

  /** `DTSTART` names the field `START`, `DTEND` the field `END`; a bare `DT` keeps its name. */
  lemma StripDTExamples()
    ensures StripDT("DTSTART") == "START" && StripDT("DTEND") == "END"
    ensures StripDT("DT") == "DT" && StripDT("CREATED") == "CREATED"
  {
    assert "DTSTART"[..2] == "DT" && "DTEND"[..2] == "DT";
    assert "CREATED"[..2] != "DT" by { assert "CREATED"[0] == 'C'; }
  }

  /**
   * A text value that ends in ':' and a stamp satisfies the first regular expression but
   * not the second, so `matches` is None (vevent.py:74-76): such a line makes the parser fail.
   */
  lemma TextEndingInStamp(name: string, text: string, stamp: string)
    requires IsName(name) && |text| > 0 && IsStamp(stamp)
    ensures EndsWithStamp(name + ":" + text + ":" + stamp)
    ensures MatchStampLine(name + ":" + text + ":" + stamp).None?
  {
    var line := name + ":" + text + ":" + stamp;
    assert line[|line| - 15..] == stamp;
    var p := Property(name, None, text + ":" + stamp);
    assert Render(p) == line;
    ParseRender(p);
  }
}
