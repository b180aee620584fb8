/**
 * Unescaping of property values (`Calendar.__unformat`): the two TEXT escapes of
 * section 3.3.11 of RFC 5545 the code handles, `\n` for a line break and `\,` for a
 * comma. Every other escape (`\;`, `\N`) is left as it is, and `\\` is not an escape
 * either: a backslash after it still pairs with a following `n` or `,`.
 */
module Unescaping {

  /**
   * `s.replace(pat, rep)`: occurrences of `pat` are found from left to right and do
   * not overlap; the text between them is kept.
   */
  function ReplaceAll(s: string, pat: string, rep: string): (r: string)
    requires |pat| > 0
    ensures (forall i :: 0 <= i < |s| ==> s[i] != pat[0]) ==> r == s
    decreases |s|
  {
    if |s| < |pat| then s
    else if s[..|pat|] == pat then rep + ReplaceAll(s[|pat|..], pat, rep)
    else [s[0]] + ReplaceAll(s[1..], pat, rep)
  }

  /** The replacements in the order the dictionary literal lists them. */
  const Replacements: seq<(string, string)> := [("\\n", "\n"), ("\\,", ",")]

  /** The replacements `reps` applied one after the other to `s`. */
  function ReplaceEach(s: string, reps: seq<(string, string)>): string
    requires forall k :: 0 <= k < |reps| ==> |reps[k].0| > 0
  {
    if reps == [] then s
    else ReplaceAll(ReplaceEach(s, reps[..|reps| - 1]), reps[|reps| - 1].0, reps[|reps| - 1].1)
  }

  /** Every `\n` replaced by a line break, and after that every `\,` by a comma. */
  function Unescaped(s: string): (r: string)
    ensures (forall i :: 0 <= i < |s| ==> s[i] != '\\') ==> r == s
  {
    ReplaceAll(ReplaceAll(s, "\\n", "\n"), "\\,", ",")
  }

  /** `__unformat` (vevent.py:48-52): the loop over the replacement table, reassigning `s`. */
  method Unformat(s: string) returns (r: string)
    ensures r == Unescaped(s)
    ensures (forall i :: 0 <= i < |s| ==> s[i] != '\\') ==> r == s
  {
    r := s;
    for k := 0 to |Replacements|
      invariant r == ReplaceEach(s, Replacements[..k])
    {
      assert Replacements[..k + 1][..k] == Replacements[..k];
      r := ReplaceAll(r, Replacements[k].0, Replacements[k].1);
    }
    assert Replacements[..|Replacements|] == Replacements;
    assert Replacements[..1] == [("\\n", "\n")];
  }

  /**
   * The escaping a writer of the file applies to a text value: a line break becomes
   * `\n` and a comma `\,`. The partner of `Unescaped`.
   */
  function Escape(t: string): (r: string)
    ensures |r| >= |t|
  {
    if t == [] then []
    else (if t[0] == '\n' then "\\n" else if t[0] == ',' then "\\," else [t[0]]) + Escape(t[1..])
  }

  /** Only commas escaped: what is left after the first replacement has run over `Escape(t)`. */
  function EscapeCommas(t: string): string {
    if t == [] then []
    else (if t[0] == ',' then "\\," else [t[0]]) + EscapeCommas(t[1..])
  }

  /** A character that cannot start the pattern is copied and the scan moves on. */
  lemma ReplaceSkip(c: char, s: string, pat: string, rep: string)
    requires |pat| > 0 && c != pat[0]
    ensures ReplaceAll([c] + s, pat, rep) == [c] + ReplaceAll(s, pat, rep)
  {
    var cs := [c] + s;
    assert cs[1..] == s;
    if |cs| < |pat| {
      assert ReplaceAll(s, pat, rep) == s;
    }
  }

  lemma ReplaceFound(s: string, pat: string, rep: string)
    requires |pat| > 0
    ensures ReplaceAll(pat + s, pat, rep) == rep + ReplaceAll(s, pat, rep)
  {
    assert (pat + s)[..|pat|] == pat;
    assert (pat + s)[|pat|..] == s;
  }

  /** An escaped comma is not an escaped newline: the first replacement copies it. */
  lemma ReplaceEscapedComma(s: string)
    ensures ReplaceAll("\\," + s, "\\n", "\n") == "\\," + ReplaceAll(s, "\\n", "\n")
  {
    var t := "\\," + s;
    assert t[..2] == "\\,";
    assert t[..2] != "\\n" by {
      assert t[..2][1] == ',';
    }
    assert t[1..] == [','] + s;
    ReplaceSkip(',', s, "\\n", "\n");
  }

  lemma {:induction false} UnescapeNewlines(t: string)
    requires forall i :: 0 <= i < |t| ==> t[i] != '\\'
    ensures ReplaceAll(Escape(t), "\\n", "\n") == EscapeCommas(t)
  {
    if t != [] {
      var rest := Escape(t[1..]);
      UnescapeNewlines(t[1..]);
      if t[0] == '\n' {
        ReplaceFound(rest, "\\n", "\n");
      } else if t[0] == ',' {
        ReplaceEscapedComma(rest);
      } else {
        ReplaceSkip(t[0], rest, "\\n", "\n");
      }
    }
  }

  lemma {:induction false} UnescapeCommas(t: string)
    requires forall i :: 0 <= i < |t| ==> t[i] != '\\'
    ensures ReplaceAll(EscapeCommas(t), "\\,", ",") == t
  {
    if t != [] {
      var rest := EscapeCommas(t[1..]);
      UnescapeCommas(t[1..]);
      if t[0] == ',' {
        assert EscapeCommas(t) == "\\," + rest;
        ReplaceFound(rest, "\\,", ",");
      } else {
        assert EscapeCommas(t) == [t[0]] + rest;
        ReplaceSkip(t[0], rest, "\\,", ",");
      }
      assert [t[0]] + t[1..] == t;
    }
  }

  /**
   * Round trip: a text without backslashes, escaped and then unescaped, comes back
   * unchanged, line breaks and commas included.
   */
  lemma UnescapeEscape(t: string)
    requires forall i :: 0 <= i < |t| ==> t[i] != '\\'
    ensures Unescaped(Escape(t)) == t
  {
    UnescapeNewlines(t);
    UnescapeCommas(t);
  }
}
