/**
 * Content-line unfolding (`Calendar.__unwrap`): a physical line that starts with a
 * space continues the line before it. This is the part of section 3.1 of RFC 5545
 * the code implements: only a space (not a tab) marks a continuation, and the first
 * line is never examined.
 */
module Unfolding {
  import opened Outcomes
  import opened Strings

  /** No line holds a line break. */
  predicate AllOneLine(lines: seq<string>) {
    forall k :: 0 <= k < |lines| ==> IsOneLine(lines[k])
  }

  /**
   * `str.splitlines()` on text whose only line breaks are "\n": the text between
   * breaks, with no empty line after a final "\n".
   */
  function SplitLines(s: string): (r: seq<string>)
    ensures r == [] <==> s == []
    decreases |s|
  {
    if s == [] then []
    else
      var i := IndexOf(s, '\n');
      if i == |s| then [s] else [s[..i]] + SplitLines(s[i + 1..])
  }

  /** No line holds a "\n"; when "\n" is the only break in the text, no line holds a break at all. */
  lemma {:induction false} SplitLinesShape(s: string)
    ensures NoNewlines(SplitLines(s))
    ensures BreaksOnlyAtNewline(s) ==> AllOneLine(SplitLines(s))
    decreases |s|
  {
    if s != [] {
      var i := IndexOf(s, '\n');
      BeforeBreak(s, i);
      if i < |s| {
        var rest := s[i + 1..];
        SplitLinesShape(rest);
        if BreaksOnlyAtNewline(s) {
          AfterBreak(s, i);
        }
        SplitAtBreak(s, i);
        ConsShape(s[..i], SplitLines(rest));
      } else {
        assert s[..i] == s;
      }
    }
  }

  /** No line holds a "\n". */
  predicate NoNewlines(lines: seq<string>) {
    forall k :: 0 <= k < |lines| ==> '\n' !in lines[k]
  }

  lemma BeforeBreak(s: string, i: nat)
    requires i == IndexOf(s, '\n')
    ensures '\n' !in s[..i]
    ensures BreaksOnlyAtNewline(s) ==> IsOneLine(s[..i])
  {
    var first := s[..i];
    forall j | 0 <= j < |first| ensures first[j] == s[j] && first[j] != '\n' {
    }
  }

  lemma AfterBreak(s: string, i: nat)
    requires i < |s| && BreaksOnlyAtNewline(s)
    ensures BreaksOnlyAtNewline(s[i + 1..])
  {
    var rest := s[i + 1..];
    forall j | 0 <= j < |rest| ensures rest[j] == s[i + 1 + j] {
    }
  }

  lemma ConsShape(first: string, tail: seq<string>)
    requires '\n' !in first && NoNewlines(tail)
    ensures NoNewlines([first] + tail)
    ensures IsOneLine(first) && AllOneLine(tail) ==> AllOneLine([first] + tail)
  {
    var r := [first] + tail;
    forall k | 1 <= k < |r| ensures r[k] == tail[k - 1] {
    }
  }

  /** `"\n".join(lines)`. */
  function Join(lines: seq<string>): (r: string)
    ensures AllOneLine(lines) ==> BreaksOnlyAtNewline(r)
  {
    if |lines| == 0 then ""
    else if |lines| == 1 then lines[0]
    else lines[0] + "\n" + Join(lines[1..])
  }

  /** Splitting joined lines gives them back, unless the last one is empty (`splitlines` drops it). */
  lemma {:induction false} SplitJoin(lines: seq<string>)
    requires AllOneLine(lines)
    requires lines == [] || lines[|lines| - 1] != ""
    ensures SplitLines(Join(lines)) == lines
  {
    if |lines| == 1 {
      SplitOneLine(lines[0]);
    } else if |lines| > 1 {
      var first, tail := lines[0], lines[1..];
      assert lines == [first] + tail;
      OneLineTail(lines);
      SplitJoinCons(first, tail);
      SplitJoin(tail);
    }
  }

  lemma SplitOneLine(a: string)
    requires IsOneLine(a) && a != ""
    ensures SplitLines(a) == [a]
  {
    forall j | 0 <= j < |a| ensures a[j] != '\n' {
      assert !IsLineBreak(a[j]);
    }
    assert IndexOf(a, '\n') == |a|;
  }

  lemma OneLineTail(lines: seq<string>)
    requires AllOneLine(lines) && lines != []
    ensures IsOneLine(lines[0]) && AllOneLine(lines[1..])
  {
    forall k | 0 <= k < |lines| - 1 ensures lines[1..][k] == lines[k + 1] {}
  }

  lemma SplitJoinCons(first: string, tail: seq<string>)
    requires IsOneLine(first) && tail != []
    ensures SplitLines(Join([first] + tail)) == [first] + SplitLines(Join(tail))
  {
    JoinCons(first, tail);
    BreakAfterLine(first, Join(tail));
    SplitAtBreak(first + "\n" + Join(tail), |first|);
  }

  /** The first "\n" of `a + "\n" + rest`, for a line `a` without breaks, is the one after `a`. */
  lemma BreakAfterLine(a: string, rest: string)
    requires IsOneLine(a)
    ensures IndexOf(a + "\n" + rest, '\n') == |a|
    ensures (a + "\n" + rest)[..|a|] == a && (a + "\n" + rest)[|a| + 1..] == rest
  {
    var s := a + "\n" + rest;
    assert s[|a|] == '\n';
    forall j | 0 <= j < |a| ensures s[j] != '\n' {
      assert s[j] == a[j] && !IsLineBreak(a[j]);
    }
  }

  /** Joining the lines of a text gives it back, unless it ends with "\n" (`splitlines` drops the break). */
  lemma {:induction false} JoinSplit(s: string)
    requires s == [] || s[|s| - 1] != '\n'
    ensures Join(SplitLines(s)) == s
    decreases |s|
  {
    if s != [] {
      var i := IndexOf(s, '\n');
      if i < |s| {
        var rest := s[i + 1..];
        JoinSplit(rest);
        SplitAtBreak(s, i);
        JoinCons(s[..i], SplitLines(rest));
        Rejoin(s, i);
      } else {
        assert SplitLines(s) == [s];
      }
    }
  }

  lemma Rejoin(s: string, i: nat)
    requires i < |s| && s[i] == '\n'
    ensures s == s[..i] + "\n" + s[i + 1..]
  {
  }

  /** A text with a "\n" splits at the first one into the line before it and the lines after it. */
  lemma SplitAtBreak(s: string, i: nat)
    requires i == IndexOf(s, '\n') && i < |s|
    ensures SplitLines(s) == [s[..i]] + SplitLines(s[i + 1..])
  {
  }

  lemma JoinCons(line: string, tail: seq<string>)
    requires tail != []
    ensures Join([line] + tail) == line + "\n" + Join(tail)
  {
    assert ([line] + tail)[1..] == tail;
  }

  /** A line whose first character is a space: it continues the line before it. */
  predicate IsContinuation(line: string) {
    |line| > 0 && line[0] == ' '
  }

  /** No line after the first is empty, so `lines[i][0]` never fails. */
  predicate Examinable(lines: seq<string>) {
    forall i :: 1 <= i < |lines| ==> lines[i] != ""
  }

  /** The number of characters in all lines together. */
  function TotalLength(lines: seq<string>): nat {
    if lines == [] then 0 else TotalLength(lines[..|lines| - 1]) + |lines[|lines| - 1]|
  }

  lemma {:induction false} TotalLengthAppend(a: seq<string>, b: seq<string>)
    ensures TotalLength(a + b) == TotalLength(a) + TotalLength(b)
    decreases |b|
  {
    if b != [] {
      assert (a + b)[..|a + b| - 1] == a + b[..|b| - 1];
      assert (a + b)[|a + b| - 1] == b[|b| - 1];
      assert TotalLength(a + b) == TotalLength(a + b[..|b| - 1]) + |b[|b| - 1]|;
      assert TotalLength(b) == TotalLength(b[..|b| - 1]) + |b[|b| - 1]|;
      TotalLengthAppend(a, b[..|b| - 1]);
    } else {
      assert a + b == a;
    }
  }

  /** The number of lines after the first that are continuations. */
  function Continuations(lines: seq<string>): nat {
    if |lines| <= 1 then 0
    else Continuations(lines[..|lines| - 1]) + (if IsContinuation(lines[|lines| - 1]) then 1 else 0)
  }

  /** One step of unfolding front to back: a continuation joins the last logical line, any other line follows it. */
  function Extend(prev: seq<string>, line: string): (r: seq<string>)
    requires prev != []
    ensures |r| == |prev| + (if IsContinuation(line) then 0 else 1)
    ensures prev[0] <= r[0]
  {
    if IsContinuation(line) then prev[..|prev| - 1] + [prev[|prev| - 1] + line[1..]]
    else prev + [line]
  }

  /**
   * The unfolded lines, built front to back: a continuation line after the first is
   * appended, without its leading space, to the logical line built so far; any other
   * line starts a new logical line. This is the reference the backward loop of
   * `UnfoldLines` is proved against.
   */
  function Unfolded(lines: seq<string>): (r: seq<string>)
    requires Examinable(lines)
    ensures |r| == |lines| - Continuations(lines)
    ensures |r| == 0 <==> |lines| == 0
    ensures |lines| > 0 ==> lines[0] <= r[0]
    decreases |lines|
  {
    if |lines| <= 1 then lines
    else
      var init := lines[..|lines| - 1];
      var prev := Unfolded(init);
      var line := lines[|lines| - 1];
      assert init[0] == lines[0];
      Extend(prev, line)
  }

  /** Every logical line after the first is non-empty and is not a continuation. */
  lemma {:induction false} UnfoldedSettled(lines: seq<string>)
    requires Examinable(lines)
    ensures forall k :: 1 <= k < |Unfolded(lines)| ==> Unfolded(lines)[k] != "" && !IsContinuation(Unfolded(lines)[k])
    decreases |lines|
  {
    if |lines| > 1 {
      var init := lines[..|lines| - 1];
      var line := lines[|lines| - 1];
      UnfoldedSettled(init);
      assert Unfolded(lines) == Extend(Unfolded(init), line);
    }
  }

  /** Unfolding removes exactly one character, the marker space, per merged line. */
  lemma {:induction false} UnfoldedLength(lines: seq<string>)
    requires Examinable(lines)
    ensures TotalLength(Unfolded(lines)) == TotalLength(lines) - Continuations(lines)
    decreases |lines|
  {
    if |lines| > 1 {
      var init := lines[..|lines| - 1];
      var prev := Unfolded(init);
      var line := lines[|lines| - 1];
      UnfoldedLength(init);
      assert lines == init + [line];
      TotalLengthAppend(init, [line]);
      var r := Extend(prev, line);
      assert Unfolded(lines) == r;
      if IsContinuation(line) {
        assert r == prev[..|prev| - 1] + [prev[|prev| - 1] + line[1..]];
        assert prev == prev[..|prev| - 1] + [prev[|prev| - 1]];
        TotalLengthAppend(prev[..|prev| - 1], [prev[|prev| - 1]]);
        TotalLengthAppend(prev[..|prev| - 1], [prev[|prev| - 1] + line[1..]]);
      } else {
        TotalLengthAppend(prev, [line]);
      }
    }
  }

  /** Unfolding only moves characters between lines: it adds no line break. */
  lemma {:induction false} UnfoldedOneLine(lines: seq<string>)
    requires Examinable(lines)
    requires AllOneLine(lines)
    ensures AllOneLine(Unfolded(lines))
    decreases |lines|
  {
    if |lines| > 1 {
      var init := lines[..|lines| - 1];
      UnfoldedOneLine(init);
    }
  }

  /** With no continuation line, unfolding changes nothing. */
  lemma {:induction false} UnfoldedWithoutContinuations(lines: seq<string>)
    requires Examinable(lines)
    requires forall i :: 1 <= i < |lines| ==> !IsContinuation(lines[i])
    ensures Unfolded(lines) == lines
    decreases |lines|
  {
    if |lines| > 1 {
      var init := lines[..|lines| - 1];
      var line := lines[|lines| - 1];
      UnfoldedWithoutContinuations(init);
      assert !IsContinuation(line);
      assert Unfolded(lines) == Extend(Unfolded(init), line);
      assert lines == init + [line];
    }
  }

  /** A continuation line is appended, without its leading space, to the line before it. */
  lemma ContinuationJoins(a: string, b: string)
    ensures Unfolded([a, " " + b]) == [a + b]
  {
    var lines := [a, " " + b];
    assert lines[..1] == [a];
    assert (" " + b)[1..] == b;
  }

  /** A chain of continuation lines folds onto the nearest earlier line that is not one. */
  lemma ChainJoins(a: string, b: string, c: string)
    ensures Unfolded([a, " " + b, " " + c]) == [a + b + c]
  {
    var lines := [a, " " + b, " " + c];
    assert lines[..2] == [a, " " + b];
    ContinuationJoins(a, b);
    assert (" " + c)[1..] == c;
  }

  /** A line put in front of unfolded lines `u`: merged with the first of them when `merge` holds. */
  function Prepend(head: string, u: seq<string>, merge: bool): seq<string>
    requires u != [] && (merge ==> u[0] != "")
  {
    if merge then [head + u[0][1..]] + u[1..] else [head] + u
  }

  lemma ExtendPrepend(head: string, u: seq<string>, merge: bool, line: string)
    requires u != [] && (merge ==> u[0] != "")
    ensures Extend(u, line) != [] && (merge ==> Extend(u, line)[0] != "")
    ensures Extend(Prepend(head, u, merge), line) == Prepend(head, Extend(u, line), merge)
  {
    if IsContinuation(line) && merge && |u| == 1 {
      MergeTwice(head, u[0], line);
    } else if merge {
      assert Extend(u, line)[0] == u[0];
    }
  }

  /** A block of one line merged into `head` and then extended by a continuation. */
  lemma MergeTwice(head: string, first: string, line: string)
    requires first != "" && IsContinuation(line)
    ensures Extend([head + first[1..]], line) == [head + (first + line[1..])[1..]]
  {
    assert (first + line[1..])[1..] == first[1..] + line[1..];
    assert head + first[1..] + line[1..] == head + (first[1..] + line[1..]);
    assert [head + first[1..]][..0] == [];
  }

  /**
   * Unfolding a line in front of a block: the first line of the block's unfolding is
   * merged into it exactly when the block starts with a continuation.
   */
  lemma {:induction false} UnfoldedCons(head: string, block: seq<string>)
    requires |block| > 0 && Examinable([head] + block)
    ensures Examinable(block)
    ensures Unfolded(block) != [] && (IsContinuation(block[0]) ==> Unfolded(block)[0] != "")
    ensures Unfolded([head] + block) == Prepend(head, Unfolded(block), IsContinuation(block[0]))
    decreases |block|
  {
    var lines := [head] + block;
    forall i | 1 <= i < |block| ensures block[i] != "" {
      assert block[i] == lines[i + 1];
    }
    if |block| == 1 {
      assert lines[..1] == [head];
      assert Unfolded(lines) == Extend(Unfolded([head]), block[0]);
    } else {
      var init := block[..|block| - 1];
      var line := block[|block| - 1];
      assert lines[..|lines| - 1] == [head] + init;
      assert Examinable([head] + init) by {
        forall i | 1 <= i < |init| + 1 ensures ([head] + init)[i] != "" {
          assert ([head] + init)[i] == lines[i];
        }
      }
      UnfoldedCons(head, init);
      assert init[0] == block[0];
      assert Unfolded(lines) == Extend(Unfolded([head] + init), line);
      assert Unfolded(block) == Extend(Unfolded(init), line);
      ExtendPrepend(head, Unfolded(init), IsContinuation(block[0]), line);
    }
  }

  /** `lines[i - 1] += lines[i][1:]` followed by `lines.pop(i)`. */
  function MergedAt(s: seq<string>, i: nat): seq<string>
    requires 1 <= i < |s| && s[i] != ""
  {
    s[..i - 1] + [s[i - 1] + s[i][1..]] + s[i + 1..]
  }

  lemma MergedAtFacts(s: seq<string>, i: nat)
    requires 1 <= i < |s| && s[i] != ""
    ensures |MergedAt(s, i)| == |s| - 1
    ensures forall j :: 0 <= j < i - 1 ==> MergedAt(s, i)[j] == s[j]
    ensures MergedAt(s, i)[i - 1] == s[i - 1] + s[i][1..]
    ensures forall j :: i <= j < |s| - 1 ==> MergedAt(s, i)[j] == s[j + 1]
    ensures TotalLength(MergedAt(s, i)) == TotalLength(s) - 1
  {
    MergedAtLength(s, i);
  }

  lemma MergedAtLength(s: seq<string>, i: nat)
    requires 1 <= i < |s| && s[i] != ""
    ensures TotalLength(MergedAt(s, i)) == TotalLength(s) - 1
  {
    SplitAround(s, i);
    TotalLengthPair(s[i - 1], s[i]);
    TotalLengthReplace(s[..i - 1], [s[i - 1], s[i]], [s[i - 1] + s[i][1..]], s[i + 1..]);
  }

  lemma SplitAround(s: seq<string>, i: nat)
    requires 1 <= i < |s|
    ensures s == s[..i - 1] + [s[i - 1], s[i]] + s[i + 1..]
  {
    assert s == s[..i - 1] + s[i - 1..];
    assert s[i - 1..] == [s[i - 1], s[i]] + s[i + 1..];
  }

  lemma TotalLengthPair(a: string, b: string)
    ensures TotalLength([a, b]) == |a| + |b|
  {
    assert TotalLength([a]) == |a| by {
      assert [a][..0] == [];
    }
    assert [a, b][..1] == [a];
    assert TotalLength([a, b]) == TotalLength([a]) + |b|;
  }

  /** Replacing a middle block by one with a known total length changes the total by the difference. */
  lemma TotalLengthReplace(front: seq<string>, mid: seq<string>, mid': seq<string>, back: seq<string>)
    ensures TotalLength(front + mid + back) - TotalLength(front + mid' + back) == TotalLength(mid) - TotalLength(mid')
  {
    TotalLengthAppend(front + mid, back);
    TotalLengthAppend(front + mid', back);
    TotalLengthAppend(front, mid);
    TotalLengthAppend(front, mid');
  }

  lemma OneLineAppend(a: string, b: string)
    requires IsOneLine(a) && IsOneLine(b) && b != ""
    ensures IsOneLine(a + b[1..])
  {
    forall k | 0 <= k < |a + b[1..]| ensures !IsLineBreak((a + b[1..])[k]) {
      if k >= |a| {
        assert (a + b[1..])[k] == b[k - |a| + 1];
      }
    }
  }

  lemma MergedAtOneLine(s: seq<string>, i: nat)
    requires 1 <= i < |s| && s[i] != ""
    requires AllOneLine(s)
    ensures AllOneLine(MergedAt(s, i))
  {
    MergedAtFacts(s, i);
    OneLineAppend(s[i - 1], s[i]);
    forall k | 0 <= k < |s| - 1 ensures IsOneLine(MergedAt(s, i)[k]) {
      if k < i - 1 {
        assert MergedAt(s, i)[k] == s[k];
      } else if k >= i {
        assert MergedAt(s, i)[k] == s[k + 1];
      }
    }
  }

  /**
   * One step of the backward loop against the reference: the suffix from `i - 1` unfolds
   * to the suffix from `i` with its first logical line merged into `lines[i - 1]` exactly
   * when `lines[i]` is a continuation.
   */
  lemma UnfoldStep(lines: seq<string>, i: nat)
    requires Examinable(lines) && 1 <= i < |lines|
    ensures Examinable(lines[i..])
    ensures Unfolded(lines[i..]) != [] && lines[i] <= Unfolded(lines[i..])[0]
    ensures lines[..i - 1] + Unfolded(lines[i - 1..]) ==
      (var ls := lines[..i] + Unfolded(lines[i..]);
       if IsContinuation(lines[i]) then MergedAt(ls, i) else ls)
  {
    var u := Unfolded(lines[i..]);
    assert lines[i - 1..] == [lines[i - 1]] + lines[i..];
    UnfoldedCons(lines[i - 1], lines[i..]);
    if IsContinuation(lines[i]) {
      MergeIntoPrefix(lines[..i], u);
    } else {
      assert lines[..i] == lines[..i - 1] + [lines[i - 1]];
    }
  }

  /** Merging the first unfolded line into the last line of the prefix `p`. */
  lemma MergeIntoPrefix(p: seq<string>, u: seq<string>)
    requires |p| >= 1 && u != [] && u[0] != ""
    ensures p[..|p| - 1] + ([p[|p| - 1] + u[0][1..]] + u[1..]) == MergedAt(p + u, |p|)
  {
    var ls := p + u;
    var i := |p|;
    assert ls[..i - 1] == p[..i - 1];
    assert ls[i - 1] == p[i - 1] && ls[i] == u[0];
    assert ls[i + 1..] == u[1..];
  }

  /** What the backward loop keeps once it has reached index `i` (`-1` for no lines). */
  predicate LoopInvariant(lines: seq<string>, ls: seq<string>, i: int) {
    && -1 <= i < |ls| <= |lines|
    && (i == -1 <==> |lines| == 0)
    && (forall j :: 0 <= j < i ==> ls[j] == lines[j])
    && (0 <= i ==> lines[i] <= ls[i])
    && (forall j :: i < j < |ls| ==> ls[j] != "" && !IsContinuation(ls[j]))
    && TotalLength(ls) == TotalLength(lines) - (|lines| - |ls|)
    && (AllOneLine(lines) ==> AllOneLine(ls))
    && (Examinable(lines) && 0 <= i ==> ls == lines[..i] + Unfolded(lines[i..]))
  }

  /** The lines after one pass of the loop body at index `i`. */
  function BackStep(ls: seq<string>, i: nat): seq<string>
    requires 1 <= i < |ls| && ls[i] != ""
  {
    if IsContinuation(ls[i]) then MergedAt(ls, i) else ls
  }

  lemma BackStepKeepsShape(lines: seq<string>, ls: seq<string>, i: nat)
    requires LoopInvariant(lines, ls, i) && i >= 1 && ls[i] != ""
    ensures LoopInvariant(lines, BackStep(ls, i), i - 1)
  {
    var next := BackStep(ls, i);
    if IsContinuation(ls[i]) {
      MergedAtFacts(ls, i);
      if AllOneLine(lines) {
        MergedAtOneLine(ls, i);
      }
    }
    if Examinable(lines) {
      BackStepUnfolds(lines, ls, i);
    }
  }

  /** Against the reference: one pass of the body extends the unfolded suffix by one line. */
  lemma BackStepUnfolds(lines: seq<string>, ls: seq<string>, i: nat)
    requires Examinable(lines) && 1 <= i < |lines| && ls == lines[..i] + Unfolded(lines[i..])
    ensures ls[i] != "" && BackStep(ls, i) == lines[..i - 1] + Unfolded(lines[i - 1..])
  {
    UnfoldStep(lines, i);
  }

  /**
   * The unfolding loop of `__unwrap` (vevent.py:42-45) on the physical lines: from the
   * last index down to 1, a line starting with a space is appended, minus that space,
   * to the line before it and removed. An empty line examined at index 1 or more fails
   * as `lines[i][0]` does (IndexError).
   */
  method UnfoldLines(lines: seq<string>) returns (r: Result<seq<string>>)
    ensures r.Err? ==> r.error == EmptyLineExamined && exists i :: 1 <= i < |lines| && lines[i] == ""
    ensures Examinable(lines) ==> r == Ok(Unfolded(lines))
    ensures r.Ok? ==> |r.value| <= |lines| && (|r.value| == 0 <==> |lines| == 0)
    ensures r.Ok? && |lines| > 0 ==> lines[0] <= r.value[0]
    ensures r.Ok? ==> forall k :: 1 <= k < |r.value| ==> r.value[k] != "" && !IsContinuation(r.value[k])
    ensures r.Ok? ==> TotalLength(r.value) == TotalLength(lines) - (|lines| - |r.value|)
    ensures r.Ok? && AllOneLine(lines) ==> AllOneLine(r.value)
    ensures |lines| >= 2 && lines[|lines| - 1] == "" ==> r == Err(EmptyLineExamined)
  {
    var ls := lines;
    var i := |lines| - 1;
    while i > 0
      invariant (|lines| == 0 && i == -1) || 0 <= i < |lines|
      invariant Walk(lines, i) == Ok(ls)
      invariant |lines| >= 2 && lines[|lines| - 1] == "" ==> i == |lines| - 1 && ls == lines
    {
      if ls[i] == "" {
        assert lines[i] == "";
        return Err(EmptyLineExamined);
      }
      if ls[i][0] == ' ' {
        ghost var before := ls;
        ls := ls[i - 1 := ls[i - 1] + ls[i][1..]];
        ls := ls[..i] + ls[i + 1..];
        UpdateThenPop(before, i, ls);
      }
      i := i - 1;
    }
    LoopDone(lines, ls, i);
    return Ok(ls);
  }

  /**
   * The lines as the backward loop holds them when its index is `i`: every index above
   * `i` has been examined and, when a continuation, merged; an empty line examined fails.
   */
  ghost function Walk(lines: seq<string>, i: int): (r: Result<seq<string>>)
    requires (|lines| == 0 && i == -1) || 0 <= i < |lines|
    ensures r.Ok? ==> LoopInvariant(lines, r.value, i)
    decreases |lines| - i
  {
    if i == |lines| - 1 then
      LoopStart(lines);
      Ok(lines)
    else
      match Walk(lines, i + 1)
      case Err(x) => Err(x)
      case Ok(ls) =>
        if ls[i + 1] == "" then Err(EmptyLineExamined)
        else
          BackStepKeepsShape(lines, ls, i + 1);
          Ok(BackStep(ls, i + 1))
  }

  /** Before the loop, nothing is merged and only the last line has been looked at. */
  lemma LoopStart(lines: seq<string>)
    ensures LoopInvariant(lines, lines, |lines| - 1)
  {
    if |lines| > 0 {
      var i := |lines| - 1;
      LastLineUnfolded(lines);
      assert lines[..i] + lines[i..] == lines;
    }
  }

  lemma LastLineUnfolded(lines: seq<string>)
    requires |lines| > 0
    ensures Unfolded(lines[|lines| - 1..]) == lines[|lines| - 1..]
  {
    assert |lines[|lines| - 1..]| == 1;
  }

  /** The two statements of the loop body that merge line `i` into line `i - 1`. */
  lemma UpdateThenPop(ls: seq<string>, i: nat, after: seq<string>)
    requires 1 <= i < |ls| && IsContinuation(ls[i])
    requires var t := ls[i - 1 := ls[i - 1] + ls[i][1..]]; after == t[..i] + t[i + 1..]
    ensures after == BackStep(ls, i)
  {
  }

  /** When the loop ends, its invariant gives every property `UnfoldLines` promises. */
  lemma LoopDone(lines: seq<string>, ls: seq<string>, i: int)
    requires LoopInvariant(lines, ls, i) && i <= 0
    ensures Examinable(lines) ==> ls == Unfolded(lines)
    ensures |ls| <= |lines| && (|ls| == 0 <==> |lines| == 0)
    ensures |lines| > 0 ==> lines[0] <= ls[0]
    ensures forall k :: 1 <= k < |ls| ==> ls[k] != "" && !IsContinuation(ls[k])
    ensures TotalLength(ls) == TotalLength(lines) - (|lines| - |ls|)
    ensures AllOneLine(lines) ==> AllOneLine(ls)
  {
    if Examinable(lines) && |lines| > 0 {
      assert lines[0..] == lines;
      assert lines[..0] + Unfolded(lines) == Unfolded(lines);
    }
  }

  /**
   * `__unwrap` (vevent.py:40-46): split into physical lines, unfold, join with "\n".
   * The caller's text must break lines only at "\n" (see `SplitLines`).
   */
  method Unwrap(content: string) returns (r: Result<string>)
    requires BreaksOnlyAtNewline(content)
    ensures r.Err? ==> r.error == EmptyLineExamined
                       && exists i :: 1 <= i < |SplitLines(content)| && SplitLines(content)[i] == ""
    ensures Examinable(SplitLines(content)) ==> r == Ok(Join(Unfolded(SplitLines(content))))
    ensures r.Ok? ==> BreaksOnlyAtNewline(r.value)
    ensures |content| >= 2 && content[|content| - 2..] == "\n\n" ==> r == Err(EmptyLineExamined)
  {
    var lines := SplitLines(content);
    SplitLinesShape(content);
    if |content| >= 2 && content[|content| - 2..] == "\n\n" {
      TrailingBlankLine(content);
    }
    var unfolded := UnfoldLines(lines);
    if unfolded.Err? {
      return Err(unfolded.error);
    }
    return Ok(Join(unfolded.value));
  }

  /**
   * A text ending in "\n\n" ends in an empty line that `splitlines` keeps, after at least
   * one other line: the first line the backward loop examines.
   */
  lemma {:induction false} TrailingBlankLine(s: string)
    requires |s| >= 2 && s[|s| - 2..] == "\n\n"
    ensures |SplitLines(s)| >= 2 && SplitLines(s)[|SplitLines(s)| - 1] == ""
    decreases |s|
  {
    var i := IndexOf(s, '\n');
    assert s[|s| - 2] == '\n';
    SplitAtBreak(s, i);
    var rest := s[i + 1..];
    if i == |s| - 2 {
      assert rest == "\n";
      assert IndexOf(rest, '\n') == 0;
      assert SplitLines(rest) == [""];
    } else {
      assert rest[|rest| - 2..] == "\n\n";
      TrailingBlankLine(rest);
    }
  }

  /**
   * Text without continuation lines comes out of unfolding as it went in, up to a
   * final "\n" that `splitlines` drops.
   */
  lemma UnwrapWithoutContinuations(content: string)
    requires Examinable(SplitLines(content))
    requires forall i :: 1 <= i < |SplitLines(content)| ==> !IsContinuation(SplitLines(content)[i])
    requires content == [] || content[|content| - 1] != '\n'
    ensures Join(Unfolded(SplitLines(content))) == content
  {
    UnfoldedWithoutContinuations(SplitLines(content));
    JoinSplit(content);
  }

  /**
   * The parser re-splits the unfolded text (vevent.py:57); it sees exactly the unfolded
   * logical lines, except that a lone empty line becomes no line at all.
   */
  lemma ParserSeesUnfoldedLines(content: string)
    requires BreaksOnlyAtNewline(content)
    requires Examinable(SplitLines(content))
    requires Unfolded(SplitLines(content)) != [""]
    ensures SplitLines(Join(Unfolded(SplitLines(content)))) == Unfolded(SplitLines(content))
  {
    var u := Unfolded(SplitLines(content));
    SplitLinesShape(content);
    UnfoldedOneLine(SplitLines(content));
    UnfoldedSettled(SplitLines(content));
    if |u| > 1 {
      assert u[|u| - 1] != "";
    }
    SplitJoin(u);
  }
}
