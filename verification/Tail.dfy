/** Reading the end of a console log: backwards in chunks, and forwards as it grows. */
module Tail {
  import opened Common

  newtype byte = x: int | 0 <= x < 256

  const LF: byte := 10
  const CR: byte := 13

  type Line = seq<byte>

  // ----- what the lines of a file are -----

  /** A line without one trailing carriage return. */
  function Chomp(line: Line): Line {
    if line != [] && line[|line| - 1] == CR then line[..|line| - 1] else line
  }

  function CountLF(b: seq<byte>): nat {
    if b == [] then 0 else (if b[0] == LF then 1 else 0) + CountLF(b[1..])
  }

  /** `cur` is the line being read. An unterminated last line counts unless nothing of it is left. */
  function LinesFrom(cur: Line, b: seq<byte>): seq<Line>
    decreases |b|
  {
    if b == [] then (if Chomp(cur) == [] then [] else [Chomp(cur)])
    else if b[0] == LF then [Chomp(cur)] + LinesFrom([], b[1..])
    else LinesFrom(cur + [b[0]], b[1..])
  }

  /** The lines of a file. */
  function Lines(b: seq<byte>): seq<Line> {
    LinesFrom([], b)
  }

  // ----- the code -----

  /** countNewlines */
  method CountNewlines(b: seq<byte>) returns (n: nat)
    ensures n == CountLF(b)
  {
    n := 0;
    for i := 0 to |b|
      invariant n + CountLF(b[i..]) == CountLF(b)
    {
      if b[i] == LF { n := n + 1; }
    }
  }

  /** splitLines */
  method SplitLines(b: seq<byte>) returns (out: seq<Line>)
    ensures out == Lines(b)
  {
    if |b| == 0 {
      return [];
    }
    out := [];
    var start := 0;
    for i := 0 to |b|
      invariant 0 <= start <= i
      invariant out + LinesFrom(b[start..i], b[i..]) == Lines(b)
    {
      assert b[i..][0] == b[i] && b[i..][1..] == b[i + 1..];
      if b[i] == LF {
        var line := Trimmed(b[start..i]);
        assert out + ([line] + LinesFrom([], b[i + 1..])) == (out + [line]) + LinesFrom([], b[i + 1..]);
        out := out + [line];
        start := i + 1;
        assert b[start..i + 1] == [];
      } else {
        assert b[start..i] + [b[i]] == b[start..i + 1];
      }
    }
    assert b[|b|..] == [] && b[start..|b|] == b[start..];
    if start < |b| {
      var line := Trimmed(b[start..]);
      if |line| > 0 {
        out := out + [line];
      }
    } else {
      assert b[start..] == [];
    }
  }

  method Trimmed(line: Line) returns (r: Line)
    ensures r == Chomp(line)
  {
    r := line;
    if |line| > 0 && line[|line| - 1] == CR {
      r := line[..|line| - 1];
    }
  }

  const CHUNK := 32 * 1024
  const MAX_LINES := 2000
  const DEFAULT_LINES := 200

  /** The number of lines actually served for a request of `n`. */
  function Clamp(n: int): nat {
    if n <= 0 then DEFAULT_LINES else if n > MAX_LINES then MAX_LINES else n
  }

  /** TailLines on an existing file whose content does not change during the call. */
  method TailLines(file: seq<byte>, n: int) returns (lines: seq<Line>, size: nat)
    ensures lines == Last(Lines(file), Clamp(n)) && size == |file|
  {
    var want := n;
    if want <= 0 { want := DEFAULT_LINES; }
    if want > MAX_LINES { want := MAX_LINES; }
    size := |file|;
    if size == 0 {
      return [], 0;
    }
    var buf: seq<byte> := [];
    var remaining := size;
    var need := want + 1;
    var have := CountNewlines(buf);
    while remaining > 0 && have < need
      invariant 0 <= remaining <= |file| && buf == file[remaining..] && have == CountLF(buf)
    {
      var read := CHUNK;
      if remaining < read { read := remaining; }
      remaining := remaining - read;
      var block := file[remaining..remaining + read];
      assert file[remaining..] == block + buf;
      buf := block + buf;
      have := CountNewlines(buf);
    }
    var all := SplitLines(buf);
    if remaining > 0 {
      assert file == file[..remaining] + buf;
      LastLinesOfSuffix(file[..remaining], buf, want);
    } else {
      assert file[0..] == file;
    }
    lines := all;
    if |all| > want {
      lines := all[|all| - want..];
    }
  }

  // ----- why a suffix is enough -----

  /** Every newline ends a line. */
  lemma {:induction false} NewlinesMakeLines(cur: Line, b: seq<byte>)
    ensures |LinesFrom(cur, b)| >= CountLF(b)
    decreases |b|
  {
    if b != [] {
      NewlinesMakeLines(if b[0] == LF then [] else cur + [b[0]], b[1..]);
    }
  }

  /** A newline separates what is before it from what is after it, wherever the line containing it began. */
  lemma {:induction false} LinesAfterNewline(cur: Line, a: seq<byte>, rest: seq<byte>)
    ensures exists before :: LinesFrom(cur, a + [LF] + rest) == before + Lines(rest)
    decreases |a|
  {
    var b := a + [LF] + rest;
    if a == [] {
      assert b[1..] == rest;
      assert LinesFrom(cur, b) == [Chomp(cur)] + Lines(rest);
    } else {
      assert b[1..] == a[1..] + [LF] + rest;
      var next := if b[0] == LF then [] else cur + [b[0]];
      LinesAfterNewline(next, a[1..], rest);
      var before :| LinesFrom(next, b[1..]) == before + Lines(rest);
      if b[0] == LF {
        assert LinesFrom(cur, b) == ([Chomp(cur)] + before) + Lines(rest);
      }
    }
  }

  /** A buffer with a newline splits at its first one. */
  lemma {:induction false} FirstNewline(b: seq<byte>) returns (i: nat)
    requires CountLF(b) > 0
    ensures i < |b| && b[i] == LF && CountLF(b) == 1 + CountLF(b[i + 1..])
    decreases |b|
  {
    if b[0] == LF {
      i := 0;
    } else {
      i := FirstNewline(b[1..]);
      assert b[1..][i + 1..] == b[i + 2..];
      i := i + 1;
    }
  }

  lemma LastOfSuffix<T>(before: seq<T>, after: seq<T>, n: nat)
    requires |after| >= n
    ensures Last(before + after, n) == Last(after, n)
  {
    assert (before + after)[|before| + |after| - n..] == after[|after| - n..];
  }

  /** What follows a newline decides the last lines, if it has enough of them. */
  lemma LastLinesAfterNewline(b: seq<byte>, i: nat, n: nat)
    requires i < |b| && b[i] == LF && |Lines(b[i + 1..])| >= n
    ensures Last(Lines(b), n) == Last(Lines(b[i + 1..]), n)
  {
    var rest := b[i + 1..];
    LinesAfterNewline([], b[..i], rest);
    assert b == b[..i] + [LF] + rest;
    var before :| Lines(b) == before + Lines(rest);
    LastOfSuffix(before, Lines(rest), n);
  }

  lemma CutAtFirstNewline(pre: seq<byte>, buf: seq<byte>, i: nat, n: nat)
    requires i < |buf| && buf[i] == LF && |Lines(buf[i + 1..])| >= n
    ensures Last(Lines(pre + buf), n) == Last(Lines(buf), n)
  {
    var file := pre + buf;
    assert file[|pre| + i + 1..] == buf[i + 1..];
    LastLinesAfterNewline(buf, i, n);
    LastLinesAfterNewline(file, |pre| + i, n);
  }

  /** A suffix with more than n newlines has the same last n lines as the file, although its own first line may be
      cut. */
  lemma LastLinesOfSuffix(pre: seq<byte>, buf: seq<byte>, n: nat)
    requires CountLF(buf) > n
    ensures Last(Lines(pre + buf), n) == Last(Lines(buf), n)
  {
    var i := FirstNewline(buf);
    NewlinesMakeLines([], buf[i + 1..]);
    CutAtFirstNewline(pre, buf, i, n);
  }

  // ----- lines are what was written -----

  function Ended(line: Line, crlf: bool): Line {
    if crlf then line + [CR] else line
  }

  /** Lines written one by one, each ended by LF or CRLF. */
  function Written(lines: seq<Line>, crlf: seq<bool>): seq<byte>
    requires |crlf| == |lines|
  {
    if lines == [] then []
    else Ended(lines[0], crlf[0]) + [LF] + Written(lines[1..], crlf[1..])
  }

  /** A line a writer can mean: no newline inside and no carriage return of its own at the end. */
  predicate Plain(line: Line) {
    LF !in line && Chomp(line) == line
  }

  lemma {:induction false} ReadLine(cur: Line, line: Line, rest: seq<byte>)
    requires LF !in line
    ensures LinesFrom(cur, line + [LF] + rest) == [Chomp(cur + line)] + Lines(rest)
    decreases |line|
  {
    var b := line + [LF] + rest;
    if line == [] {
      assert b[1..] == rest && cur + line == cur;
    } else {
      assert b[1..] == line[1..] + [LF] + rest;
      ReadLine(cur + [line[0]], line[1..], rest);
      assert cur + [line[0]] + line[1..] == cur + line;
    }
  }

  lemma {:induction false} ReadLast(cur: Line, last: Line)
    requires LF !in last
    ensures LinesFrom(cur, last) == if Chomp(cur + last) == [] then [] else [Chomp(cur + last)]
    decreases |last|
  {
    if last == [] {
      assert cur + last == cur;
    } else {
      ReadLast(cur + [last[0]], last[1..]);
      assert cur + [last[0]] + last[1..] == cur + last;
    }
  }

  lemma FirstWritten(line: Line, more: seq<byte>, rest: seq<byte>)
    ensures line + [LF] + more + rest == line + [LF] + (more + rest)
  {
  }

  lemma {:induction false} LinesBefore(lines: seq<Line>, crlf: seq<bool>, rest: seq<byte>)
    requires |crlf| == |lines| && forall i :: 0 <= i < |lines| ==> Plain(lines[i])
    ensures Lines(Written(lines, crlf) + rest) == lines + Lines(rest)
  {
    if lines == [] {
      assert Written(lines, crlf) + rest == rest;
    } else {
      var line, more := Ended(lines[0], crlf[0]), Written(lines[1..], crlf[1..]);
      FirstWritten(line, more, rest);
      ReadLine([], line, more + rest);
      assert [] + line == line && Chomp(line) == lines[0];
      LinesBefore(lines[1..], crlf[1..], rest);
      assert lines + Lines(rest) == [lines[0]] + (lines[1..] + Lines(rest));
    }
  }

  lemma LinesAreWhatWasWritten(lines: seq<Line>, crlf: seq<bool>)
    requires |crlf| == |lines| && forall i :: 0 <= i < |lines| ==> Plain(lines[i])
    ensures Lines(Written(lines, crlf)) == lines
  {
    LinesBefore(lines, crlf, []);
    assert Written(lines, crlf) + [] == Written(lines, crlf);
  }

  /** A last line that nothing ends yet is read too, unless nothing of it is there but a carriage return. */
  lemma UnfinishedLineIsRead(lines: seq<Line>, crlf: seq<bool>, last: Line)
    requires |crlf| == |lines| && forall i :: 0 <= i < |lines| ==> Plain(lines[i])
    requires Plain(last)
    ensures last != [] ==> Lines(Written(lines, crlf) + last) == lines + [last]
    ensures last != [] ==> Lines(Written(lines, crlf) + (last + [CR])) == lines + [last]
    ensures Lines(Written(lines, crlf) + [CR]) == lines == Lines(Written(lines, crlf))
  {
    LinesBefore(lines, crlf, last);
    LinesBefore(lines, crlf, last + [CR]);
    LinesBefore(lines, crlf, [CR]);
    LinesAreWhatWasWritten(lines, crlf);
    assert [] + last == last && [] + (last + [CR]) == last + [CR] && [] + [CR] == [CR];
    ReadLast([], last);
    ReadLast([], last + [CR]);
    ReadLast([], [CR]);
  }

  // ----- following a log -----

  /** ReadSince on an existing file. */
  method ReadSince(file: seq<byte>, offset: nat) returns (data: seq<byte>, next: nat)
    ensures (data, next) == Since(file, offset)
  {
    var from := offset;
    if from > |file| { from := 0; }
    if from == |file| {
      assert file[from..] == [];
      return [], |file|;
    }
    return file[from..], |file|;
  }

  function Since(file: seq<byte>, offset: nat): (seq<byte>, nat) {
    (file[if offset > |file| then 0 else offset..], |file|)
  }

  /** Polling: the file at each poll, and everything delivered. */
  function Delivered(polls: seq<seq<byte>>, offset: nat): seq<byte> {
    if polls == [] then []
    else Since(polls[0], offset).0 + Delivered(polls[1..], Since(polls[0], offset).1)
  }

  /** While the file only grows, nothing is lost or sent twice. */
  lemma {:induction false} FollowingDeliversAll(polls: seq<seq<byte>>, offset: nat)
    requires polls != [] && offset <= |polls[0]|
    requires forall i :: 0 <= i < |polls| - 1 ==> polls[i] <= polls[i + 1]
    ensures polls[0] <= polls[|polls| - 1]
    ensures Delivered(polls, offset) == polls[|polls| - 1][offset..]
    decreases |polls|
  {
    if |polls| == 1 {
      assert Delivered(polls[1..], |polls[0]|) == [];
    } else {
      assert polls[1..][0] == polls[1];
      forall i | 0 <= i < |polls[1..]| - 1
        ensures polls[1..][i] <= polls[1..][i + 1]
      {
        assert polls[1..][i] == polls[i + 1] && polls[1..][i + 1] == polls[i + 2];
      }
      FollowingDeliversAll(polls[1..], |polls[0]|);
      var end := polls[|polls| - 1];
      assert polls[0] <= polls[1] <= end;
      assert polls[0][offset..] + end[|polls[0]|..] == end[offset..];
    }
  }

  /** A file that became shorter than what was read is delivered from its start. */
  lemma ShrinkingStartsOver(polls: seq<seq<byte>>, offset: nat)
    requires polls != [] && offset > |polls[0]|
    ensures Delivered(polls, offset) == Delivered(polls, 0)
  {
    assert Since(polls[0], offset) == Since(polls[0], 0);
  }

  /** What of a new log arrives that takes the place of one of `seen` bytes, all delivered. */
  lemma NewLogArrives(after: seq<seq<byte>>, seen: nat)
    requires after != [] && forall i :: 0 <= i < |after| - 1 ==> after[i] <= after[i + 1]
    ensures seen > |after[0]| ==> Delivered(after, seen) == after[|after| - 1]
    ensures seen <= |after[0]| ==>
              seen <= |after[|after| - 1]| && Delivered(after, seen) == after[|after| - 1][seen..]
  {
    if seen > |after[0]| {
      ShrinkingStartsOver(after, seen);
      FollowingDeliversAll(after, 0);
      assert after[|after| - 1][0..] == after[|after| - 1];
    } else {
      FollowingDeliversAll(after, seen);
    }
  }

  /** When a log is replaced while it is followed, the rest of the old one arrives, and then what a reader gets of the
      new one who believes to have read as much of it. */
  lemma {:induction false} RotationDeliversBoth(before: seq<seq<byte>>, after: seq<seq<byte>>, offset: nat)
    requires before != [] && offset <= |before[0]| && after != []
    requires forall i :: 0 <= i < |before| - 1 ==> before[i] <= before[i + 1]
    requires forall i :: 0 <= i < |after| - 1 ==> after[i] <= after[i + 1]
    ensures offset <= |before[|before| - 1]|
    ensures Delivered(before + after, offset)
         == before[|before| - 1][offset..] + Delivered(after, |before[|before| - 1]|)
    decreases |before|
  {
    var polls := before + after;
    var end := before[|before| - 1];
    if |before| == 1 {
      assert polls[1..] == after;
    } else {
      var rest := before[1..];
      assert polls[1..] == rest + after && rest[0] == before[1];
      forall i | 0 <= i < |rest| - 1
        ensures rest[i] <= rest[i + 1]
      {
        assert rest[i] == before[i + 1] && rest[i + 1] == before[i + 2];
      }
      RotationDeliversBoth(rest, after, |before[0]|);
      FollowingDeliversAll(before, offset);
      assert end[offset..] == before[0][offset..] + end[|before[0]|..];
    }
  }

  /** Exactly when nothing of either log is missed. */
  lemma RotationIsCompleteExactly(before: seq<seq<byte>>, after: seq<seq<byte>>, offset: nat)
    requires before != [] && offset <= |before[0]| && after != []
    requires forall i :: 0 <= i < |before| - 1 ==> before[i] <= before[i + 1]
    requires forall i :: 0 <= i < |after| - 1 ==> after[i] <= after[i + 1]
    ensures var former, latter := before[|before| - 1], after[|after| - 1];
            && offset <= |former|
            && (Delivered(before + after, offset) == former[offset..] + latter
                <==> |after[0]| < |former| || former == [])
  {
    var former, latter := before[|before| - 1], after[|after| - 1];
    RotationDeliversBoth(before, after, offset);
    NewLogArrives(after, |former|);
    if |after[0]| >= |former| && former != [] {
      assert |latter[|former|..]| < |latter|;
      assert |Delivered(before + after, offset)| < |former[offset..] + latter|;
    }
  }
}
