/** The main section of a JAR manifest: reading it, and why reading undoes the folding of long lines. */
module Manifest {
  import opened Common

  datatype Result<T> = Ok(value: T) | TooLong

  // ----- text -----

  /** strings.TrimRight(s, "\r") */
  function TrimCR(s: string): string {
    if s != "" && s[|s| - 1] == '\r' then TrimCR(s[..|s| - 1]) else s
  }

  /** Position of the first `c`, or the length. */
  function Find(s: string, c: char): (i: nat)
    ensures i <= |s| && (i < |s| ==> s[i] == c) && c !in s[..i]
  {
    if s == "" || s[0] == c then 0
    else
      var i := 1 + Find(s[1..], c);
      assert s[..i] == [s[0]] + s[1..][..i - 1];
      i
  }

  // ----- the parser -----

  /** The scanner's buffer: a line must leave room for its line feed. */
  const MAX_TOKEN := 1024 * 1024

  datatype Section = Section(key: string, attrs: map<string, string>)

  /** One non-empty line. */
  function ReadLine(sec: Section, line: string): Section
    requires line != ""
  {
    if line[0] == ' ' then
      if sec.key == "" then sec
      else sec.(attrs := sec.attrs[sec.key := (if sec.key in sec.attrs then sec.attrs[sec.key] else "") + line[1..]])
    else
      var i := Find(line, ':');
      if i == |line| then sec.(key := "")
      else Section(TrimSpace(line[..i]), sec.attrs[TrimSpace(line[..i]) := TrimSpace(line[i + 1..])])
  }

  /** The attributes once the rest `text` of the manifest has been read. */
  function Read(sec: Section, text: string): Result<map<string, string>>
    decreases |text|
  {
    if text == "" then Ok(sec.attrs)
    else
      var n := Find(text, '\n');
      if n >= MAX_TOKEN then TooLong
      else if TrimCR(text[..n]) == "" then Ok(sec.attrs)
      else if n == |text| then Ok(ReadLine(sec, TrimCR(text[..n])).attrs)
      else Read(ReadLine(sec, TrimCR(text[..n])), text[n + 1..])
  }

  /** parseManifestAttributes */
  method ParseManifestAttributes(text: string) returns (r: Result<map<string, string>>)
    ensures r == Read(Section("", map[]), text)
  {
    var attrs: map<string, string> := map[];
    var currentKey := "";
    var rest := text;
    while rest != ""
      invariant Read(Section(currentKey, attrs), rest) == Read(Section("", map[]), text)
      decreases |rest|
    {
      var n := Find(rest, '\n');
      if n >= MAX_TOKEN {
        return TooLong;
      }
      var line := TrimCR(rest[..n]);
      var more := if n == |rest| then "" else rest[n + 1..];
      if line == "" {
        break;
      }
      if line[0] == ' ' {
        if currentKey != "" {
          attrs := attrs[currentKey := (if currentKey in attrs then attrs[currentKey] else "") + line[1..]];
        }
      } else {
        var i := Find(line, ':');
        if i == |line| {
          currentKey := "";
        } else {
          currentKey := TrimSpace(line[..i]);
          attrs := attrs[currentKey := TrimSpace(line[i + 1..])];
        }
      }
      rest := more;
    }
    return Ok(attrs);
  }

  // ----- the writer -----

  /** A header as it stands in a manifest: its value cut into pieces, one per physical line, each line with its own
      ending. */
  datatype Cut = Cut(key: string, pieces: seq<string>, crlf: seq<bool>)

  type Folded = f: Cut | |f.pieces| == |f.crlf| > 0 witness Cut("k", [""], [false])

  function Concat(pieces: seq<string>): string {
    if pieces == [] then "" else pieces[0] + Concat(pieces[1..])
  }

  function Eol(crlf: bool): string {
    if crlf then "\r\n" else "\n"
  }

  function WriteContinuations(pieces: seq<string>, crlf: seq<bool>): string
    requires |crlf| == |pieces|
  {
    if pieces == [] then "" else " " + pieces[0] + Eol(crlf[0]) + WriteContinuations(pieces[1..], crlf[1..])
  }

  function WriteOne(f: Folded): string {
    f.key + ": " + f.pieces[0] + Eol(f.crlf[0]) + WriteContinuations(f.pieces[1..], f.crlf[1..])
  }

  function Write(fs: seq<Folded>): string {
    if fs == [] then "" else WriteOne(fs[0]) + Write(fs[1..])
  }

  predicate NoBreak(s: string) {
    '\n' !in s && '\r' !in s
  }

  /** A header that may be written: a trimmed key without a colon, a value that does not start with white space, no line
      breaks, and lines the scanner can hold. Where the value is cut is free. */
  predicate Writable(f: Folded) {
    && f.key != "" && !IsSpace(f.key[0]) && !IsSpace(f.key[|f.key| - 1]) && ':' !in f.key && NoBreak(f.key)
    && (Concat(f.pieces) != "" ==> !IsSpace(Concat(f.pieces)[0]))
    && (forall i :: 0 <= i < |f.pieces| ==> NoBreak(f.pieces[i]) && |f.key| + |f.pieces[i]| + 4 <= MAX_TOKEN)
  }

  /** What may follow the main section: nothing, or a blank line and anything at all. */
  predicate SectionEnds(tail: string) {
    tail == "" || "\n" <= tail || "\r\n" <= tail
  }

  /** What the parser makes of a header: the first line loses the white space at its end. */
  function Got(f: Folded): string {
    TrimRight(f.pieces[0]) + Concat(f.pieces[1..])
  }

  function CollectGot(attrs: map<string, string>, fs: seq<Folded>): map<string, string>
    decreases |fs|
  {
    if fs == [] then attrs else CollectGot(attrs[fs[0].key := Got(fs[0])], fs[1..])
  }

  /** The headers that were written. */
  function Headers(attrs: map<string, string>, fs: seq<Folded>): map<string, string>
    decreases |fs|
  {
    if fs == [] then attrs else Headers(attrs[fs[0].key := Concat(fs[0].pieces)], fs[1..])
  }

  // ----- reading undoes writing -----

  lemma FindAt(s: string, i: nat, c: char)
    requires i < |s| && s[i] == c && c !in s[..i]
    ensures Find(s, c) == i
  {
    if i > 0 {
      assert s[..i][0] == s[0] && s[1..][..i - 1] == s[..i][1..];
      FindAt(s[1..], i - 1, c);
    }
  }

  /** One physical line of the text. */
  lemma ReadOneLine(sec: Section, line: string, crlf: bool, rest: string)
    requires NoBreak(line) && line != "" && |line| + 1 < MAX_TOKEN
    ensures Read(sec, line + Eol(crlf) + rest) == Read(ReadLine(sec, line), rest)
  {
    var text := line + Eol(crlf) + rest;
    var n := |line| + if crlf then 1 else 0;
    assert text[..n] == if crlf then line + "\r" else line;
    FindAt(text, n, '\n');
    assert TrimCR(line) == line;
    assert crlf ==> (line + "\r")[..|line|] == line;
    assert text[n + 1..] == rest;
  }

  lemma ReadEnd(sec: Section, tail: string)
    requires SectionEnds(tail)
    ensures Read(sec, tail) == Ok(sec.attrs)
  {
    if "\n" <= tail {
      assert tail[0] == '\n';
    } else if "\r\n" <= tail {
      assert tail[..1] == "\r";
      FindAt(tail, 1, '\n');
      assert TrimCR("\r") == "";
    }
  }

  function Appended(sec: Section, text: string): Section
    requires sec.key in sec.attrs
  {
    sec.(attrs := sec.attrs[sec.key := sec.attrs[sec.key] + text])
  }

  lemma ReadOneContinuation(sec: Section, piece: string, crlf: bool, more: string)
    requires sec.key != "" && sec.key in sec.attrs && NoBreak(piece) && |piece| + 2 < MAX_TOKEN
    ensures Read(sec, " " + piece + Eol(crlf) + more) == Read(Appended(sec, piece), more)
  {
    var line := " " + piece;
    assert line[1..] == piece;
    ReadOneLine(sec, line, crlf, more);
  }

  lemma AppendedNothing(sec: Section)
    requires sec.key in sec.attrs
    ensures Appended(sec, "") == sec
  {
    assert sec.attrs[sec.key] + "" == sec.attrs[sec.key];
  }

  lemma FirstContinuation(pieces: seq<string>, crlf: seq<bool>, rest: string)
    requires |crlf| == |pieces| > 0
    ensures WriteContinuations(pieces, crlf) + rest
         == " " + pieces[0] + Eol(crlf[0]) + (WriteContinuations(pieces[1..], crlf[1..]) + rest)
  {
  }

  /** Continuation lines append to the current header. */
  lemma {:induction false} ReadContinuations(sec: Section, pieces: seq<string>, crlf: seq<bool>, rest: string)
    requires |crlf| == |pieces| && sec.key != "" && sec.key in sec.attrs
    requires forall i :: 0 <= i < |pieces| ==> NoBreak(pieces[i]) && |pieces[i]| + 2 < MAX_TOKEN
    ensures Read(sec, WriteContinuations(pieces, crlf) + rest) == Read(Appended(sec, Concat(pieces)), rest)
    decreases |pieces|
  {
    if pieces == [] {
      assert WriteContinuations(pieces, crlf) + rest == rest;
      AppendedNothing(sec);
    } else {
      FirstContinuation(pieces, crlf, rest);
      ReadOneContinuation(sec, pieces[0], crlf[0], WriteContinuations(pieces[1..], crlf[1..]) + rest);
      ReadContinuations(Appended(sec, pieces[0]), pieces[1..], crlf[1..], rest);
      AppendedTwice(sec, pieces[0], Concat(pieces[1..]));
    }
  }

  lemma AppendedTwice(sec: Section, a: string, b: string)
    requires sec.key in sec.attrs
    ensures Appended(Appended(sec, a), b) == Appended(sec, a + b)
  {
    assert sec.attrs[sec.key] + a + b == sec.attrs[sec.key] + (a + b);
  }

  /** The first line of a header. */
  lemma ReadFirstLine(sec: Section, f: Folded)
    requires Writable(f)
    ensures ReadLine(sec, f.key + ": " + f.pieces[0]) == Section(f.key, sec.attrs[f.key := TrimRight(f.pieces[0])])
  {
    var line := f.key + ": " + f.pieces[0];
    assert line[..|f.key|] == f.key;
    FindAt(line, |f.key|, ':');
    assert TrimSpace(f.key) == f.key;
    assert line[|f.key| + 1..] == " " + f.pieces[0];
    assert (" " + f.pieces[0])[1..] == f.pieces[0];
    if f.pieces[0] != "" {
      assert Concat(f.pieces)[0] == f.pieces[0][0];
    }
    assert TrimLeft(" " + f.pieces[0]) == f.pieces[0];
  }

  lemma WriteOneSplits(f: Folded, rest: string)
    ensures WriteOne(f) + rest
         == f.key + ": " + f.pieces[0] + Eol(f.crlf[0]) + (WriteContinuations(f.pieces[1..], f.crlf[1..]) + rest)
  {
  }

  lemma AppendedValue(sec: Section, f: Folded)
    ensures var one := Section(f.key, sec.attrs[f.key := TrimRight(f.pieces[0])]);
            Appended(one, Concat(f.pieces[1..])) == Section(f.key, sec.attrs[f.key := Got(f)])
  {
  }

  lemma ReadOneHeader(sec: Section, f: Folded, rest: string)
    requires Writable(f)
    ensures Read(sec, WriteOne(f) + rest) == Read(Section(f.key, sec.attrs[f.key := Got(f)]), rest)
  {
    var line := f.key + ": " + f.pieces[0];
    var more := WriteContinuations(f.pieces[1..], f.crlf[1..]) + rest;
    WriteOneSplits(f, rest);
    ReadOneLine(sec, line, f.crlf[0], more);
    ReadFirstLine(sec, f);
    var one := Section(f.key, sec.attrs[f.key := TrimRight(f.pieces[0])]);
    ReadContinuations(one, f.pieces[1..], f.crlf[1..], rest);
    AppendedValue(sec, f);
  }

  lemma WriteSplits(fs: seq<Folded>, tail: string)
    requires fs != []
    ensures Write(fs) + tail == WriteOne(fs[0]) + (Write(fs[1..]) + tail)
  {
  }

  lemma {:induction false} ReadWritten(sec: Section, fs: seq<Folded>, tail: string)
    requires (forall i :: 0 <= i < |fs| ==> Writable(fs[i])) && SectionEnds(tail)
    ensures Read(sec, Write(fs) + tail) == Ok(CollectGot(sec.attrs, fs))
    decreases |fs|
  {
    if fs == [] {
      assert Write(fs) + tail == tail;
      ReadEnd(sec, tail);
    } else {
      WriteSplits(fs, tail);
      ReadOneHeader(sec, fs[0], Write(fs[1..]) + tail);
      ReadWritten(Section(fs[0].key, sec.attrs[fs[0].key := Got(fs[0])]), fs[1..], tail);
    }
  }

  // ----- when nothing is lost -----

  lemma {:induction false} TrimRightShortens(s: string)
    ensures if s == "" || !IsSpace(s[|s| - 1]) then TrimRight(s) == s else |TrimRight(s)| < |s|
  {
    if s != "" && IsSpace(s[|s| - 1]) {
      TrimRightShortens(s[..|s| - 1]);
    }
  }

  /** The first line of the header does not end in white space. */
  predicate KeepsEnd(f: Folded) {
    f.pieces[0] == "" || !IsSpace(f.pieces[0][|f.pieces[0]| - 1])
  }

  lemma GotIsValue(f: Folded)
    ensures Got(f) == Concat(f.pieces) <==> KeepsEnd(f)
  {
    TrimRightShortens(f.pieces[0]);
    assert Concat(f.pieces) == f.pieces[0] + Concat(f.pieces[1..]);
  }

  predicate DistinctKeys(fs: seq<Folded>) {
    forall i, j :: 0 <= i < j < |fs| ==> fs[i].key != fs[j].key
  }

  /** Collecting keeps what is not overwritten. */
  lemma {:induction false} CollectKeeps(attrs: map<string, string>, fs: seq<Folded>, k: string)
    requires forall i :: 0 <= i < |fs| ==> fs[i].key != k
    requires k in attrs
    ensures k in CollectGot(attrs, fs) && CollectGot(attrs, fs)[k] == attrs[k]
    ensures k in Headers(attrs, fs) && Headers(attrs, fs)[k] == attrs[k]
    decreases |fs|
  {
    if fs != [] {
      assert fs[0].key != k;
      var more := fs[1..];
      assert forall i :: 0 <= i < |more| ==> more[i] == fs[i + 1];
      CollectKeeps(attrs[fs[0].key := Got(fs[0])], more, k);
      CollectKeeps(attrs[fs[0].key := Concat(fs[0].pieces)], more, k);
    }
  }

  lemma {:induction false} CollectIsHeaders(attrs: map<string, string>, fs: seq<Folded>)
    requires DistinctKeys(fs)
    ensures CollectGot(attrs, fs) == Headers(attrs, fs) <==> forall i :: 0 <= i < |fs| ==> KeepsEnd(fs[i])
    decreases |fs|
  {
    if fs != [] {
      var f, more := fs[0], fs[1..];
      assert forall i :: 0 <= i < |more| ==> more[i] == fs[i + 1];
      GotIsValue(f);
      if KeepsEnd(f) {
        CollectIsHeaders(attrs[f.key := Got(f)], more);
        assert (forall i :: 0 <= i < |more| ==> KeepsEnd(more[i])) ==>
                 forall i :: 0 <= i < |fs| ==> KeepsEnd(fs[i]) by {
          assert forall i :: 1 <= i < |fs| ==> fs[i] == more[i - 1];
        }
      } else {
        CollectKeeps(attrs[f.key := Got(f)], more, f.key);
        CollectKeeps(attrs[f.key := Concat(f.pieces)], more, f.key);
      }
    }
  }

  /** Parsing returns exactly the headers that were folded, wherever they were folded and whatever follows the blank
      line, if and only if no header's first line ends in white space. */
  lemma ParsingUndoesFolding(fs: seq<Folded>, tail: string)
    requires DistinctKeys(fs) && (forall i :: 0 <= i < |fs| ==> Writable(fs[i])) && SectionEnds(tail)
    ensures Read(Section("", map[]), Write(fs) + tail) == Ok(Headers(map[], fs))
       <==> forall i :: 0 <= i < |fs| ==> KeepsEnd(fs[i])
  {
    ReadWritten(Section("", map[]), fs, tail);
    CollectIsHeaders(map[], fs);
  }
}
