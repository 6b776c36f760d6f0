/** The command line of a launch: how its arguments are escaped, and when the instance id can be read back from it. */
module LaunchLine {
  import opened Common
  import opened Markers
  import CommandLine

  // ----- the line -----

  predicate NeedsQuotes(arg: string) {
    ' ' in arg || '\t' in arg
  }

  /** The escaped rest `s` of an argument after `bs` backslashes. */
  function EscapedRest(s: string, bs: nat, quoted: bool): string {
    if s == "" then (if quoted then CommandLine.Repeat('\\', bs) + "\"" else "")
    else if s[0] == '\\' then "\\" + EscapedRest(s[1..], bs + 1, quoted)
    else if s[0] == '"' then CommandLine.Repeat('\\', bs + 1) + "\"" + EscapedRest(s[1..], 0, quoted)
    else [s[0]] + EscapedRest(s[1..], 0, quoted)
  }

  /** How exec.Cmd writes one argument on Windows: in quotes only where a blank or nothing at all makes them
      necessary. */
  function Escaped(arg: string): string {
    if arg == "" then "\"\""
    else if NeedsQuotes(arg) then "\"" + EscapedRest(arg, 0, true)
    else EscapedRest(arg, 0, false)
  }

  function Line(args: seq<string>): string {
    if args == [] then "" else if |args| == 1 then Escaped(args[0]) else Escaped(args[0]) + " " + Line(args[1..])
  }

  /** In quotes, an argument is written as quoteArg writes it. */
  lemma {:induction false} QuotedAsQuoteArg(s: string, bs: nat)
    ensures EscapedRest(s, bs, true) == CommandLine.QuoteRest(s, bs)
  {
    if s != "" {
      QuotedAsQuoteArg(s[1..], if s[0] == '\\' then bs + 1 else 0);
    }
  }

  // ----- beginning with the prefix -----

  /** Some word begins with the instance property. */
  predicate SomeBegins(words: seq<string>) {
    words != [] && (INSTANCE_PREFIX <= words[0] || SomeBegins(words[1..]))
  }

  /** A word of the argument, as written by the caller, begins with the instance property. */
  predicate Claims(arg: string) {
    SomeBegins(Fields(arg))
  }

  lemma PrefixIsPlain()
    ensures Plain(INSTANCE_PREFIX) && '\\' !in INSTANCE_PREFIX && '"' !in INSTANCE_PREFIX && INSTANCE_PREFIX != ""
  {
  }

  function StripLeft(s: string): string {
    if s != "" && s[0] == '"' then StripLeft(s[1..]) else s
  }

  lemma {:induction false} StripLeftAppend(e: string, x: string)
    requires x != "" && x[0] != '"'
    ensures StripLeft(e + x) == StripLeft(e) + x
  {
    if e == "" {
      assert e + x == x;
    } else {
      assert (e + x)[1..] == e[1..] + x;
      StripLeftAppend(e[1..], x);
    }
  }

  /** A quote that is cut off at the end does not matter to the prefix. */
  lemma ShorterBegins(s: string, p: string)
    requires s != "" && s[|s| - 1] == '"' && '"' !in p
    ensures p <= s <==> p <= s[..|s| - 1]
  {
    assert |p| == |s| ==> p[|s| - 1] in p;
  }

  lemma {:induction false} UnquoteBegins(s: string)
    ensures INSTANCE_PREFIX <= Unquote(s) <==> INSTANCE_PREFIX <= StripLeft(s)
    decreases |s|
  {
    PrefixIsPlain();
    if s != "" && s[0] == '"' {
      UnquoteBegins(s[1..]);
    } else if s != "" && s[|s| - 1] == '"' {
      UnquoteBegins(s[..|s| - 1]);
      ShorterBegins(s, INSTANCE_PREFIX);
    }
  }

  /** Neither is a beginning of the other. */
  predicate Apart(s: string, p: string) {
    !(s <= p) && !(p <= s)
  }

  lemma ApartGrows(s: string, x: string, p: string)
    requires Apart(s, p)
    ensures Apart(s + x, p)
  {
    assert forall t: string :: t <= s + x && |t| <= |s| ==> t <= s;
  }

  lemma ForeignGrows(s: string, x: string, p: string)
    requires s < p && x != "" && x[0] !in p
    ensures Apart(s + x, p)
  {
    assert (s + x)[|s|] == x[0];
    assert p[|s|] in p;
  }

  /** The word read so far, in the argument and in the line, begin alike. */
  predicate Alike(w: string, u: string, p: string) {
    (p <= w && p <= u) || (w == u && w < p) || (Apart(w, p) && Apart(u, p))
  }

  lemma AlikeGrows(w: string, u: string, c: char, p: string)
    requires Alike(w, u, p)
    ensures Alike(w + [c], u + [c], p)
  {
    if Apart(w, p) && Apart(u, p) {
      ApartGrows(w, [c], p);
      ApartGrows(u, [c], p);
    }
  }

  lemma AlikeParts(w: string, u: string, x: string, y: string, p: string)
    requires Alike(w, u, p) && x != "" && y != "" && x[0] !in p && y[0] !in p
    ensures Alike(w + x, u + y, p)
  {
    if Apart(w, p) && Apart(u, p) {
      ApartGrows(w, x, p);
      ApartGrows(u, y, p);
    } else if w < p {
      ForeignGrows(w, x, p);
      ForeignGrows(u, y, p);
    }
  }

  // ----- escaping keeps what words begin with -----

  lemma {:induction false} WordIsRead(word: string, rest: string, e: string)
    requires forall i :: 0 <= i < |word| ==> !IsSpace(word[i])
    ensures FieldsFrom(word + rest, e) == FieldsFrom(rest, e + word)
    decreases |word|
  {
    if word == "" {
      assert word + rest == rest && e + word == e;
    } else {
      assert (word + rest)[1..] == word[1..] + rest;
      WordIsRead(word[1..], rest, e + [word[0]]);
      assert e + [word[0]] + word[1..] == e + word;
    }
  }

  lemma {:induction false} BackslashesAre(n: nat)
    ensures |CommandLine.Repeat('\\', n)| == n && forall i :: 0 <= i < n ==> CommandLine.Repeat('\\', n)[i] == '\\'
  {
    if n > 0 {
      BackslashesAre(n - 1);
    }
  }

  /** The end of an argument. */
  lemma EndCarries(bs: nat, quoted: bool, w: string, e: string)
    requires Alike(w, StripLeft(e), INSTANCE_PREFIX)
    ensures Carried(FieldsFrom(EscapedRest("", bs, quoted), e), INSTANCE_PREFIX).Some? <==> INSTANCE_PREFIX <= w
  {
    var end := EscapedRest("", bs, quoted);
    BackslashesAre(bs);
    EndBegins(end, w, e);
    UnquoteBegins(e + end);
    WordIsRead(end, "", e);
    assert end + "" == end;
    assert FieldsFrom("", e + end) == if e + end == "" then [] else [e + end];
  }

  lemma EndBegins(end: string, w: string, e: string)
    requires Alike(w, StripLeft(e), INSTANCE_PREFIX)
    requires forall i :: 0 <= i < |end| ==> end[i] == '\\' || end[i] == '"'
    ensures INSTANCE_PREFIX <= StripLeft(e + end) <==> INSTANCE_PREFIX <= w
  {
    PrefixIsPlain();
    if end == "" {
      assert e + end == e;
    } else if end[0] == '\\' {
      StripLeftAppend(e, end);
      AlikeParts(w, StripLeft(e), end, end, INSTANCE_PREFIX);
      if StripLeft(e) < INSTANCE_PREFIX {
        ForeignGrows(StripLeft(e), end, INSTANCE_PREFIX);
      }
    } else {
      QuoteEndBegins(end, e);
    }
  }

  lemma {:induction false} QuoteEndBegins(end: string, e: string)
    requires end != "" && forall i :: 0 <= i < |end| ==> end[i] == '\\' || end[i] == '"'
    ensures INSTANCE_PREFIX <= StripLeft(e + end) <==> INSTANCE_PREFIX <= StripLeft(e)
    decreases |e|
  {
    PrefixIsPlain();
    if e != "" && e[0] == '"' {
      assert (e + end)[1..] == e[1..] + end;
      QuoteEndBegins(end, e[1..]);
    } else if e == "" {
      assert e + end == end;
      StrippedEnd(end);
    } else {
      assert StripLeft(e + end) == e + end;
      if e < INSTANCE_PREFIX {
        ForeignGrows(e, end, INSTANCE_PREFIX);
      } else if !(INSTANCE_PREFIX <= e) {
        ApartGrows(e, end, INSTANCE_PREFIX);
      }
    }
  }

  lemma {:induction false} StrippedEnd(end: string)
    requires forall i :: 0 <= i < |end| ==> end[i] == '\\' || end[i] == '"'
    ensures !(INSTANCE_PREFIX <= StripLeft(end))
  {
    if end != "" && end[0] == '"' {
      StrippedEnd(end[1..]);
    }
  }

  /** The rest of an argument has a word that begins with the prefix exactly if its escaped form is read as carrying
      it. */
  lemma {:induction false} RestCarries(s: string, bs: nat, quoted: bool, w: string, e: string)
    requires Alike(w, StripLeft(e), INSTANCE_PREFIX)
    ensures Carried(FieldsFrom(EscapedRest(s, bs, quoted), e), INSTANCE_PREFIX).Some? <==> SomeBegins(FieldsFrom(s, w))
    decreases |s|
  {
    if s == "" {
      EndCarries(bs, quoted, w, e);
    } else if IsSpace(s[0]) {
      SpaceCarries(s, bs, quoted, w, e);
      RestCarries(s[1..], 0, quoted, "", "");
    } else if s[0] == '"' {
      QuoteCarries(s, bs, quoted, w, e);
      RestCarries(s[1..], 0, quoted, w + "\"", e + CommandLine.Repeat('\\', bs + 1) + "\"");
    } else {
      CharCarries(s, bs, quoted, w, e);
      RestCarries(s[1..], if s[0] == '\\' then bs + 1 else 0, quoted, w + [s[0]], e + [s[0]]);
    }
  }

  lemma SpaceCarries(s: string, bs: nat, quoted: bool, w: string, e: string)
    requires s != "" && IsSpace(s[0]) && Alike(w, StripLeft(e), INSTANCE_PREFIX)
    ensures Alike("", StripLeft(""), INSTANCE_PREFIX)
    ensures Carried(FieldsFrom(EscapedRest(s, bs, quoted), e), INSTANCE_PREFIX).Some?
        <==> INSTANCE_PREFIX <= w || Carried(FieldsFrom(EscapedRest(s[1..], 0, quoted), ""), INSTANCE_PREFIX).Some?
    ensures SomeBegins(FieldsFrom(s, w)) <==> INSTANCE_PREFIX <= w || SomeBegins(FieldsFrom(s[1..], ""))
  {
    var rest := EscapedRest(s[1..], 0, quoted);
    assert EscapedRest(s, bs, quoted) == [s[0]] + rest && ([s[0]] + rest)[1..] == rest;
    var first := if e == "" then [] else [e];
    CarriedAppend(first, FieldsFrom(rest, ""), INSTANCE_PREFIX);
    UnquoteBegins(e);
    if w != "" {
      assert ([w] + FieldsFrom(s[1..], ""))[1..] == FieldsFrom(s[1..], "");
    } else {
      assert [] + FieldsFrom(s[1..], "") == FieldsFrom(s[1..], "");
    }
  }

  lemma QuoteCarries(s: string, bs: nat, quoted: bool, w: string, e: string)
    requires s != "" && s[0] == '"' && Alike(w, StripLeft(e), INSTANCE_PREFIX)
    ensures var e' := e + CommandLine.Repeat('\\', bs + 1) + "\"";
            && Alike(w + "\"", StripLeft(e'), INSTANCE_PREFIX)
            && FieldsFrom(EscapedRest(s, bs, quoted), e) == FieldsFrom(EscapedRest(s[1..], 0, quoted), e')
  {
    var word := CommandLine.Repeat('\\', bs + 1) + "\"";
    BackslashesAre(bs + 1);
    PrefixIsPlain();
    WordIsRead(word, EscapedRest(s[1..], 0, quoted), e);
    assert e + word == e + CommandLine.Repeat('\\', bs + 1) + "\"";
    StripLeftAppend(e, word);
    AlikeParts(w, StripLeft(e), "\"", word, INSTANCE_PREFIX);
  }

  lemma CharCarries(s: string, bs: nat, quoted: bool, w: string, e: string)
    requires s != "" && s[0] != '"' && !IsSpace(s[0]) && Alike(w, StripLeft(e), INSTANCE_PREFIX)
    ensures Alike(w + [s[0]], StripLeft(e + [s[0]]), INSTANCE_PREFIX)
    ensures FieldsFrom(EscapedRest(s, bs, quoted), e)
         == FieldsFrom(EscapedRest(s[1..], if s[0] == '\\' then bs + 1 else 0, quoted), e + [s[0]])
  {
    var rest := EscapedRest(s[1..], if s[0] == '\\' then bs + 1 else 0, quoted);
    assert EscapedRest(s, bs, quoted) == [s[0]] + rest && ([s[0]] + rest)[1..] == rest;
    StripLeftAppend(e, [s[0]]);
    AlikeGrows(w, StripLeft(e), s[0], INSTANCE_PREFIX);
  }

  // ----- whole lines -----

  /** One argument: whatever blanks, quotes and backslashes it holds. */
  lemma ArgumentCarriesExactly(arg: string)
    ensures Carried(Fields(Escaped(arg)), INSTANCE_PREFIX).Some? <==> Claims(arg)
  {
    PrefixIsPlain();
    if arg == "" {
      EndCarries(0, true, "", "\"");
      assert EscapedRest("", 0, true) == "\"";
      QuoteIsRead("\"");
    } else if NeedsQuotes(arg) {
      RestCarries(arg, 0, true, "", "\"");
      QuoteIsRead(EscapedRest(arg, 0, true));
    } else {
      RestCarries(arg, 0, false, "", "");
    }
  }

  lemma QuoteIsRead(rest: string)
    ensures Fields("\"" + rest) == FieldsFrom(rest, "\"")
  {
    assert ("\"" + rest)[1..] == rest;
    assert "" + ['"'] == "\"";
  }

  /** A line is read as carrying the instance property exactly if a word of an argument begins with it. */
  lemma {:induction false} LineCarriesExactly(args: seq<string>)
    ensures Carried(Fields(Line(args)), INSTANCE_PREFIX).Some? <==> exists i :: 0 <= i < |args| && Claims(args[i])
  {
    if args != [] {
      ArgumentCarriesExactly(args[0]);
      if |args| > 1 {
        LineCarriesExactly(args[1..]);
        FieldsJoin(Escaped(args[0]), Line(args[1..]), "");
        CarriedAppend(Fields(Escaped(args[0])), Fields(Line(args[1..])), INSTANCE_PREFIX);
        assert forall i :: 1 <= i < |args| ==> args[i] == args[1..][i - 1];
      }
    }
  }

  /** For any arguments before the marker, escaped as they are, and anything after it: a fresh id is read back exactly
      if no word of an earlier argument begins with the property. */
  lemma IdIsReadBackExactly(args: seq<string>, id: string, after: string)
    requires Plain(id) && Carried(Fields(Line(args)), INSTANCE_PREFIX) != Some(id)
    ensures Extracted(Line(args) + " " + (InstanceMarker(id) + " " + after), INSTANCE_PREFIX) == id
        <==> forall i :: 0 <= i < |args| ==> !Claims(args[i])
  {
    LineCarriesExactly(args);
    ExtractedExactly(Line(args), id, after);
  }

  /** The check of the API, that the argument does not begin with the property, says the same of an argument without
      white space, quotes or not. */
  lemma CheckIsExactForWords(arg: string)
    requires forall i :: 0 <= i < |arg| ==> !IsSpace(arg[i])
    ensures Claims(arg) <==> INSTANCE_PREFIX <= arg
  {
    if arg != "" {
      WordIsField(arg);
      assert Fields(arg) == [arg] && [arg][1..] == [];
      assert SomeBegins([arg]) <==> INSTANCE_PREFIX <= arg;
    }
  }
}
