/** Windows argument quoting, and the rules by which the C runtime takes a command line apart again. */
module CommandLine {
  import opened Common

  // ----- the writer -----

  function Repeat(c: char, n: nat): string {
    if n == 0 then "" else [c] + Repeat(c, n - 1)
  }

  /** The quoted form of the rest `s` of an argument, when `bs` backslashes have just been written. */
  function QuoteRest(s: string, bs: nat): string {
    if s == "" then Repeat('\\', bs) + "\""
    else if s[0] == '\\' then "\\" + QuoteRest(s[1..], bs + 1)
    else if s[0] == '"' then Repeat('\\', bs + 1) + "\"" + QuoteRest(s[1..], 0)
    else [s[0]] + QuoteRest(s[1..], 0)
  }

  function Quote(s: string): string {
    "\"" + QuoteRest(s, 0)
  }

  /** quoteArg */
  method QuoteArg(s: string) returns (b: string)
    ensures b == Quote(s)
  {
    b := "\"";
    var backslashes := 0;
    for i := 0 to |s|
      invariant b + QuoteRest(s[i..], backslashes) == Quote(s)
    {
      var c := s[i];
      assert s[i..][1..] == s[i + 1..];
      ghost var before := b;
      if c == '\\' {
        backslashes := backslashes + 1;
        b := b + [c];
      } else if c == '"' {
        var run := RepeatString('\\', backslashes + 1);
        b := b + run + "\"";
        assert b + QuoteRest(s[i + 1..], 0) == before + (run + "\"" + QuoteRest(s[i + 1..], 0));
        backslashes := 0;
      } else {
        backslashes := 0;
        b := b + [c];
      }
    }
    assert s[|s|..] == "";
    var run := RepeatString('\\', backslashes);
    assert b + (run + "\"") == b + run + "\"";
    b := b + run + "\"";
  }

  /** strings.Repeat */
  method RepeatString(c: char, n: nat) returns (r: string)
    ensures r == Repeat(c, n)
  {
    r := "";
    var i := n;
    while i > 0
      invariant 0 <= i <= n
      invariant r == Repeat(c, n - i)
    {
      i := i - 1;
      r := [c] + r;
    }
  }

  /** strings.Join(quoted, " ") over the quoted arguments */
  function QuoteAll(args: seq<string>): string {
    if args == [] then ""
    else if |args| == 1 then Quote(args[0])
    else Quote(args[0]) + " " + QuoteAll(args[1..])
  }

  // ----- the reader -----

  predicate IsBlank(c: char) { c == ' ' || c == '\t' }

  /** The arguments of a command line after the program name, by the published rules for C programs:
      blanks separate arguments outside quotes; 2n backslashes and a quote give n backslashes and toggle quoting,
      2n+1 give n backslashes and a literal quote; other backslashes are literal; inside quotes a doubled quote is
      a literal one. `cur` is the argument read so far (None between arguments), `bs` the backslashes just seen. */
  function Parse(s: string, cur: Option<string>, quoted: bool, bs: nat): seq<string>
    decreases |s|
  {
    if s == "" || s[0] == '\0' then Finish(cur, bs)
    else if s[0] == '\\' then Parse(s[1..], Some(Text(cur)), quoted, bs + 1)
    else if s[0] == '"' then
      var t := Text(cur) + Repeat('\\', bs / 2);
      if bs % 2 == 1 then Parse(s[1..], Some(t + "\""), quoted, 0)
      else if quoted && |s| > 1 && s[1] == '"' then Parse(s[2..], Some(t + "\""), quoted, 0)
      else Parse(s[1..], Some(t), !quoted, 0)
    else if !quoted && IsBlank(s[0]) then Finish(cur, bs) + Parse(s[1..], None, false, 0)
    else Parse(s[1..], Some(Text(cur) + Repeat('\\', bs) + [s[0]]), quoted, 0)
  }

  function Text(cur: Option<string>): string {
    if cur.Some? then cur.value else ""
  }

  function Finish(cur: Option<string>, bs: nat): seq<string> {
    if cur.None? then [] else [cur.value + Repeat('\\', bs)]
  }

  function ParseArgs(s: string): seq<string> {
    Parse(s, None, false, 0)
  }

  // ----- reading back what was written -----

  lemma {:induction false} RepeatAppend(c: char, m: nat, n: nat)
    ensures Repeat(c, m) + Repeat(c, n) == Repeat(c, m + n)
  {
    if m > 0 {
      RepeatAppend(c, m - 1, n);
      assert Repeat(c, m) + Repeat(c, n) == [c] + (Repeat(c, m - 1) + Repeat(c, n));
    } else {
      assert Repeat(c, 0) + Repeat(c, n) == Repeat(c, n);
    }
  }

  /** The reader counts a run of backslashes. */
  lemma {:induction false} ParseRun(n: nat, rest: string, cur: string, bs: nat)
    ensures Parse(Repeat('\\', n) + rest, Some(cur), true, bs) == Parse(rest, Some(cur), true, bs + n)
  {
    var s := Repeat('\\', n) + rest;
    if n == 0 {
      assert s == rest;
    } else {
      assert s[0] == '\\' && s[1..] == Repeat('\\', n - 1) + rest;
      ParseRun(n - 1, rest, cur, bs + 1);
    }
  }

  /** What follows a quoted argument on a command line: nothing, or a blank and more. */
  predicate Separated(rest: string) {
    rest == "" || rest[0] == ' '
  }

  predicate NulFree(s: string) {
    forall i :: 0 <= i < |s| ==> s[i] != '\0'
  }

  /** 2n backslashes and a quote: the quote closes. */
  lemma ReadClosing(bs: nat, rest: string, cur: string)
    requires Separated(rest)
    ensures Parse(Repeat('\\', bs) + "\"" + rest, Some(cur), true, bs)
        == Parse(rest, Some(cur + Repeat('\\', bs)), false, 0)
  {
    assert Repeat('\\', bs) + "\"" + rest == Repeat('\\', bs) + ("\"" + rest);
    ParseRun(bs, "\"" + rest, cur, bs);
    assert ("\"" + rest)[1..] == rest;
    assert (bs + bs) / 2 == bs && (bs + bs) % 2 == 0;
  }

  /** 2n+1 backslashes and a quote: the quote belongs to the argument. */
  lemma ReadEscapedQuote(bs: nat, tail: string, cur: string)
    ensures Parse(Repeat('\\', bs + 1) + "\"" + tail, Some(cur), true, bs)
         == Parse(tail, Some(cur + Repeat('\\', bs) + "\""), true, 0)
  {
    assert Repeat('\\', bs + 1) + "\"" + tail == Repeat('\\', bs + 1) + ("\"" + tail);
    ParseRun(bs + 1, "\"" + tail, cur, bs);
    assert ("\"" + tail)[1..] == tail;
    assert (bs + (bs + 1)) / 2 == bs && (bs + (bs + 1)) % 2 == 1;
  }

  lemma ReadBackslash(s: string, bs: nat, rest: string, cur: string)
    requires s != "" && s[0] == '\\'
    ensures Parse(QuoteRest(s, bs) + rest, Some(cur), true, bs)
        == Parse(QuoteRest(s[1..], bs + 1) + rest, Some(cur), true, bs + 1)
  {
    assert (QuoteRest(s, bs) + rest)[1..] == QuoteRest(s[1..], bs + 1) + rest;
  }

  lemma OneMoreBackslash(s: string, bs: nat, cur: string)
    requires s != "" && s[0] == '\\'
    ensures cur + Repeat('\\', bs + 1) + s[1..] == cur + Repeat('\\', bs) + s
  {
    RepeatAppend('\\', bs, 1);
    assert Repeat('\\', 1) == "\\";
    assert s == "\\" + s[1..];
  }

  lemma ReadPlain(s: string, bs: nat, rest: string, cur: string)
    requires s != "" && s[0] != '\\' && s[0] != '"' && s[0] != '\0'
    ensures Parse(QuoteRest(s, bs) + rest, Some(cur), true, bs)
         == Parse(QuoteRest(s[1..], 0) + rest, Some(cur + Repeat('\\', bs) + [s[0]]), true, 0)
  {
    assert (QuoteRest(s, bs) + rest)[1..] == QuoteRest(s[1..], 0) + rest;
  }

  lemma ReadQuote(s: string, bs: nat, rest: string, cur: string)
    requires s != "" && s[0] == '"'
    ensures Parse(QuoteRest(s, bs) + rest, Some(cur), true, bs)
         == Parse(QuoteRest(s[1..], 0) + rest, Some(cur + Repeat('\\', bs) + [s[0]]), true, 0)
  {
    ReadEscapedQuote(bs, QuoteRest(s[1..], 0) + rest, cur);
    assert QuoteRest(s, bs) + rest == Repeat('\\', bs + 1) + "\"" + (QuoteRest(s[1..], 0) + rest);
  }

  /** Inside the quotes, with `bs` backslashes pending on both sides, the rest of the argument is read back. */
  lemma {:induction false} ReadRest(s: string, bs: nat, rest: string, cur: string)
    requires NulFree(s) && Separated(rest)
    ensures Parse(QuoteRest(s, bs) + rest, Some(cur), true, bs)
         == Parse(rest, Some(cur + Repeat('\\', bs) + s), false, 0)
    decreases |s|
  {
    if s == "" {
      ReadClosing(bs, rest, cur);
      assert cur + Repeat('\\', bs) + s == cur + Repeat('\\', bs);
    } else if s[0] == '\\' {
      ReadBackslash(s, bs, rest, cur);
      OneMoreBackslash(s, bs, cur);
      ReadRest(s[1..], bs + 1, rest, cur);
    } else {
      if s[0] == '"' {
        ReadQuote(s, bs, rest, cur);
      } else {
        ReadPlain(s, bs, rest, cur);
      }
      var read := cur + Repeat('\\', bs) + [s[0]];
      ReadRest(s[1..], 0, rest, read);
      assert read + Repeat('\\', 0) + s[1..] == cur + Repeat('\\', bs) + s;
    }
  }

  /** One argument is read back, whatever separated text follows. */
  lemma ReadQuoted(s: string, rest: string)
    requires NulFree(s) && Separated(rest)
    ensures ParseArgs(Quote(s) + rest) == Parse(rest, Some(s), false, 0)
  {
    var q := Quote(s) + rest;
    assert q[1..] == QuoteRest(s, 0) + rest;
    assert Text(None) + Repeat('\\', 0) == "";
    ReadRest(s, 0, rest, "");
    assert "" + Repeat('\\', 0) + s == s;
  }

  /** Every list of NUL-free arguments survives the command line: empty ones, and any runs of backslashes and quotes. */
  lemma {:induction false} QuotingRoundTrips(args: seq<string>)
    requires forall i :: 0 <= i < |args| ==> NulFree(args[i])
    ensures ParseArgs(QuoteAll(args)) == args
  {
    if args == [] {
    } else if |args| == 1 {
      assert Quote(args[0]) + "" == Quote(args[0]);
      ReadQuoted(args[0], "");
      assert args[0] + Repeat('\\', 0) == args[0];
    } else {
      var rest := " " + QuoteAll(args[1..]);
      assert QuoteAll(args) == Quote(args[0]) + rest;
      ReadQuoted(args[0], rest);
      assert rest[1..] == QuoteAll(args[1..]);
      QuotingRoundTrips(args[1..]);
      assert args[0] + Repeat('\\', 0) == args[0];
      assert args == [args[0]] + args[1..];
    }
  }

  /** So two different lists never share a command line. */
  lemma QuotingIsInjective(args: seq<string>, others: seq<string>)
    requires forall i :: 0 <= i < |args| ==> NulFree(args[i])
    requires forall i :: 0 <= i < |others| ==> NulFree(others[i])
    ensures QuoteAll(args) == QuoteAll(others) ==> args == others
  {
    QuotingRoundTrips(args);
    QuotingRoundTrips(others);
  }
}
