/** Finding processes again by the markers in their command lines. */
module Markers {
  import opened Common

  const APP_PREFIX := "-Djarvis.app="
  const INSTANCE_PROPERTY := "jarvis.instance"
  const INSTANCE_PREFIX := "-Djarvis.instance="

  lemma InstancePrefix()
    ensures "-D" + INSTANCE_PROPERTY + "=" == INSTANCE_PREFIX
  {
  }

  /** One process of a snapshot. `readable` is whether its command line and creation time could be read. */
  datatype Process = Process(pid: nat, created: int, parent: nat, commandLine: string, readable: bool)

  function AppMarker(app: string): string {
    APP_PREFIX + app
  }

  function InstanceMarker(id: string): string {
    INSTANCE_PREFIX + id
  }

  // ----- searching command lines -----

  predicate OccursAt(s: string, sub: string, i: nat) {
    i + |sub| <= |s| && s[i..i + |sub|] == sub
  }

  predicate Contains(s: string, sub: string) {
    exists i :: 0 <= i <= |s| && OccursAt(s, sub, i)
  }

  /** Pids up to 4 are the system's own. */
  predicate Carries(p: Process, marker: string) {
    p.pid > 4 && p.readable && Contains(p.commandLine, marker)
  }

  function Found(snapshot: seq<Process>, marker: string): seq<Process> {
    if snapshot == [] then []
    else
      var front := Found(snapshot[..|snapshot| - 1], marker);
      if Carries(snapshot[|snapshot| - 1], marker) then front + [snapshot[|snapshot| - 1]] else front
  }

  method FindByMarker(snapshot: seq<Process>, marker: string) returns (matches: seq<Process>)
    ensures matches == Found(snapshot, marker)
  {
    matches := [];
    for i := 0 to |snapshot|
      invariant matches == Found(snapshot[..i], marker)
    {
      assert snapshot[..i + 1][..i] == snapshot[..i];
      if snapshot[i].pid > 4 {
        if snapshot[i].readable && Contains(snapshot[i].commandLine, marker) {
          matches := matches + [snapshot[i]];
        }
      }
    }
    assert snapshot[..|snapshot|] == snapshot;
  }

  lemma {:induction false} FoundAreThoseCarrying(snapshot: seq<Process>, marker: string, p: Process)
    ensures p in Found(snapshot, marker) <==> p in snapshot && Carries(p, marker)
  {
    if snapshot != [] {
      FoundAreThoseCarrying(snapshot[..|snapshot| - 1], marker, p);
      assert snapshot == snapshot[..|snapshot| - 1] + [snapshot[|snapshot| - 1]];
    }
  }

  /** Searching by substring, the marker of one application also finds every application whose name it begins. */
  lemma AppMarkerOverMatches(a: string, b: string)
    requires '=' !in b
    ensures Contains(AppMarker(b), AppMarker(a)) <==> a <= b
  {
    if Contains(AppMarker(b), AppMarker(a)) {
      var i :| 0 <= i <= |AppMarker(b)| && OccursAt(AppMarker(b), AppMarker(a), i);
      assert AppMarker(a)[12] == '=' && AppMarker(b)[i..i + |AppMarker(a)|][12] == AppMarker(b)[i + 12];
      assert i == 0;
      assert AppMarker(b)[..|AppMarker(a)|][13..] == b[..|a|];
      assert AppMarker(a)[13..] == a;
    }
    if a <= b {
      assert OccursAt(AppMarker(b), AppMarker(a), 0);
    }
  }

  // ----- taking a property out of a command line -----

  predicate Plain(s: string) {
    forall i :: 0 <= i < |s| ==> !IsSpace(s[i]) && s[i] != '"'
  }

  /** The words of `s`, when `word` has been read of the first one. */
  function FieldsFrom(s: string, word: string): seq<string> {
    if s == "" then (if word == "" then [] else [word])
    else if IsSpace(s[0]) then (if word == "" then [] else [word]) + FieldsFrom(s[1..], "")
    else FieldsFrom(s[1..], word + [s[0]])
  }

  /** strings.Fields */
  function Fields(s: string): seq<string> {
    FieldsFrom(s, "")
  }

  /** strings.Trim(s, `"`) */
  function Unquote(s: string): string {
    if s != "" && s[0] == '"' then Unquote(s[1..])
    else if s != "" && s[|s| - 1] == '"' then Unquote(s[..|s| - 1])
    else s
  }

  /** The value in the first word that carries the prefix. */
  function Carried(words: seq<string>, prefix: string): Option<string> {
    if words == [] then None
    else if prefix <= Unquote(words[0]) then Some(Unquote(words[0])[|prefix|..])
    else Carried(words[1..], prefix)
  }

  function Extracted(commandLine: string, prefix: string): string {
    match Carried(Fields(commandLine), prefix)
    case Some(value) => value
    case None => ""
  }

  method ExtractProperty(commandLine: string, property: string) returns (value: string)
    ensures value == Extracted(commandLine, "-D" + property + "=")
  {
    var prefix := "-D" + property + "=";
    var words := Fields(commandLine);
    for i := 0 to |words|
      invariant Carried(words, prefix) == Carried(words[i..], prefix)
    {
      var part := Unquote(words[i]);
      if prefix <= part {
        return part[|prefix|..];
      }
      assert words[i..][1..] == words[i + 1..];
    }
    return "";
  }

  lemma {:induction false} FieldsJoin(a: string, b: string, word: string)
    ensures FieldsFrom(a + " " + b, word) == FieldsFrom(a, word) + Fields(b)
    decreases |a|
  {
    if a == "" {
      assert "" + " " + b == " " + b && (" " + b)[1..] == b;
    } else {
      assert (a + " " + b)[1..] == a[1..] + " " + b;
      FieldsJoin(a[1..], b, if IsSpace(a[0]) then "" else word + [a[0]]);
    }
  }

  lemma {:induction false} WordIsOneField(s: string, word: string)
    requires (forall i :: 0 <= i < |s| ==> !IsSpace(s[i])) && word + s != ""
    ensures FieldsFrom(s, word) == [word + s]
    decreases |s|
  {
    if s == "" {
      assert word + s == word;
    } else {
      assert word + s == word + [s[0]] + s[1..];
      WordIsOneField(s[1..], word + [s[0]]);
    }
  }

  lemma WordIsField(s: string)
    requires (forall i :: 0 <= i < |s| ==> !IsSpace(s[i])) && s != ""
    ensures Fields(s) == [s]
  {
    WordIsOneField(s, "");
    assert "" + s == s;
  }

  /** The first word of a line decides, or is passed over. */
  lemma FirstWord(word: string, rest: string, prefix: string)
    requires (forall i :: 0 <= i < |word| ==> !IsSpace(word[i])) && word != ""
    ensures Carried(Fields(word + " " + rest), prefix)
         == if prefix <= Unquote(word) then Some(Unquote(word)[|prefix|..]) else Carried(Fields(rest), prefix)
  {
    FieldsJoin(word, rest, "");
    WordIsField(word);
    assert ([word] + Fields(rest))[1..] == Fields(rest);
  }

  lemma PlainUnquotes(s: string)
    requires Plain(s)
    ensures Unquote(s) == s
  {
  }

  lemma {:induction false} CarriedAppend(a: seq<string>, b: seq<string>, prefix: string)
    ensures Carried(a + b, prefix) == if Carried(a, prefix).Some? then Carried(a, prefix) else Carried(b, prefix)
  {
    if a == [] {
      assert a + b == b;
    } else {
      assert (a + b)[1..] == a[1..] + b;
      CarriedAppend(a[1..], b, prefix);
    }
  }

  /** Start writes the marker between the JVM arguments and the program's. The id is read back exactly if no word before
      the marker carries the prefix, or the first that does carries the same id; what follows does not matter. */
  lemma ExtractedExactly(before: string, id: string, after: string)
    requires Plain(id)
    ensures Extracted(before + " " + (InstanceMarker(id) + " " + after), INSTANCE_PREFIX) == id
        <==> Carried(Fields(before), INSTANCE_PREFIX) in {None, Some(id)}
  {
    var marker := InstanceMarker(id);
    FieldsJoin(before, marker + " " + after, "");
    CarriedAppend(Fields(before), Fields(marker + " " + after), INSTANCE_PREFIX);
    FirstWord(marker, after, INSTANCE_PREFIX);
    PlainUnquotes(marker);
    assert marker[|INSTANCE_PREFIX|..] == id;
  }

  function Join(args: seq<string>): string {
    if args == [] then "" else if |args| == 1 then args[0] else args[0] + " " + Join(args[1..])
  }

  /** Arguments without blanks and quotes are written as they are, and then the check that no JVM argument begins with
      the prefix is enough. */
  lemma {:induction false} PlainArgumentsCarryNothing(args: seq<string>)
    requires forall i :: 0 <= i < |args| ==> args[i] != "" && Plain(args[i])
    ensures Carried(Fields(Join(args)), INSTANCE_PREFIX) == None
        <==> forall i :: 0 <= i < |args| ==> !(INSTANCE_PREFIX <= args[i])
  {
    if args != [] {
      PlainUnquotes(args[0]);
      WordIsField(args[0]);
      if |args| > 1 {
        PlainArgumentsCarryNothing(args[1..]);
        FirstWord(args[0], Join(args[1..]), INSTANCE_PREFIX);
      }
    }
  }

  lemma WordInQuotes(word: string)
    requires Plain(word) && word != ""
    ensures Unquote("\"" + word) == word && Unquote(word + "\"") == word
  {
    PlainUnquotes(word);
    assert ("\"" + word)[1..] == word;
    assert (word + "\"")[..|word|] == word;
  }

  lemma PrefixOfFirstWord(x: string, y: string)
    requires INSTANCE_PREFIX <= x + " " + y
    ensures INSTANCE_PREFIX <= x
  {
    var s := x + " " + y;
    assert forall i :: 0 <= i < |INSTANCE_PREFIX| ==> s[i] == INSTANCE_PREFIX[i] != ' ';
    assert s[|x|] == ' ';
    assert s[..|x|] == x;
  }

  /** It is not enough for an argument with a blank in it: the argument does not begin with the prefix, but in the
      command line, where it stands in quotes, its second word does, and is taken for the marker. */
  lemma BlankHidesPrefix(x: string, v: string, id: string, after: string)
    requires Plain(x) && x != "" && !(INSTANCE_PREFIX <= x) && Plain(v)
    ensures !(INSTANCE_PREFIX <= x + " " + InstanceMarker(v))
    ensures var end := InstanceMarker(id) + " " + after;
            Extracted("java" + " " + ("\"" + x + " " + (InstanceMarker(v) + "\"" + " " + end)), INSTANCE_PREFIX) == v
  {
    if INSTANCE_PREFIX <= x + " " + InstanceMarker(v) {
      PrefixOfFirstWord(x, InstanceMarker(v));
    }
    var end := InstanceMarker(id) + " " + after;
    var quoted := InstanceMarker(v) + "\"";
    WordInQuotes(x);
    WordInQuotes(InstanceMarker(v));
    PlainUnquotes("java");
    FirstWord("java", "\"" + x + " " + (quoted + " " + end), INSTANCE_PREFIX);
    FirstWord("\"" + x, quoted + " " + end, INSTANCE_PREFIX);
    FirstWord(quoted, end, INSTANCE_PREFIX);
    assert InstanceMarker(v)[|INSTANCE_PREFIX|..] == v;
  }
}
