/** Merging a profile's variables over the environment JARVIS itself runs in. */
module Env {
  import opened Common

  /** What strings.ToUpper does to one character, for all of Unicode; only '=' becomes '='. */
  type Folding = up: char -> char | forall c :: up(c) == '=' <==> c == '=' witness c => c

  function Upper(up: Folding, s: string): (r: string)
    ensures |r| == |s|
    ensures forall i :: 0 <= i < |s| ==> r[i] == up(s[i])
  {
    if s == "" then "" else [up(s[0])] + Upper(up, s[1..])
  }

  // ----- reading an environment -----

  /** Where the name of an entry ends: at the first '=' that is not the first character, since Windows keeps the working
      directory of each drive in entries such as "=C:=C:\". */
  function NameEnd(entry: string, from: nat): (e: nat)
    requires from <= |entry|
    ensures from <= e <= |entry|
    ensures forall i :: from <= i < e ==> entry[i] != '='
    ensures e < |entry| ==> entry[e] == '='
    decreases |entry| - from
  {
    if from == |entry| || entry[from] == '=' then from else NameEnd(entry, from + 1)
  }

  function Name(entry: string): string {
    if entry == "" then "" else entry[..NameEnd(entry, 1)]
  }

  predicate WellFormed(entry: string) {
    entry != "" && NameEnd(entry, 1) < |entry|
  }

  function Value(entry: string): string
    requires WellFormed(entry)
  {
    entry[NameEnd(entry, 1) + 1..]
  }

  /** Names are looked up ignoring case, folded the same way. */
  predicate Named(up: Folding, entry: string, name: string) {
    WellFormed(entry) && Upper(up, Name(entry)) == Upper(up, name)
  }

  /** The value of a variable: of the first entry that has the name. */
  function Lookup(up: Folding, env: seq<string>, name: string): Option<string> {
    if env == [] then None
    else if Named(up, env[0], name) then Some(Value(env[0]))
    else Lookup(up, env[1..], name)
  }

  predicate DistinctNames(up: Folding, env: seq<string>) {
    forall i, j :: 0 <= i < j < |env| && WellFormed(env[i]) && WellFormed(env[j]) ==>
      Upper(up, Name(env[i])) != Upper(up, Name(env[j]))
  }

  // ----- merging -----

  /** What the profile API lets through. */
  predicate ValidKey(k: string) {
    k != "" && '=' !in k
  }

  predicate ValidKeys(vars: map<string, string>) {
    forall k :: k in vars ==> ValidKey(k)
  }

  /** Keys that differ only by case carry the same value; in particular there may be no such keys. */
  predicate AgreeOnCase(up: Folding, vars: map<string, string>) {
    forall k, l :: k in vars && l in vars && Upper(up, k) == Upper(up, l) ==> vars[k] == vars[l]
  }

  predicate HasPrefix(s: string, prefix: string) {
    prefix <= s
  }

  function Entry(k: string, v: string): string {
    k + "=" + v
  }

  /** One variable put into an environment: in place of the first entry with its prefix, or else at the end. */
  function Put(up: Folding, env: seq<string>, k: string, v: string): seq<string> {
    if env == [] then [Entry(k, v)]
    else if HasPrefix(Upper(up, env[0]), Upper(up, k) + "=") then [Entry(k, v)] + env[1..]
    else [env[0]] + Put(up, env[1..], k, v)
  }

  function PutAll(up: Folding, base: seq<string>, order: seq<string>, vars: map<string, string>): seq<string>
    requires forall k :: k in order ==> k in vars
    decreases |order|
  {
    if order == [] then base
    else
      var k := order[|order| - 1];
      Put(up, PutAll(up, base, order[..|order| - 1], vars), k, vars[k])
  }

  /** `order` is one way to walk the map: every key once. */
  ghost predicate Walks(order: seq<string>, vars: map<string, string>) {
    && (forall k :: k in order <==> k in vars)
    && (forall i, j :: 0 <= i < j < |order| ==> order[i] != order[j])
  }

  lemma TakeOneMore(s: seq<string>, i: nat, t: seq<string>)
    requires i < |s|
    ensures s[..i] + ([s[i]] + t) == s[..i + 1] + t
  {
  }

  lemma PutPasses(up: Folding, env: seq<string>, i: nat, k: string, v: string)
    requires i < |env| && !HasPrefix(Upper(up, env[i]), Upper(up, k) + "=")
    ensures env[..i] + Put(up, env[i..], k, v) == env[..i + 1] + Put(up, env[i + 1..], k, v)
  {
    var rest := env[i..];
    assert rest != [] && rest[0] == env[i] && rest[1..] == env[i + 1..];
    assert Put(up, rest, k, v) == [rest[0]] + Put(up, rest[1..], k, v);
    TakeOneMore(env, i, Put(up, env[i + 1..], k, v));
  }

  lemma PutReplaces(up: Folding, env: seq<string>, i: nat, k: string, v: string)
    requires i < |env| && HasPrefix(Upper(up, env[i]), Upper(up, k) + "=")
    ensures env[..i] + Put(up, env[i..], k, v) == env[i := Entry(k, v)]
  {
    assert env[i..][1..] == env[i + 1..];
  }

  /** The search for one variable: the first entry with its prefix is overwritten, or one is added. */
  method PutVariable(up: Folding, env: seq<string>, k: string, v: string) returns (merged: seq<string>)
    ensures merged == Put(up, env, k, v)
  {
    merged := env;
    var prefix := Upper(up, k) + "=";
    var i := 0;
    assert env[..0] + Put(up, env[0..], k, v) == Put(up, env, k, v) by { assert env[0..] == env; }
    while i < |merged|
      invariant 0 <= i <= |merged| && merged == env
      invariant env[..i] + Put(up, env[i..], k, v) == Put(up, env, k, v)
    {
      if HasPrefix(Upper(up, merged[i]), prefix) {
        PutReplaces(up, env, i, k, v);
        merged := merged[i := Entry(k, v)];
        return;
      }
      PutPasses(up, env, i, k, v);
      i := i + 1;
    }
    assert env[|env|..] == [] && env[..|env|] == env;
    merged := merged + [Entry(k, v)];
  }

  /** envSlice: nil, so that the environment is inherited as it is, or the merged entries, for whatever order the map is
      walked in. */
  method EnvSlice(up: Folding, vars: map<string, string>, environ: seq<string>)
    returns (merged: Option<seq<string>>, ghost order: seq<string>)
    ensures merged.None? <==> vars == map[]
    ensures Walks(order, vars)
    ensures merged.Some? ==> merged.value == PutAll(up, environ, order, vars)
  {
    order := [];
    if |vars| == 0 {
      return None, order;
    }
    var out := environ;
    var todo := vars.Keys;
    while todo != {}
      invariant todo <= vars.Keys
      invariant forall k :: k in order <==> k in vars && k !in todo
      invariant forall i, j :: 0 <= i < j < |order| ==> order[i] != order[j]
      invariant out == PutAll(up, environ, order, vars)
      decreases |todo|
    {
      var k :| k in todo;
      todo := todo - {k};
      out := PutVariable(up, out, k, vars[k]);
      assert (order + [k])[..|order|] == order;
      order := order + [k];
    }
    return Some(out), order;
  }

  // ----- one variable -----

  lemma {:induction false} NameEndIs(entry: string, from: nat, e: nat)
    requires from <= e < |entry| && entry[e] == '='
    requires forall i :: from <= i < e ==> entry[i] != '='
    ensures NameEnd(entry, from) == e
    decreases e - from
  {
    if from < e {
      NameEndIs(entry, from + 1, e);
    }
  }

  lemma UpperOfStart(up: Folding, s: string, n: nat)
    requires n <= |s|
    ensures Upper(up, s[..n]) == Upper(up, s)[..n]
  {
  }

  /** A prefix that ends in '=' ends at a '='. */
  lemma PrefixWithEquals(t: string, p: string)
    ensures HasPrefix(t, p + "=") <==> |p| < |t| && t[..|p|] == p && t[|p|] == '='
  {
    if |p| < |t| {
      assert t[..|p| + 1] == t[..|p|] + [t[|p|]];
    }
  }

  lemma PrefixNames(up: Folding, entry: string, k: string)
    requires ValidKey(k) && HasPrefix(Upper(up, entry), Upper(up, k) + "=")
    ensures Named(up, entry, k)
  {
    var n := |k|;
    PrefixWithEquals(Upper(up, entry), Upper(up, k));
    UpperOfStart(up, entry, n);
    assert forall i :: 0 <= i < n ==> up(entry[i]) == Upper(up, entry)[..n][i] == Upper(up, k)[i] == up(k[i]);
    NameEndIs(entry, 1, n);
  }

  lemma NameIsPrefix(up: Folding, entry: string, k: string)
    requires ValidKey(k) && Named(up, entry, k)
    ensures HasPrefix(Upper(up, entry), Upper(up, k) + "=")
  {
    UpperOfStart(up, entry, |Name(entry)|);
    PrefixWithEquals(Upper(up, entry), Upper(up, k));
  }

  /** For a valid key, having its prefix means having its name. */
  lemma PrefixIsName(up: Folding, entry: string, k: string)
    requires ValidKey(k)
    ensures HasPrefix(Upper(up, entry), Upper(up, k) + "=") <==> Named(up, entry, k)
  {
    if HasPrefix(Upper(up, entry), Upper(up, k) + "=") {
      PrefixNames(up, entry, k);
    }
    if Named(up, entry, k) {
      NameIsPrefix(up, entry, k);
    }
  }

  lemma EntryReads(k: string, v: string)
    requires ValidKey(k)
    ensures WellFormed(Entry(k, v)) && Name(Entry(k, v)) == k && Value(Entry(k, v)) == v
  {
    NameEndIs(Entry(k, v), 1, |k|);
  }

  lemma {:induction false} PutLooksUp(up: Folding, env: seq<string>, k: string, v: string, name: string)
    requires ValidKey(k)
    ensures Lookup(up, Put(up, env, k, v), name)
         == if Upper(up, k) == Upper(up, name) then Some(v) else Lookup(up, env, name)
  {
    EntryReads(k, v);
    if env == [] {
      assert [Entry(k, v)][1..] == [];
    } else {
      PrefixIsName(up, env[0], k);
      if HasPrefix(Upper(up, env[0]), Upper(up, k) + "=") {
        assert ([Entry(k, v)] + env[1..])[1..] == env[1..];
      } else {
        PutLooksUp(up, env[1..], k, v, name);
        assert ([env[0]] + Put(up, env[1..], k, v))[1..] == Put(up, env[1..], k, v);
      }
    }
  }

  /** Position `i` is where `Put` writes: the first entry with the name, or the end. */
  predicate IsPlace(up: Folding, env: seq<string>, k: string, i: nat) {
    && i <= |env| && (i < |env| ==> Named(up, env[i], k))
    && forall j :: 0 <= j < i ==> !Named(up, env[j], k)
  }

  function PutAt(env: seq<string>, i: nat, entry: string): seq<string>
    requires i <= |env|
  {
    if i < |env| then env[i := entry] else env + [entry]
  }

  lemma LaterPlace(up: Folding, env: seq<string>, k: string, entry: string, n: nat)
    requires env != [] && !Named(up, env[0], k) && IsPlace(up, env[1..], k, n)
    ensures IsPlace(up, env, k, n + 1) && [env[0]] + PutAt(env[1..], n, entry) == PutAt(env, n + 1, entry)
  {
    assert forall j :: 1 <= j < |env| ==> env[j] == env[1..][j - 1];
    PutAtLater(env, entry, n);
  }

  lemma PutAtLater(env: seq<string>, entry: string, n: nat)
    requires n < |env|
    ensures [env[0]] + PutAt(env[1..], n, entry) == PutAt(env, n + 1, entry)
  {
  }

  lemma FirstPlace(up: Folding, env: seq<string>, k: string, entry: string)
    requires env != [] && Named(up, env[0], k)
    ensures IsPlace(up, env, k, 0) && [entry] + env[1..] == PutAt(env, 0, entry)
  {
  }

  lemma {:induction false} PutPlace(up: Folding, env: seq<string>, k: string, v: string) returns (i: nat)
    requires ValidKey(k)
    ensures IsPlace(up, env, k, i) && Put(up, env, k, v) == PutAt(env, i, Entry(k, v))
  {
    i := 0;
    if env != [] {
      PrefixIsName(up, env[0], k);
      if Named(up, env[0], k) {
        FirstPlace(up, env, k, Entry(k, v));
      } else {
        var n := PutPlace(up, env[1..], k, v);
        LaterPlace(up, env, k, Entry(k, v), n);
        i := n + 1;
      }
    }
  }

  /** No name comes to stand twice. */
  lemma PutKeepsDistinct(up: Folding, env: seq<string>, k: string, v: string)
    requires ValidKey(k) && DistinctNames(up, env)
    ensures DistinctNames(up, Put(up, env, k, v))
  {
    EntryReads(k, v);
    var i := PutPlace(up, env, k, v);
  }

  // ----- the theorems -----

  lemma {:induction false} SetLooksUp(up: Folding, base: seq<string>, order: seq<string>,
                                      vars: map<string, string>, name: string, key: string)
    requires (forall k :: k in order ==> k in vars) && ValidKeys(vars) && AgreeOnCase(up, vars)
    requires key in order && Upper(up, key) == Upper(up, name)
    ensures Lookup(up, PutAll(up, base, order, vars), name) == Some(vars[key])
    decreases |order|
  {
    var front, k := order[..|order| - 1], order[|order| - 1];
    assert order == front + [k];
    if Upper(up, k) == Upper(up, name) {
      LastWins(up, base, order, vars, name);
      assert k in vars && key in vars;
    } else {
      SetLooksUp(up, base, front, vars, name, key);
      PutLooksUp(up, PutAll(up, base, front, vars), k, vars[k], name);
    }
  }

  lemma {:induction false} UnsetLooksUp(up: Folding, base: seq<string>, order: seq<string>,
                                        vars: map<string, string>, name: string)
    requires (forall k :: k in order ==> k in vars) && ValidKeys(vars)
    requires forall k :: k in order ==> Upper(up, k) != Upper(up, name)
    ensures Lookup(up, PutAll(up, base, order, vars), name) == Lookup(up, base, name)
    decreases |order|
  {
    if order != [] {
      var front, k := order[..|order| - 1], order[|order| - 1];
      UnsetLooksUp(up, base, front, vars, name);
      PutLooksUp(up, PutAll(up, base, front, vars), k, vars[k], name);
    }
  }

  /** In whatever order the map is walked, a variable has the profile's value if the profile sets it under any spelling
      of its name, and otherwise the value it had. */
  lemma MergedLookup(up: Folding, base: seq<string>, order: seq<string>, vars: map<string, string>, name: string)
    requires Walks(order, vars) && ValidKeys(vars) && AgreeOnCase(up, vars)
    ensures forall k :: k in vars && Upper(up, k) == Upper(up, name) ==>
        Lookup(up, PutAll(up, base, order, vars), name) == Some(vars[k])
    ensures (forall k :: k in vars ==> Upper(up, k) != Upper(up, name)) ==>
        Lookup(up, PutAll(up, base, order, vars), name) == Lookup(up, base, name)
  {
    forall k | k in vars && Upper(up, k) == Upper(up, name)
      ensures Lookup(up, PutAll(up, base, order, vars), name) == Some(vars[k])
    {
      SetLooksUp(up, base, order, vars, name, k);
    }
    if forall k :: k in vars ==> Upper(up, k) != Upper(up, name) {
      UnsetLooksUp(up, base, order, vars, name);
    }
  }

  /** Entries the profile does not name keep their text and their place, and names stay distinct. */
  lemma {:induction false} OthersKeepTheirPlace(up: Folding, base: seq<string>, order: seq<string>,
                                                vars: map<string, string>)
    requires (forall k :: k in order ==> k in vars) && ValidKeys(vars)
    ensures |PutAll(up, base, order, vars)| >= |base|
    ensures forall i :: 0 <= i < |base| && (forall k :: k in vars ==> !Named(up, base[i], k)) ==>
        PutAll(up, base, order, vars)[i] == base[i]
    ensures DistinctNames(up, base) ==> DistinctNames(up, PutAll(up, base, order, vars))
    decreases |order|
  {
    if order != [] {
      var front, k := order[..|order| - 1], order[|order| - 1];
      OthersKeepTheirPlace(up, base, front, vars);
      var place := PutPlace(up, PutAll(up, base, front, vars), k, vars[k]);
      if DistinctNames(up, base) {
        PutKeepsDistinct(up, PutAll(up, base, front, vars), k, vars[k]);
      }
    }
  }

  lemma {:induction false} WalkEndingIn(keys: set<string>, last: string) returns (order: seq<string>)
    requires last in keys
    ensures forall k :: k in order <==> k in keys
    ensures forall i, j :: 0 <= i < j < |order| ==> order[i] != order[j]
    ensures order != [] && order[|order| - 1] == last
    decreases |keys|
  {
    if keys == {last} {
      order := [last];
    } else {
      var k :| k in keys && k != last;
      var rest := WalkEndingIn(keys - {k}, last);
      order := [k] + rest;
    }
  }

  /** The variable walked last wins. */
  lemma LastWins(up: Folding, base: seq<string>, order: seq<string>, vars: map<string, string>, name: string)
    requires (forall k :: k in order ==> k in vars) && ValidKeys(vars)
    requires order != [] && Upper(up, order[|order| - 1]) == Upper(up, name)
    ensures Lookup(up, PutAll(up, base, order, vars), name) == Some(vars[order[|order| - 1]])
  {
    var k := order[|order| - 1];
    PutLooksUp(up, PutAll(up, base, order[..|order| - 1], vars), k, vars[k], name);
  }

  ghost predicate SameLookups(up: Folding, base: seq<string>, vars: map<string, string>, o1: seq<string>,
                              o2: seq<string>, name: string)
    requires Walks(o1, vars) && Walks(o2, vars)
  {
    Lookup(up, PutAll(up, base, o1, vars), name) == Lookup(up, PutAll(up, base, o2, vars), name)
  }

  /** The result is the same for every order exactly if keys that differ only by case agree. */
  lemma OrderIrrelevantExactly(up: Folding, base: seq<string>, vars: map<string, string>)
    requires ValidKeys(vars)
    ensures (forall o1, o2, name :: Walks(o1, vars) && Walks(o2, vars) ==> SameLookups(up, base, vars, o1, o2, name))
            <==> AgreeOnCase(up, vars)
  {
    if AgreeOnCase(up, vars) {
      forall o1, o2, name | Walks(o1, vars) && Walks(o2, vars)
        ensures SameLookups(up, base, vars, o1, o2, name)
      {
        MergedLookup(up, base, o1, vars, name);
        MergedLookup(up, base, o2, vars, name);
      }
    } else {
      var k, l :| k in vars && l in vars && Upper(up, k) == Upper(up, l) && vars[k] != vars[l];
      var o1 := WalkEndingIn(vars.Keys, k);
      var o2 := WalkEndingIn(vars.Keys, l);
      assert Walks(o1, vars) && Walks(o2, vars);
      LastWins(up, base, o1, vars, k);
      LastWins(up, base, o2, vars, k);
      assert !SameLookups(up, base, vars, o1, o2, k);
    }
  }
}
