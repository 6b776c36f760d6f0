/** The window of recent requests: an incremental merge that must not lose or repeat anything. */
module Traffic {
  import opened Common

  /** One completed request; `at` in milliseconds, the resolution of the key. */
  datatype Exchange = Exchange(at: int, verb: string, path: string, status: int, ms: real, remote: string)

  /** exchangeKey: what makes two reports the same request. */
  datatype Key = Key(at: int, verb: string, path: string, status: int)

  function KeyOf(e: Exchange): Key {
    Key(e.at, e.verb, e.path, e.status)
  }

  const ACTUATOR := "/actuator"

  predicate Accepted(e: Exchange) {
    e.path != "" && !(ACTUATOR <= e.path)
  }

  function Keys(es: seq<Exchange>): set<Key> {
    set e | e in es :: KeyOf(e)
  }

  /** The keys a batch offers, actuator noise aside. */
  function Offered(es: seq<Exchange>): set<Key> {
    set e | e in es && Accepted(e) :: KeyOf(e)
  }

  predicate Sorted(es: seq<Exchange>) {
    forall i, j :: 0 <= i < j < |es| ==> es[i].at <= es[j].at
  }

  predicate Distinct(es: seq<Exchange>) {
    forall i, j :: 0 <= i < j < |es| ==> KeyOf(es[i]) != KeyOf(es[j])
  }

  // ----- the code -----

  /** What a merge adds to the window: accepted, unseen, once each, in the order offered. */
  function Added(seen: set<Key>, incoming: seq<Exchange>): seq<Exchange>
    decreases |incoming|
  {
    if incoming == [] then []
    else if !Accepted(incoming[0]) || KeyOf(incoming[0]) in seen then Added(seen, incoming[1..])
    else [incoming[0]] + Added(seen + {KeyOf(incoming[0])}, incoming[1..])
  }

  ghost predicate SortedVersion(es: seq<Exchange>, r: seq<Exchange>) {
    Sorted(r) && multiset(r) == multiset(es)
  }

  /** What mergeExchanges may return. Sorting is not stable, so requests of the same instant may come in any order. */
  ghost predicate Merged(old_: seq<Exchange>, incoming: seq<Exchange>, keep: nat, r: seq<Exchange>) {
    if incoming == [] then r == Last(old_, keep)
    else exists all :: SortedVersion(old_ + Added(Keys(old_), incoming), all) && r == Last(all, keep)
  }

  function Inserted(es: seq<Exchange>, e: Exchange): seq<Exchange> {
    if es == [] || e.at < es[0].at then [e] + es else [es[0]] + Inserted(es[1..], e)
  }

  lemma {:induction false} InsertedContents(es: seq<Exchange>, e: Exchange)
    ensures multiset(Inserted(es, e)) == multiset(es) + multiset{e}
  {
    if es != [] && es[0].at <= e.at {
      InsertedContents(es[1..], e);
      assert es == [es[0]] + es[1..];
    }
  }

  lemma {:induction false} InsertedSorted(es: seq<Exchange>, e: Exchange)
    requires Sorted(es)
    ensures Sorted(Inserted(es, e))
  {
    if es != [] && es[0].at <= e.at {
      InsertedSorted(es[1..], e);
      InsertedContents(es[1..], e);
      var more := Inserted(es[1..], e);
      forall j | 0 <= j < |more|
        ensures es[0].at <= more[j].at
      {
        assert more[j] in multiset(more);
        assert more[j] == e || more[j] in es[1..];
      }
    }
  }

  /** sort.Slice by time; only that the result is sorted and the same requests is used. */
  method SortByTime(es: seq<Exchange>) returns (r: seq<Exchange>)
    ensures SortedVersion(es, r)
  {
    r := [];
    for n := 0 to |es|
      invariant SortedVersion(es[..n], r)
    {
      assert es[..n + 1] == es[..n] + [es[n]];
      InsertedSorted(r, es[n]);
      InsertedContents(r, es[n]);
      r := Inserted(r, es[n]);
    }
    assert es[..|es|] == es;
  }

  method MergeExchanges(old_: seq<Exchange>, incoming: seq<Exchange>, keep: nat) returns (r: seq<Exchange>)
    ensures Merged(old_, incoming, keep, r)
  {
    if |incoming| == 0 {
      if |old_| > keep {
        return old_[|old_| - keep..];
      }
      return old_;
    }
    var seen: set<Key> := {};
    for i := 0 to |old_|
      invariant seen == Keys(old_[..i])
    {
      assert old_[..i + 1] == old_[..i] + [old_[i]];
      seen := seen + {KeyOf(old_[i])};
    }
    assert old_[..|old_|] == old_;
    var out := old_;
    for i := 0 to |incoming|
      invariant out + Added(seen, incoming[i..]) == old_ + Added(Keys(old_), incoming)
    {
      var e := incoming[i];
      assert incoming[i..][1..] == incoming[i + 1..];
      if e.path == "" || ACTUATOR <= e.path {
        continue;
      }
      var k := KeyOf(e);
      if k in seen {
        continue;
      }
      assert out + Added(seen, incoming[i..]) == out + [e] + Added(seen + {k}, incoming[i + 1..]);
      seen := seen + {k};
      out := out + [e];
    }
    assert incoming[|incoming|..] == [];
    assert out == old_ + Added(Keys(old_), incoming);
    out := SortByTime(out);
    r := out;
    if |out| > keep {
      r := out[|out| - keep..];
    }
    assert r == Last(out, keep);
  }

  const KEEP_EXCHANGES := 80

  /** The part of appTraffic the merge lives in. */
  class AppTraffic {
    var recent: seq<Exchange>

    constructor ()
      ensures recent == []
    {
      recent := [];
    }

    /** One sample. */
    method Sample(incoming: seq<Exchange>)
      modifies this
      ensures Merged(old(recent), incoming, KEEP_EXCHANGES, recent)
    {
      recent := MergeExchanges(recent, incoming, KEEP_EXCHANGES);
    }
  }

  // ----- what the window holds -----

  /** `recent` is a newest-`keep` window on the distinct exchanges `all`: nothing left out is newer than anything
      kept. */
  ghost predicate Window(recent: seq<Exchange>, all: set<Key>, keep: nat) {
    && Sorted(recent) && Distinct(recent) && Keys(recent) <= all
    && |recent| == (if |all| < keep then |all| else keep)
    && forall u, i :: u in all && u !in Keys(recent) && 0 <= i < |recent| ==> u.at <= recent[i].at
  }

  lemma {:induction false} AddedKeys(seen: set<Key>, incoming: seq<Exchange>)
    ensures Distinct(Added(seen, incoming))
    ensures Keys(Added(seen, incoming)) == Offered(incoming) - seen
    decreases |incoming|
  {
    if incoming != [] {
      var e, rest := incoming[0], incoming[1..];
      assert forall x :: x in incoming <==> x == e || x in rest;
      if Accepted(e) && KeyOf(e) !in seen {
        AddedKeys(seen + {KeyOf(e)}, rest);
        var more := Added(seen + {KeyOf(e)}, rest);
        assert forall i :: 0 <= i < |more| ==> KeyOf(more[i]) in Keys(more);
        assert Keys([e] + more) == {KeyOf(e)} + Keys(more);
      } else {
        AddedKeys(seen, rest);
      }
    }
  }

  lemma {:induction false} DistinctCounts(es: seq<Exchange>)
    requires Distinct(es)
    ensures |Keys(es)| == |es|
    decreases |es|
  {
    if es != [] {
      DistinctCounts(es[1..]);
      assert Keys(es) == {KeyOf(es[0])} + Keys(es[1..]);
      assert KeyOf(es[0]) !in Keys(es[1..]);
    }
  }

  lemma DistinctConcat(a: seq<Exchange>, b: seq<Exchange>)
    requires Distinct(a) && Distinct(b) && Keys(a) !! Keys(b)
    ensures Distinct(a + b) && Keys(a + b) == Keys(a) + Keys(b)
  {
    assert forall i :: 0 <= i < |a| ==> KeyOf(a[i]) in Keys(a);
    assert forall i :: 0 <= i < |b| ==> KeyOf(b[i]) in Keys(b);
    assert forall e :: e in a + b <==> e in a || e in b;
  }

  /** Reordering keeps the keys, and keeps them distinct. */
  lemma ReorderedKeys(es: seq<Exchange>, r: seq<Exchange>)
    requires multiset(es) == multiset(r) && Distinct(es)
    ensures Keys(r) == Keys(es) && Distinct(r) && |r| == |es|
  {
    assert forall e :: e in es <==> e in multiset(es);
    assert forall e :: e in r <==> e in multiset(r);
    assert |multiset(es)| == |es| && |multiset(r)| == |r|;
    DistinctCounts(es);
    CountsDistinct(r);
  }

  lemma KeysSplit(es: seq<Exchange>)
    requires es != []
    ensures Keys(es) == {KeyOf(es[0])} + Keys(es[1..])
    ensures Distinct(es[1..]) && KeyOf(es[0]) !in Keys(es[1..]) ==> Distinct(es)
  {
    assert forall i :: 1 <= i < |es| ==> es[i] == es[1..][i - 1] && es[i] in es[1..];
  }

  /** The converse of DistinctCounts. */
  lemma {:induction false} CountsDistinct(es: seq<Exchange>)
    ensures |Keys(es)| <= |es|
    ensures |Keys(es)| == |es| ==> Distinct(es)
    decreases |es|
  {
    if es != [] {
      CountsDistinct(es[1..]);
      KeysSplit(es);
      if KeyOf(es[0]) in Keys(es[1..]) {
        assert Keys(es) == Keys(es[1..]);
      }
    }
  }

  /** Where at least `keep` elements are no older than `at`, so is everything in the last `keep`. */
  lemma LastAreNewer(all: seq<Exchange>, some: seq<Exchange>, keep: nat, at: int, i: nat)
    requires Sorted(all) && multiset(some) <= multiset(all) && |some| >= keep
    requires forall e :: e in some ==> e.at >= at
    requires |all| - keep <= i < |all|
    ensures all[i].at >= at
  {
    if all[i].at < at {
      var head, tail := all[..i + 1], all[i + 1..];
      assert all == head + tail;
      assert multiset(all) == multiset(head) + multiset(tail);
      forall e | e in multiset(some)
        ensures e !in multiset(head)
      {
        assert e in some;
      }
      assert multiset(some) <= multiset(tail);
      MultisetSize(some, tail);
    }
  }

  lemma MultisetSize(a: seq<Exchange>, b: seq<Exchange>)
    requires multiset(a) <= multiset(b)
    ensures |a| <= |b|
  {
    assert multiset(b) == multiset(a) + (multiset(b) - multiset(a));
    assert |multiset(a)| == |a| && |multiset(b)| == |b|;
  }

  /** The sorted sequence a merge trims holds every key that is offered, besides those of the window. */
  lemma MergeSorts(recent: seq<Exchange>, incoming: seq<Exchange>, sorted: seq<Exchange>)
    requires Distinct(recent) && SortedVersion(recent + Added(Keys(recent), incoming), sorted)
    ensures Distinct(sorted) && Keys(sorted) == Keys(recent) + Offered(incoming)
    ensures |sorted| >= |recent| && |sorted| == |Keys(sorted)| && |recent| == |Keys(recent)|
  {
    var add := Added(Keys(recent), incoming);
    AddedKeys(Keys(recent), incoming);
    DistinctConcat(recent, add);
    ReorderedKeys(recent + add, sorted);
    DistinctCounts(sorted);
    DistinctCounts(recent);
  }

  lemma MergeKeepsSize(recent: seq<Exchange>, all: set<Key>, incoming: seq<Exchange>, keep: nat, sorted: seq<Exchange>)
    requires Window(recent, all, keep) && SortedVersion(recent + Added(Keys(recent), incoming), sorted)
    ensures |Last(sorted, keep)| == Min(|all + Offered(incoming)|, keep)
    ensures Keys(recent) != all ==> |recent| == keep
  {
    MergeSorts(recent, incoming, sorted);
    if Keys(recent) == all {
      assert Keys(sorted) == all + Offered(incoming);
    } else {
      ProperSubset(Keys(recent), all);
      SubsetSize(all, all + Offered(incoming));
    }
  }

  /** The merge, seen as one sorted sequence of which the newest are kept. */
  lemma MergeKeepsWindow(recent: seq<Exchange>, all: set<Key>, incoming: seq<Exchange>, keep: nat,
                         sorted: seq<Exchange>)
    requires Window(recent, all, keep) && SortedVersion(recent + Added(Keys(recent), incoming), sorted)
    ensures Window(Last(sorted, keep), all + Offered(incoming), keep)
  {
    MergeSorts(recent, incoming, sorted);
    MergeKeepsSize(recent, all, incoming, keep, sorted);
    LastKeys(sorted, keep);
    forall u, i | u in all + Offered(incoming) && u !in Keys(Last(sorted, keep)) && 0 <= i < |Last(sorted, keep)|
      ensures u.at <= Last(sorted, keep)[i].at
    {
      if u in Keys(sorted) {
        LastAreNewest(sorted, keep, u, i);
      } else {
        OldEvictedStaysOlder(recent, Added(Keys(recent), incoming), sorted, keep, u, i);
      }
    }
  }

  lemma ProperSubset(a: set<Key>, b: set<Key>)
    requires a <= b && a != b
    ensures |a| < |b|
  {
    var x :| x in b && x !in a;
    assert b == a + (b - a);
    assert x in b - a;
  }

  lemma LastKeys(sorted: seq<Exchange>, keep: nat)
    requires Sorted(sorted) && Distinct(sorted)
    ensures Sorted(Last(sorted, keep)) && Distinct(Last(sorted, keep)) && Keys(Last(sorted, keep)) <= Keys(sorted)
  {
    assert forall e :: e in Last(sorted, keep) ==> e in sorted;
  }

  /** What the trim drops is no newer than what it keeps. */
  lemma LastAreNewest(sorted: seq<Exchange>, keep: nat, u: Key, i: nat)
    requires Sorted(sorted) && u in Keys(sorted) && u !in Keys(Last(sorted, keep)) && i < |Last(sorted, keep)|
    ensures u.at <= Last(sorted, keep)[i].at
  {
    var e :| e in sorted && KeyOf(e) == u;
    var j :| 0 <= j < |sorted| && sorted[j] == e;
    var cut := |sorted| - |Last(sorted, keep)|;
    assert forall k :: cut <= k < |sorted| ==> sorted[k] == Last(sorted, keep)[k - cut];
    assert forall x :: x in Last(sorted, keep) ==> KeyOf(x) in Keys(Last(sorted, keep));
    assert j < cut;
    assert sorted[j].at <= sorted[cut + i].at;
  }

  lemma SortedHolds(recent: seq<Exchange>, add: seq<Exchange>, sorted: seq<Exchange>)
    requires SortedVersion(recent + add, sorted)
    ensures |sorted| == |recent| + |add| && multiset(recent) <= multiset(sorted)
  {
    assert |multiset(sorted)| == |sorted| && |multiset(recent + add)| == |recent + add|;
    assert multiset(recent + add) == multiset(recent) + multiset(add);
  }

  /** What was evicted before is no newer than the full window it was evicted from, hence than its successor. */
  lemma OldEvictedStaysOlder(recent: seq<Exchange>, add: seq<Exchange>, sorted: seq<Exchange>, keep: nat, u: Key,
                             i: nat)
    requires SortedVersion(recent + add, sorted) && |recent| == keep
    requires forall k :: 0 <= k < |recent| ==> u.at <= recent[k].at
    requires i < |Last(sorted, keep)|
    ensures u.at <= Last(sorted, keep)[i].at
  {
    SortedHolds(recent, add, sorted);
    LastAreNewer(sorted, recent, keep, u.at, |sorted| - |Last(sorted, keep)| + i);
  }

  lemma MergeStep(recent: seq<Exchange>, all: set<Key>, incoming: seq<Exchange>, keep: nat, r: seq<Exchange>)
    requires Window(recent, all, keep) && Merged(recent, incoming, keep, r)
    ensures Window(r, all + Offered(incoming), keep)
  {
    if incoming == [] {
      assert Offered(incoming) == {};
      assert all + {} == all;
    } else {
      var sorted :| SortedVersion(recent + Added(Keys(recent), incoming), sorted) && r == Last(sorted, keep);
      MergeKeepsWindow(recent, all, incoming, keep, sorted);
    }
  }

  /** The distinct accepted requests of a run of batches. */
  function AllOffered(batches: seq<seq<Exchange>>): set<Key> {
    if batches == [] then {} else AllOffered(batches[..|batches| - 1]) + Offered(batches[|batches| - 1])
  }

  /** `windows` are the successive values of appTraffic.recent while `batches` come in. */
  ghost predicate MergeRun(windows: seq<seq<Exchange>>, batches: seq<seq<Exchange>>, keep: nat) {
    && |windows| == |batches| + 1 && windows[0] == []
    && forall i :: 0 <= i < |batches| ==> Merged(windows[i], batches[i], keep, windows[i + 1])
  }

  lemma MergeRunPrefix(windows: seq<seq<Exchange>>, batches: seq<seq<Exchange>>, keep: nat)
    requires MergeRun(windows, batches, keep) && batches != []
    ensures var n := |batches| - 1;
            && MergeRun(windows[..n + 1], batches[..n], keep)
            && Merged(windows[n], batches[n], keep, windows[n + 1])
  {
    var n := |batches| - 1;
    forall i | 0 <= i < n
      ensures Merged(windows[..n + 1][i], batches[..n][i], keep, windows[..n + 1][i + 1])
    {
      assert Merged(windows[i], batches[i], keep, windows[i + 1]);
    }
  }

  lemma {:induction false} MergeRunKeepsWindow(windows: seq<seq<Exchange>>, batches: seq<seq<Exchange>>, keep: nat)
    requires MergeRun(windows, batches, keep)
    ensures Window(windows[|batches|], AllOffered(batches), keep)
    decreases |batches|
  {
    if batches != [] {
      var n := |batches| - 1;
      MergeRunPrefix(windows, batches, keep);
      MergeRunKeepsWindow(windows[..n + 1], batches[..n], keep);
      assert windows[..n + 1][n] == windows[n];
      MergeStep(windows[n], AllOffered(batches[..n]), batches[n], keep, windows[n + 1]);
    }
  }

  // ----- the window as a multiset of timestamps -----

  function Newer(ks: set<Key>, at: int): set<Key> {
    set k | k in ks && k.at > at
  }

  function Min(a: nat, b: nat): nat {
    if a < b then a else b
  }

  /** For every instant, the window holds as many newer requests as there are, up to `keep`. */
  lemma WindowCounts(recent: seq<Exchange>, all: set<Key>, keep: nat, at: int)
    requires Window(recent, all, keep)
    ensures |Newer(Keys(recent), at)| == Min(keep, |Newer(all, at)|)
  {
    DistinctCounts(recent);
    var mine, theirs := Newer(Keys(recent), at), Newer(all, at);
    assert mine <= theirs;
    if u :| u in all && u !in Keys(recent) && u.at > at {
      ProperSubset(Keys(recent), all);
      forall k | k in Keys(recent)
        ensures k in mine
      {
        var e :| e in recent && KeyOf(e) == k;
        var i :| 0 <= i < |recent| && recent[i] == e;
      }
      assert mine == Keys(recent);
      assert u in theirs && u !in mine;
      ProperSubset(mine, theirs);
    } else {
      assert mine == theirs;
      SubsetSize(mine, Keys(recent));
    }
  }

  /** The number of requests of the window at one instant is what the newest `keep` of all distinct accepted requests
      have at that instant: the window is the newest `keep` as a multiset of timestamps, however often a request was
      offered, evicted and offered again. */
  lemma WindowIsNewest(windows: seq<seq<Exchange>>, batches: seq<seq<Exchange>>, keep: nat, at: int)
    requires MergeRun(windows, batches, keep)
    ensures var recent, all := windows[|batches|], AllOffered(batches);
            && Sorted(recent) && Distinct(recent)
            && multiset(Times(recent))[at]
               == Min(keep, |Newer(all, at - 1)|) - Min(keep, |Newer(all, at)|)
  {
    MergeRunKeepsWindow(windows, batches, keep);
    var recent, all := windows[|batches|], AllOffered(batches);
    WindowCounts(recent, all, keep, at - 1);
    WindowCounts(recent, all, keep, at);
    TimesCount(recent, at);
  }

  function Times(es: seq<Exchange>): seq<int> {
    seq(|es|, i requires 0 <= i < |es| => es[i].at)
  }

  lemma {:induction false} TimesCount(es: seq<Exchange>, at: int)
    requires Distinct(es)
    ensures multiset(Times(es))[at] == |Newer(Keys(es), at - 1)| - |Newer(Keys(es), at)|
    decreases |es|
  {
    if es == [] {
      assert Newer(Keys(es), at - 1) == {} && Newer(Keys(es), at) == {};
    } else {
      TimesCount(es[1..], at);
      TimesOfCons(es, at);
      KeysOfCons(es);
      NewerAdd(Keys(es[1..]), KeyOf(es[0]), at - 1);
      NewerAdd(Keys(es[1..]), KeyOf(es[0]), at);
    }
  }

  lemma TimesOfCons(es: seq<Exchange>, at: int)
    requires es != []
    ensures multiset(Times(es))[at] == multiset(Times(es[1..]))[at] + if es[0].at == at then 1 else 0
  {
    assert Times(es) == [es[0].at] + Times(es[1..]);
  }

  lemma KeysOfCons(es: seq<Exchange>)
    requires es != [] && Distinct(es)
    ensures Keys(es) == {KeyOf(es[0])} + Keys(es[1..]) && KeyOf(es[0]) !in Keys(es[1..])
  {
  }

  lemma NewerAdd(ks: set<Key>, k: Key, at: int)
    requires k !in ks
    ensures |Newer({k} + ks, at)| == |Newer(ks, at)| + if k.at > at then 1 else 0
  {
    assert Newer({k} + ks, at) == if k.at > at then {k} + Newer(ks, at) else Newer(ks, at);
  }

  // ----- the entries are those that were offered -----

  /** Entry j of the batch has a path that is not an actuator's, and no earlier one is the same request. */
  predicate FirstOffer(batch: seq<Exchange>, j: nat) {
    && j < |batch| && batch[j].path != "" && !("/actuator" <= batch[j].path)
    && forall i :: 0 <= i < j ==> KeyOf(batch[i]) != KeyOf(batch[j])
  }

  ghost predicate OffersFirst(batch: seq<Exchange>, e: Exchange) {
    exists j: nat :: FirstOffer(batch, j) && batch[j] == e
  }

  lemma {:induction false} AddedAreOffered(seen: set<Key>, incoming: seq<Exchange>, e: Exchange)
    requires e in Added(seen, incoming)
    ensures OffersFirst(incoming, e) && KeyOf(e) !in seen
    decreases |incoming|
  {
    var adds := Accepted(incoming[0]) && KeyOf(incoming[0]) !in seen;
    if adds && e == incoming[0] {
      assert FirstOffer(incoming, 0);
    } else {
      AddedAreOffered(if adds then seen + {KeyOf(incoming[0])} else seen, incoming[1..], e);
      var j: nat :| FirstOffer(incoming[1..], j) && incoming[1..][j] == e;
      assert FirstOffer(incoming, j + 1);
    }
  }

  /** A merge brings in nothing but what is offered first of a request it does not hold, and changes nothing it
      holds. */
  lemma MergeBringsOffered(recent: seq<Exchange>, incoming: seq<Exchange>, keep: nat, r: seq<Exchange>, e: Exchange)
    requires Merged(recent, incoming, keep, r) && e in r
    ensures e in recent || (OffersFirst(incoming, e) && KeyOf(e) !in Keys(recent))
  {
    if incoming != [] && e !in recent {
      var add := Added(Keys(recent), incoming);
      var sorted :| SortedVersion(recent + add, sorted) && r == Last(sorted, keep);
      assert e in sorted;
      assert e in multiset(sorted);
      assert e in recent + add;
      AddedAreOffered(Keys(recent), incoming, e);
    }
  }

  /** Batch i brings `e` in, as the first offer of a request the window does not hold then, and the window holds `e`
      ever since. */
  ghost predicate CameIn(windows: seq<seq<Exchange>>, batches: seq<seq<Exchange>>, e: Exchange, i: nat)
    requires |windows| == |batches| + 1
  {
    && i < |batches| && OffersFirst(batches[i], e) && KeyOf(e) !in Keys(windows[i])
    && forall m :: i < m <= |batches| ==> e in windows[m]
  }

  /** Over any run, an entry of the window is, in all its fields, the first offer of its request since the window last
      did not hold it. */
  lemma {:induction false} EntriesAreFirstOffers(windows: seq<seq<Exchange>>, batches: seq<seq<Exchange>>, keep: nat,
                                                 e: Exchange)
    requires MergeRun(windows, batches, keep) && e in windows[|batches|]
    ensures exists i: nat :: CameIn(windows, batches, e, i)
    decreases |batches|
  {
    var n := |batches| - 1;
    MergeRunPrefix(windows, batches, keep);
    MergeBringsOffered(windows[n], batches[n], keep, windows[n + 1], e);
    if e in windows[n] {
      EntriesAreFirstOffers(windows[..n + 1], batches[..n], keep, e);
      var i: nat :| CameIn(windows[..n + 1], batches[..n], e, i);
      assert CameIn(windows, batches, e, i);
    } else {
      assert CameIn(windows, batches, e, n);
    }
  }
}
