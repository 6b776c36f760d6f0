/** Which of several processes with one instance marker is the one to watch. */
module Leaves {
  import opened Markers

  /** Nobody in `matches` names the process as its parent. */
  predicate IsLeaf(m: Process, matches: seq<Process>) {
    forall i :: 0 <= i < |matches| ==> matches[i].parent != m.pid
  }

  function LeavesOf(ms: seq<Process>, matches: seq<Process>): seq<Process> {
    if ms == [] then []
    else
      var front := LeavesOf(ms[..|ms| - 1], matches);
      if IsLeaf(ms[|ms| - 1], matches) then front + [ms[|ms| - 1]] else front
  }

  method LeafMatches(matches: seq<Process>) returns (leaves: seq<Process>)
    ensures leaves == LeavesOf(matches, matches)
  {
    var isParent: map<nat, bool> := map[];
    for i := 0 to |matches|
      invariant forall pid :: pid in isParent <==> exists j :: 0 <= j < i && matches[j].parent == pid
    {
      isParent := isParent[matches[i].parent := true];
    }
    leaves := [];
    for i := 0 to |matches|
      invariant leaves == LeavesOf(matches[..i], matches)
    {
      assert matches[..i + 1][..i] == matches[..i];
      if matches[i].pid !in isParent {
        leaves := leaves + [matches[i]];
      }
    }
    assert matches[..|matches|] == matches;
  }

  datatype FindResult = Ok(process: Process) | NotRunning | Ambiguous(claims: nat)

  function Picked(leaves: seq<Process>): FindResult {
    if |leaves| == 1 then Ok(leaves[0]) else Ambiguous(|leaves|)
  }

  method FindInstance(snapshot: seq<Process>, id: string) returns (r: FindResult)
    ensures var matches := Found(snapshot, InstanceMarker(id));
            r == if matches == [] then NotRunning else Picked(LeavesOf(matches, matches))
  {
    var matches := FindByMarker(snapshot, InstanceMarker(id));
    if |matches| == 0 {
      return NotRunning;
    }
    var leaves := LeafMatches(matches);
    if |leaves| == 1 {
      r := Ok(leaves[0]);
    } else {
      r := Ambiguous(|leaves|);
    }
  }

  // ----- chains -----

  /** Pids are distinct, and a parent was there before its child. */
  predicate Possible(ms: seq<Process>) {
    && (forall i, j :: 0 <= i < j < |ms| ==> ms[i].pid != ms[j].pid)
    && (forall i, j :: 0 <= i < |ms| && 0 <= j < |ms| && ms[j].parent == ms[i].pid ==> ms[i].created < ms[j].created)
  }

  predicate Linked(c: seq<Process>) {
    forall i :: 0 <= i < |c| - 1 ==> c[i + 1].parent == c[i].pid
  }

  /** `c` lists exactly the processes of `ms`, each the parent of the next. */
  ghost predicate IsChain(ms: seq<Process>, c: seq<Process>) {
    c != [] && multiset(c) == multiset(ms) && Linked(c)
  }

  lemma {:induction false} LeavesOfAre(ms: seq<Process>, matches: seq<Process>, m: Process)
    ensures m in LeavesOf(ms, matches) <==> m in ms && IsLeaf(m, matches)
  {
    if ms != [] {
      LeavesOfAre(ms[..|ms| - 1], matches, m);
      assert ms == ms[..|ms| - 1] + [ms[|ms| - 1]];
    }
  }

  predicate Distinct(s: seq<Process>) {
    forall i, j :: 0 <= i < |s| && 0 <= j < |s| && s[i] == s[j] ==> i == j
  }

  lemma {:induction false} LeavesKeepDistinct(ms: seq<Process>, matches: seq<Process>)
    requires Distinct(ms)
    ensures Distinct(LeavesOf(ms, matches))
  {
    if ms != [] {
      var front, last := ms[..|ms| - 1], ms[|ms| - 1];
      assert forall i :: 0 <= i < |front| ==> front[i] == ms[i];
      LeavesKeepDistinct(front, matches);
      LeavesOfAre(front, matches, last);
      assert last !in front;
    }
  }

  lemma {:induction false} Latest(ms: seq<Process>) returns (k: nat)
    requires ms != []
    ensures k < |ms| && forall i :: 0 <= i < |ms| ==> ms[i].created <= ms[k].created
  {
    if |ms| == 1 {
      k := 0;
    } else {
      k := Latest(ms[..|ms| - 1]);
      if ms[|ms| - 1].created > ms[k].created {
        k := |ms| - 1;
      }
    }
  }

  /** Some process is nobody's parent: the one created last. */
  lemma SomeLeaf(ms: seq<Process>)
    requires ms != [] && Possible(ms)
    ensures LeavesOf(ms, ms) != []
  {
    var k := Latest(ms);
    LeavesOfAre(ms, ms, ms[k]);
  }

  lemma {:induction false} ChainAges(c: seq<Process>, i: nat, j: nat)
    requires Possible(c) && Linked(c) && i <= j < |c|
    ensures c[i].created <= c[j].created
    decreases j - i
  {
    if i < j {
      ChainAges(c, i, j - 1);
    }
  }

  lemma PossiblePermuted(ms: seq<Process>, c: seq<Process>)
    requires Possible(ms) && multiset(c) == multiset(ms)
    ensures Possible(c) && |c| == |ms|
    ensures forall m :: m in c <==> m in ms
  {
    assert |multiset(c)| == |c| && |multiset(ms)| == |ms|;
    forall m
      ensures m in c <==> m in ms
    {
      assert m in c <==> m in multiset(c);
    }
    forall i, j | 0 <= i < |c| && 0 <= j < |c| && c[j].parent == c[i].pid
      ensures c[i].created < c[j].created
    {
      OlderParent(ms, c[i], c[j]);
    }
    forall i, j | 0 <= i < j < |c|
      ensures c[i].pid != c[j].pid
    {
      if c[i].pid == c[j].pid {
        SamePid(ms, c[i], c[j]);
        Twice(c, i, j);
        Once(ms, c[i]);
      }
    }
  }

  lemma SamePid(ms: seq<Process>, m: Process, n: Process)
    requires Possible(ms) && m in ms && n in ms && m.pid == n.pid
    ensures m == n
  {
  }

  lemma OlderParent(ms: seq<Process>, m: Process, n: Process)
    requires Possible(ms) && m in ms && n in ms && n.parent == m.pid
    ensures m.created < n.created
  {
  }

  lemma OnlyOne(s: seq<Process>, m: Process)
    requires s != [] && forall i :: 0 <= i < |s| ==> s[i] == m
    requires Distinct(s)
    ensures s == [m]
  {
    assert s[0] == s[|s| - 1];
  }

  lemma Twice(c: seq<Process>, i: nat, j: nat)
    requires i < j < |c| && c[i] == c[j]
    ensures multiset(c)[c[i]] >= 2
  {
    assert c == c[..j] + c[j..];
    assert c[i] in c[..j] && c[i] in c[j..];
  }

  lemma {:induction false} Once(ms: seq<Process>, m: Process)
    requires Possible(ms)
    ensures multiset(ms)[m] <= 1
  {
    if ms != [] {
      assert ms == [ms[0]] + ms[1..];
      Once(ms[1..], m);
    }
  }

  /** In a chain, only the last process is a leaf. */
  lemma ChainHasOneLeaf(ms: seq<Process>, c: seq<Process>)
    requires Possible(ms) && IsChain(ms, c)
    ensures LeavesOf(ms, ms) == [c[|c| - 1]]
  {
    PossiblePermuted(ms, c);
    var leaves, last := LeavesOf(ms, ms), c[|c| - 1];
    LeavesOfAre(ms, ms, last);
    forall m ensures m in leaves ==> m == last {
      LeavesOfAre(ms, ms, m);
      if m in ms && m != last {
        var i :| 0 <= i < |c| && c[i] == m;
        assert c[i + 1].parent == m.pid && c[i + 1] in ms;
      }
    }
    forall i | 0 <= i < |ms|
      ensures ms[i].parent != last.pid
    {
      assert ms[i] in c;
      var j :| 0 <= j < |c| && c[j] == ms[i];
      ChainAges(c, j, |c| - 1);
    }
    LeavesKeepDistinct(ms, ms);
    assert last in leaves;
    assert forall i :: 0 <= i < |leaves| ==> leaves[i] in leaves;
    OnlyOne(leaves, last);
  }

  /** `ms` without its k-th element. */
  function Without(ms: seq<Process>, k: nat): seq<Process>
    requires k < |ms|
  {
    ms[..k] + ms[k + 1..]
  }

  lemma WithoutCounts(ms: seq<Process>, k: nat)
    requires k < |ms|
    ensures multiset(ms) == multiset(Without(ms, k)) + multiset{ms[k]}
  {
    assert ms == ms[..k] + [ms[k]] + ms[k + 1..];
  }

  lemma WithoutIsPossible(ms: seq<Process>, k: nat)
    requires k < |ms| && Possible(ms)
    ensures Possible(Without(ms, k))
  {
    var rest := Without(ms, k);
    assert forall i :: 0 <= i < |rest| ==> rest[i] == if i < k then ms[i] else ms[i + 1];
  }

  lemma WithoutMembers(ms: seq<Process>, k: nat, m: Process)
    requires k < |ms| && Possible(ms)
    ensures m in Without(ms, k) <==> m in ms && m != ms[k]
  {
    if m in Without(ms, k) {
      var i :| 0 <= i < |Without(ms, k)| && Without(ms, k)[i] == m;
      assert m == ms[if i < k then i else i + 1];
    }
    if m in ms && m != ms[k] {
      var i :| 0 <= i < |ms| && ms[i] == m;
      assert Without(ms, k)[if i < k then i else i - 1] == m;
    }
  }

  lemma WithoutIsRest(ms: seq<Process>, k: nat)
    requires k < |ms| && Possible(ms)
    ensures Possible(Without(ms, k)) && forall m :: m in Without(ms, k) <==> m in ms && m != ms[k]
  {
    WithoutIsPossible(ms, k);
    forall m
      ensures m in Without(ms, k) <==> m in ms && m != ms[k]
    {
      WithoutMembers(ms, k, m);
    }
  }

  lemma ChainGrows(ms: seq<Process>, k: nat, front: seq<Process>)
    requires k < |ms| && IsChain(Without(ms, k), front) && ms[k].parent == front[|front| - 1].pid
    ensures IsChain(ms, front + [ms[k]])
  {
    WithoutCounts(ms, k);
    assert multiset(front + [ms[k]]) == multiset(front) + multiset{ms[k]};
  }

  /** With one leaf, taking it away leaves one leaf again: its parent. */
  lemma {:induction false} OneLeafIsChain(ms: seq<Process>) returns (c: seq<Process>)
    requires Possible(ms) && |LeavesOf(ms, ms)| == 1
    ensures IsChain(ms, c)
    decreases |ms|
  {
    var leaf := LeavesOf(ms, ms)[0];
    LeavesOfAre(ms, ms, leaf);
    if |ms| == 1 {
      c := ms;
    } else {
      var k :| 0 <= k < |ms| && ms[k] == leaf;
      WithoutIsRest(ms, k);
      var parent := OneLeafBelow(ms, leaf, Without(ms, k));
      var front := OneLeafIsChain(Without(ms, k));
      ChainHasOneLeaf(Without(ms, k), front);
      ChainGrows(ms, k, front);
      c := front + [leaf];
    }
  }

  lemma OneLeafBelow(ms: seq<Process>, leaf: Process, rest: seq<Process>) returns (parent: Process)
    requires Possible(ms) && LeavesOf(ms, ms) == [leaf]
    requires Possible(rest) && rest != [] && forall m :: m in rest <==> m in ms && m != leaf
    ensures LeavesOf(rest, rest) == [parent] && leaf.parent == parent.pid
  {
    var leaves := LeavesOf(rest, rest);
    forall m | m in leaves
      ensures m in rest && leaf.parent == m.pid
    {
      LeavesOfAre(rest, rest, m);
      LeavesOfAre(ms, ms, m);
      var i :| 0 <= i < |ms| && ms[i].parent == m.pid;
      assert ms[i] !in rest;
    }
    SomeLeaf(rest);
    parent := leaves[0];
    LeavesKeepDistinct(rest, rest);
    forall i | 0 <= i < |leaves|
      ensures leaves[i] == parent
    {
      assert leaves[i] in leaves && parent in leaves;
      SamePid(rest, leaves[i], parent);
    }
    OnlyOne(leaves, parent);
  }

  // ----- the theorem -----

  /** There is one leaf exactly if the matches form one parent-child chain, and then it is the end of the chain. */
  lemma OneLeafExactlyForChains(ms: seq<Process>)
    requires ms != [] && Possible(ms)
    ensures |LeavesOf(ms, ms)| >= 1
    ensures |LeavesOf(ms, ms)| == 1 <==> exists c :: IsChain(ms, c)
    ensures forall c :: IsChain(ms, c) ==> Picked(LeavesOf(ms, ms)) == Ok(c[|c| - 1])
  {
    SomeLeaf(ms);
    if |LeavesOf(ms, ms)| == 1 {
      var c := OneLeafIsChain(ms);
    }
    forall c | IsChain(ms, c)
      ensures LeavesOf(ms, ms) == [c[|c| - 1]]
    {
      ChainHasOneLeaf(ms, c);
    }
  }
}
