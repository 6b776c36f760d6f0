/** The check of one app at startup, in the detail of `Reconcile`, is the ReconcileApp step of the protocol. */
module ReconcileStep {
  import opened Common
  import opened Markers
  import P = Protocol
  import R = Reconcile
  import S = ProtocolSafety

  /** The protocol numbers instance ids. */
  type Numbering = map<string, nat>

  predicate SameProcess(q: P.Proc, p: Process) {
    q.pid == p.pid && q.ctime == p.created
  }

  predicate SeenIn(q: P.Proc, snapshot: seq<Process>) {
    exists i :: 0 <= i < |snapshot| && snapshot[i].readable && SameProcess(q, snapshot[i])
  }

  /** A look at the host shows live processes only, and on each command line the instance id of the launch. */
  ghost predicate Shows(live: set<P.Proc>, snapshot: seq<Process>, ids: Numbering) {
    forall i :: 0 <= i < |snapshot| && snapshot[i].readable ==> IsLive(live, snapshot[i], ids)
  }

  /** The liveness look can open every process it is about. */
  ghost predicate SeesAll(live: set<P.Proc>, h: P.Handle, snapshot: seq<Process>) {
    forall q :: q in live && P.Matches(q, h) ==> SeenIn(q, snapshot)
  }

  ghost predicate IsLive(live: set<P.Proc>, p: Process, ids: Numbering) {
    exists q :: q in live && SameProcess(q, p) && CarriesIdOf(q, p, ids)
  }

  predicate CarriesIdOf(q: P.Proc, p: Process, ids: Numbering) {
    var id := Extracted(p.commandLine, INSTANCE_PREFIX);
    id in ids ==> q.owner.Managed? && q.owner.inst == ids[id]
  }

  predicate SameHandle(h: P.Handle, pid: nat, created: int, id: string, ids: Numbering) {
    h.pid == pid && h.ctime == created && id in ids && h.inst == ids[id]
  }

  predicate SameRow(row: P.Row, r: R.Row, ids: Numbering) {
    row.state == r.state && SameHandle(row.h, r.pid, r.created, r.uuid, ids)
  }

  /** The state, the row and the two looks belong together. */
  ghost predicate Fits(s: P.State, a: P.App, row: Option<R.Row>, w: R.World, ids: Numbering) {
    && a in s.pending && "" !in ids
    && (row.Some? <==> a in s.rows)
    && (row.Some? ==> SameRow(s.rows[a], row.value, ids) && SeesAll(s.live, s.rows[a].h, w.atAlive))
    && Shows(s.live, w.atAlive, ids) && Shows(s.live, w.atScan, ids)
  }

  /** It can, where the row names the launch and the processes of JARVIS can be opened. */
  lemma OwnProcessesSuffice(s: P.State, a: P.App, snapshot: seq<Process>)
    requires S.HostOk(s) && a in s.rows && S.LaunchedFor(s, a, s.rows[a].h)
    requires forall q :: q in s.live && q.owner.Managed? ==> SeenIn(q, snapshot)
    ensures SeesAll(s.live, s.rows[a].h, snapshot)
  {
    var h := s.rows[a].h;
    assert P.Proc(h.pid, h.ctime, P.Managed(a, h.inst)) in s.past;
  }

  lemma AliveIsSeen(live: set<P.Proc>, h: P.Handle, snapshot: seq<Process>, pid: nat, created: int, q: P.Proc)
    requires SeesAll(live, h, snapshot) && h.pid == pid && h.ctime == created
    requires q in live && P.Matches(q, h)
    ensures exists i :: 0 <= i < |snapshot| && R.IsAlive(snapshot[i], pid, created)
  {
    var i :| 0 <= i < |snapshot| && snapshot[i].readable && SameProcess(q, snapshot[i]);
    assert R.IsAlive(snapshot[i], pid, created);
  }

  lemma SeenIsAlive(live: set<P.Proc>, h: P.Handle, snapshot: seq<Process>, ids: Numbering, pid: nat, created: int,
                    i: nat)
    requires Shows(live, snapshot, ids) && h.pid == pid && h.ctime == created
    requires i < |snapshot| && R.IsAlive(snapshot[i], pid, created)
    ensures exists q :: q in live && P.Matches(q, h)
  {
    assert IsLive(live, snapshot[i], ids);
    var q :| q in live && SameProcess(q, snapshot[i]) && CarriesIdOf(q, snapshot[i], ids);
    assert P.Matches(q, h);
  }

  lemma SameLiveness(s: P.State, a: P.App, row: R.Row, w: R.World, ids: Numbering)
    requires Fits(s, a, Some(row), w, ids)
    ensures R.Alive(w.atAlive, row.pid, row.created) <==> P.IsAlive(s, s.rows[a].h)
  {
    var h := s.rows[a].h;
    if P.IsAlive(s, h) {
      var q :| q in s.live && P.Matches(q, h);
      AliveIsSeen(s.live, h, w.atAlive, row.pid, row.created, q);
    }
    if R.Alive(w.atAlive, row.pid, row.created) {
      var i :| 0 <= i < |w.atAlive| && R.IsAlive(w.atAlive[i], row.pid, row.created);
      SeenIsAlive(s.live, h, w.atAlive, ids, row.pid, row.created, i);
    }
  }

  /** A re-discovered process is a live one of the row's instance id. */
  lemma FoundIsLive(s: P.State, a: P.App, row: R.Row, w: R.World, ids: Numbering) returns (q: P.Proc)
    requires Fits(s, a, Some(row), w, ids) && R.Discovered(a, row.uuid, w).Some?
    ensures q in s.live && q.owner.Managed? && q.owner.inst == s.rows[a].h.inst
    ensures var h := R.Discovered(a, row.uuid, w).value; q.pid == h.pid && q.ctime == h.created
  {
    var matches := Found(w.atScan, AppMarker(a));
    var k := R.FirstIsAMatch(a, matches, row.uuid);
    FoundAreThoseCarrying(w.atScan, AppMarker(a), matches[k]);
    var i :| 0 <= i < |w.atScan| && w.atScan[i] == matches[k];
    assert IsLive(s.live, w.atScan[i], ids);
    q :| q in s.live && SameProcess(q, w.atScan[i]) && CarriesIdOf(q, w.atScan[i], ids);
  }

  /** What the outcome means to the protocol: nothing, a watcher, a corrected row and a watcher, or a stopped row. */
  ghost predicate Means(s: P.State, a: P.App, outcome: R.Outcome, after: P.State, ids: Numbering)
    requires outcome.Attached? || outcome.Adopted? ==> outcome.h.id in ids
  {
    var d := s.(pending := s.pending - {a});
    match outcome
    case Untouched => after == d
    case Failing => after == d
    case MarkedStopped => after == P.MarkState(d, a, Stopped)
    case Attached(h) => h.created >= 0 && after == P.StartWatcher(d, a, P.Handle(h.pid, h.created, ids[h.id]))
    case Adopted(h) =>
      h.created >= 0 && var to := P.Handle(h.pid, h.created, ids[h.id]);
      after == P.StartWatcher(P.UpdateInstance(d, a, to), a, to)
  }

  /** The row of the protocol is the row of the check. */
  predicate SameAfter(after: P.State, a: P.App, row: Option<R.Row>, ids: Numbering) {
    (row.Some? <==> a in after.rows) && (row.Some? ==> SameRow(after.rows[a], row.value, ids))
  }

  /** Every outcome of the detailed check is one of the protocol's step, for the flags and the find it came from. */
  lemma CheckIsStep(s: P.State, a: P.App, row: Option<R.Row>, w: R.World, ids: Numbering)
    returns (found: Option<P.Proc>)
    requires Fits(s, a, row, w, ids)
    ensures found.Some? <==> row.Some? && R.Discovered(a, row.value.uuid, w).Some?
    ensures var step := P.ReconcileApp(a, !w.readFails && !w.aliveFails, found, !w.writeFails);
            var outcome := R.Check(row, a, w);
            && P.Enabled(s, step)
            && (outcome.Attached? || outcome.Adopted? ==> outcome.h.id in ids)
            && Means(s, a, outcome, P.Apply(s, step), ids)
            && SameAfter(P.Apply(s, step), a, R.RowAfter(row, outcome), ids)
  {
    found := None;
    if row.Some? {
      SameLiveness(s, a, row.value, w, ids);
      found := FindIsStep(s, a, row.value, w, ids);
    }
  }

  /** The protocol's process for what the scan finds. */
  lemma FindIsStep(s: P.State, a: P.App, row: R.Row, w: R.World, ids: Numbering) returns (found: Option<P.Proc>)
    requires Fits(s, a, Some(row), w, ids)
    ensures var h := R.Discovered(a, row.uuid, w);
            && (found.Some? <==> h.Some?)
            && (found.Some? ==>
                  && found.value in s.live && found.value.owner.Managed?
                  && found.value.owner.inst == s.rows[a].h.inst && h.value.id == row.uuid
                  && found.value.pid == h.value.pid && found.value.ctime == h.value.created)
  {
    found := None;
    if R.Discovered(a, row.uuid, w).Some? {
      var q := FoundIsLive(s, a, row, w, ids);
      var k := R.FirstIsAMatch(a, Found(w.atScan, AppMarker(a)), row.uuid);
      found := Some(q);
    }
  }
}
