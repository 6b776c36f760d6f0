/** Re-attaching to processes that outlived the supervisor: recycled pids, over-matching searches and failing calls. */
module Reconcile {
  import opened Common
  import opened Markers
  import opened LaunchLine

  type App = string

  /** An instances row; an empty uuid stands for NULL, as it does in the source. */
  datatype Row = Row(state: RowState, pid: nat, created: int, uuid: string)

  datatype Handle = Handle(app: App, id: string, pid: nat, created: int)

  /** What the calls of one check see and which of them fail. Processes may come and go between the two looks. */
  datatype World = World(
    atAlive: seq<Process>, atScan: seq<Process>, readFails: bool, aliveFails: bool, scanFails: bool, writeFails: bool)

  // ----- the calls -----

  /** winproc.Alive. A process that may not be inspected counts as not ours; a creation time of zero matches any. */
  predicate Alive(snapshot: seq<Process>, pid: nat, created: int) {
    pid != 0 && exists i :: 0 <= i < |snapshot| && IsAlive(snapshot[i], pid, created)
  }

  predicate IsAlive(p: Process, pid: nat, created: int) {
    p.pid == pid && p.readable && (created == 0 || p.created == created)
  }

  function HandleFor(app: App, p: Process): Handle {
    Handle(app, Extracted(p.commandLine, INSTANCE_PREFIX), p.pid, p.created)
  }

  method MatchesToHandles(app: App, matches: seq<Process>) returns (handles: seq<Handle>)
    ensures |handles| == |matches|
    ensures forall i :: 0 <= i < |matches| ==> handles[i] == HandleFor(app, matches[i])
  {
    handles := [];
    InstancePrefix();
    for i := 0 to |matches|
      invariant |handles| == i
      invariant forall j :: 0 <= j < i ==> handles[j] == HandleFor(app, matches[j])
    {
      var id := ExtractProperty(matches[i].commandLine, INSTANCE_PROPERTY);
      handles := handles + [Handle(app, id, matches[i].pid, matches[i].created)];
    }
  }

  /** The first match whose instance id is `id`. */
  function FirstWithId(app: App, matches: seq<Process>, id: string): Option<Handle> {
    if matches == [] then None
    else if HandleFor(app, matches[0]).id == id then Some(HandleFor(app, matches[0]))
    else FirstWithId(app, matches[1..], id)
  }

  // ----- one app -----

  datatype Outcome = Untouched | Attached(h: Handle) | Adopted(h: Handle) | MarkedStopped | Failing

  predicate Active(row: Row) {
    row.state in {Running, Starting}
  }

  function Discovered(app: App, id: string, w: World): Option<Handle> {
    if id == "" || w.scanFails then None else FirstWithId(app, Found(w.atScan, AppMarker(app)), id)
  }

  /** What reconcileApp comes to. */
  function Check(row: Option<Row>, app: App, w: World): Outcome {
    if w.readFails then Failing
    else if row.None? || !Active(row.value) then Untouched
    else if w.aliveFails then Failing
    else if Alive(w.atAlive, row.value.pid, row.value.created) then
      Attached(Handle(app, row.value.uuid, row.value.pid, row.value.created))
    else
      match Discovered(app, row.value.uuid, w)
      case Some(h) => if w.writeFails then Failing else Adopted(h)
      case None => if w.writeFails then Failing else MarkedStopped
  }

  function RowAfter(row: Option<Row>, outcome: Outcome): Option<Row> {
    if row.None? then None
    else
      match outcome
      case Adopted(h) => Some(row.value.(pid := h.pid, created := h.created, state := Running))
      case MarkedStopped => Some(row.value.(state := Stopped))
      case _ => row
  }

  function WatchAfter(watch: Option<Handle>, outcome: Outcome): Option<Handle> {
    match outcome
    case Attached(h) => Some(h)
    case Adopted(h) => Some(h)
    case _ => watch
  }

  function Get<T>(m: map<App, T>, app: App): Option<T> {
    if app in m then Some(m[app]) else None
  }

  // ----- the supervisor at startup -----

  /** What of the Supervisor a reconciliation reads and writes. */
  class Reconciler {
    var rows: map<App, Row>
    var watches: map<App, Handle>

    method StartWatcher(app: App, h: Handle)
      modifies this`watches
      ensures watches == old(watches)[app := h]
    {
      watches := watches[app := h];
    }

    method ReconcileApp(app: App, w: World) returns (failed: bool)
      modifies this
      ensures var outcome := Check(Get(old(rows), app), app, w);
              && failed == outcome.Failing?
              && Get(rows, app) == RowAfter(Get(old(rows), app), outcome)
              && Get(watches, app) == WatchAfter(Get(old(watches), app), outcome)
      ensures forall a :: a != app ==> Get(rows, a) == Get(old(rows), a) && Get(watches, a) == Get(old(watches), a)
    {
      if w.readFails {
        return true;
      }
      if app !in rows || rows[app].state !in {Running, Starting} {
        return false;
      }
      var row := rows[app];
      var h := Handle(app, row.uuid, row.pid, row.created);
      if w.aliveFails {
        return true;
      }
      if Alive(w.atAlive, h.pid, h.created) {
        StartWatcher(app, h);
        return false;
      }
      if row.uuid != "" && !w.scanFails {
        var matches := FindByMarker(w.atScan, AppMarker(app));
        var handles := MatchesToHandles(app, matches);
        for i := 0 to |handles|
          invariant FirstWithId(app, matches, row.uuid) == FirstWithId(app, matches[i..], row.uuid)
          invariant rows == old(rows) && watches == old(watches)
        {
          if handles[i].id == row.uuid {
            if w.writeFails {
              return true;
            }
            rows := rows[app := row.(pid := handles[i].pid, created := handles[i].created, state := Running)];
            StartWatcher(app, handles[i]);
            return false;
          }
          assert matches[i..][1..] == matches[i + 1..];
        }
      }
      if w.writeFails {
        return true;
      }
      rows := rows[app := row.(state := Stopped)];
      return false;
    }

    /** Every app in turn; one that fails is logged and passed over. */
    method Reconcile(apps: seq<App>, worlds: map<App, World>, ghost past: set<Process>,
                     ghost launches: map<string, Identity>)
      returns (failed: set<App>)
      requires forall i :: 0 <= i < |apps| ==> apps[i] in worlds
      requires forall i, j :: 0 <= i < j < |apps| ==> apps[i] != apps[j]
      modifies this
      ensures forall a :: a in failed <==> a in apps && Check(Get(old(rows), a), a, worlds[a]).Failing?
      ensures forall a :: a in apps ==>
          Get(rows, a) == RowAfter(Get(old(rows), a), Check(Get(old(rows), a), a, worlds[a]))
      ensures forall a :: a in apps ==>
          Get(watches, a) == WatchAfter(Get(old(watches), a), Check(Get(old(rows), a), a, worlds[a]))
      ensures forall a :: a !in apps ==> Get(rows, a) == Get(old(rows), a) && Get(watches, a) == Get(old(watches), a)
      ensures Sound(past, launches) && (forall a :: a in old(rows) ==> RowOk(old(rows)[a], past, launches))
              && (forall a :: a in apps ==> Seen(worlds[a], past)) ==>
              forall a :: a in apps && a !in failed && a in rows && Active(rows[a]) ==> Settled(a, worlds[a], launches)
    {
      failed := {};
      for i := 0 to |apps|
        invariant forall a :: a in failed <==> a in apps[..i] && Check(Get(old(rows), a), a, worlds[a]).Failing?
        invariant forall a :: a in apps[..i] ==>
            Get(rows, a) == RowAfter(Get(old(rows), a), Check(Get(old(rows), a), a, worlds[a]))
        invariant forall a :: a in apps[..i] ==>
            Get(watches, a) == WatchAfter(Get(old(watches), a), Check(Get(old(rows), a), a, worlds[a]))
        invariant forall a :: a !in apps[..i] ==>
            Get(rows, a) == Get(old(rows), a) && Get(watches, a) == Get(old(watches), a)
      {
        assert apps[..i + 1] == apps[..i] + [apps[i]];
        var fails := ReconcileApp(apps[i], worlds[apps[i]]);
        if fails {
          failed := failed + {apps[i]};
        }
      }
      assert apps[..|apps|] == apps;
      if Sound(past, launches) && (forall a :: a in old(rows) ==> RowOk(old(rows)[a], past, launches))
         && (forall a :: a in apps ==> Seen(worlds[a], past)) {
        forall a | a in apps && a !in failed && a in rows && Active(rows[a])
          ensures Settled(a, worlds[a], launches)
        {
          assert Get(rows, a) == Some(rows[a]);
          assert a in old(rows) && Get(old(rows), a) == Some(old(rows)[a]);
          ReconciledRowsAreWatched(old(rows)[a], a, worlds[a], Get(old(watches), a), past, launches);
        }
      }
    }

    /** The app's row is watched: by a watcher of the live process that was launched for it. */
    ghost predicate Settled(a: App, w: World, launches: map<string, Identity>)
      requires a in rows
      reads this
    {
      && a in watches && rows[a].uuid in launches
      && watches[a] == Handle(a, rows[a].uuid, rows[a].pid, rows[a].created)
      && Identity(watches[a].pid, watches[a].created) == launches[rows[a].uuid]
      && Live(w, watches[a])
    }
  }

  // ----- what was launched -----

  datatype Identity = Identity(pid: nat, created: int)

  function IdentityOf(p: Process): Identity {
    Identity(p.pid, p.created)
  }

  /** The command line Start built for a launch, with no word of an earlier argument beginning like the instance
      marker. */
  ghost predicate Written(commandLine: string, id: string) {
    exists args, after ::
      && commandLine == Line(args) + " " + (InstanceMarker(id) + " " + after)
      && forall i :: 0 <= i < |args| ==> !Claims(args[i])
  }

  /** All processes there ever were. Pids recur, a pid with a creation time does not; a process with the instance
      property is one that was launched here, and each launch is one process. */
  ghost predicate Sound(past: set<Process>, launches: map<string, Identity>) {
    && (forall p :: p in past ==> p.created != 0)
    && (forall p, q :: p in past && q in past && IdentityOf(p) == IdentityOf(q) ==> p == q)
    && (forall id :: id in launches ==> id != "" && Plain(id))
    && (forall p :: p in past ==> Carried(Fields(p.commandLine), INSTANCE_PREFIX).None? || IsLaunch(p, launches))
  }

  ghost predicate IsLaunch(p: Process, launches: map<string, Identity>) {
    exists id :: id in launches && launches[id] == IdentityOf(p) && Written(p.commandLine, id)
  }

  /** An active row names a launch, with a creation time, and no other process ever had the identity it records. */
  ghost predicate RowOk(row: Row, past: set<Process>, launches: map<string, Identity>) {
    Active(row) ==>
      && row.uuid in launches && row.created != 0
      && forall p :: p in past && IdentityOf(p) == Identity(row.pid, row.created) ==>
          IdentityOf(p) == launches[row.uuid]
  }

  predicate Seen(w: World, past: set<Process>) {
    && (forall i :: 0 <= i < |w.atAlive| ==> w.atAlive[i] in past)
    && (forall i :: 0 <= i < |w.atScan| ==> w.atScan[i] in past)
  }

  predicate Live(w: World, h: Handle) {
    || (exists i :: 0 <= i < |w.atAlive| && IsHandleOf(w.atAlive[i], h))
    || (exists i :: 0 <= i < |w.atScan| && IsHandleOf(w.atScan[i], h))
  }

  predicate IsHandleOf(p: Process, h: Handle) {
    p.pid == h.pid && p.created == h.created
  }

  // ----- the theorem -----

  /** The id a launch writes is the id that is read. */
  lemma WrittenIdIsRead(commandLine: string, id: string)
    requires Written(commandLine, id) && id != "" && Plain(id)
    ensures Extracted(commandLine, INSTANCE_PREFIX) == id
  {
    var args, after :| && commandLine == Line(args) + " " + (InstanceMarker(id) + " " + after)
                       && forall i :: 0 <= i < |args| ==> !Claims(args[i]);
    LineCarriesExactly(args);
    ExtractedExactly(Line(args), id, after);
  }

  /** Whatever the search over-matches, the instance id singles out the launch. */
  lemma IdMeansLaunch(p: Process, id: string, past: set<Process>, launches: map<string, Identity>)
    requires Sound(past, launches) && p in past && id in launches
    requires Extracted(p.commandLine, INSTANCE_PREFIX) == id
    ensures launches[id] == IdentityOf(p)
  {
    var launched :| launched in launches && launches[launched] == IdentityOf(p) && Written(p.commandLine, launched);
    WrittenIdIsRead(p.commandLine, launched);
  }

  lemma {:induction false} FirstIsAMatch(app: App, matches: seq<Process>, id: string) returns (k: nat)
    requires FirstWithId(app, matches, id).Some?
    ensures k < |matches| && FirstWithId(app, matches, id) == Some(HandleFor(app, matches[k]))
        && HandleFor(app, matches[k]).id == id
  {
    if HandleFor(app, matches[0]).id == id {
      k := 0;
    } else {
      var n := FirstIsAMatch(app, matches[1..], id);
      k := n + 1;
    }
  }

  /** The process a watcher is attached to is the one launched for the row, and it was there when looked for. */
  lemma AttachedIsLaunched(row: Row, app: App, w: World, past: set<Process>, launches: map<string, Identity>)
    requires Sound(past, launches) && RowOk(row, past, launches) && Seen(w, past)
    ensures var outcome := Check(Some(row), app, w);
            outcome.Attached? || outcome.Adopted? ==>
              && Identity(outcome.h.pid, outcome.h.created) == launches[row.uuid]
              && outcome.h.id == row.uuid && outcome.h.app == app
              && Live(w, outcome.h)
  {
    var outcome := Check(Some(row), app, w);
    if outcome.Attached? {
      var i :| 0 <= i < |w.atAlive| && IsAlive(w.atAlive[i], row.pid, row.created);
      assert IsHandleOf(w.atAlive[i], outcome.h);
    }
    if outcome.Adopted? {
      var matches := Found(w.atScan, AppMarker(app));
      var k := FirstIsAMatch(app, matches, row.uuid);
      FoundAreThoseCarrying(w.atScan, AppMarker(app), matches[k]);
      var i :| 0 <= i < |w.atScan| && w.atScan[i] == matches[k];
      assert IsHandleOf(w.atScan[i], outcome.h);
      IdMeansLaunch(matches[k], row.uuid, past, launches);
    }
  }

  /** After the check of an app that did not fail, its row is active only if a watcher was attached, to the live process
      launched for the row, with the identity the row now records; and the row can be trusted as before. */
  lemma ReconciledRowsAreWatched(row: Row, app: App, w: World, watch: Option<Handle>, past: set<Process>,
                                 launches: map<string, Identity>)
    requires Sound(past, launches) && RowOk(row, past, launches) && Seen(w, past)
    ensures var outcome := Check(Some(row), app, w);
            var after := RowAfter(Some(row), outcome).value;
            && RowOk(after, past, launches)
            && (!outcome.Failing? && Active(after) ==>
                  && WatchAfter(watch, outcome) == Some(Handle(app, row.uuid, after.pid, after.created))
                  && Identity(after.pid, after.created) == launches[row.uuid]
                  && Live(w, WatchAfter(watch, outcome).value))
  {
    AttachedIsLaunched(row, app, w, past, launches);
  }

  // ----- the scan misses nothing -----

  /** A scan for the app shows `p`, and reads the instance id `id` from its command line. */
  predicate Bears(p: Process, app: App, id: string) {
    Carries(p, AppMarker(app)) && Extracted(p.commandLine, INSTANCE_PREFIX) == id
  }

  /** Of the processes that bear the id, the k-th of the snapshot is the first. */
  predicate FirstBearer(snapshot: seq<Process>, app: App, id: string, k: nat) {
    k < |snapshot| && Bears(snapshot[k], app, id) && forall i :: 0 <= i < k ==> !Bears(snapshot[i], app, id)
  }

  predicate NoneBears(snapshot: seq<Process>, app: App, id: string) {
    forall i :: 0 <= i < |snapshot| ==> !Bears(snapshot[i], app, id)
  }

  lemma {:induction false} FirstOfConcat(app: App, a: seq<Process>, b: seq<Process>, id: string)
    ensures FirstWithId(app, a + b, id)
         == if FirstWithId(app, a, id).Some? then FirstWithId(app, a, id) else FirstWithId(app, b, id)
  {
    if a == [] {
      assert a + b == b;
    } else {
      assert (a + b)[1..] == a[1..] + b;
      FirstOfConcat(app, a[1..], b, id);
    }
  }

  lemma {:induction false} DiscoveryIsComplete(app: App, snapshot: seq<Process>, id: string)
    ensures var found := FirstWithId(app, Found(snapshot, AppMarker(app)), id);
            if found.None? then NoneBears(snapshot, app, id)
            else exists k: nat :: FirstBearer(snapshot, app, id, k) && found.value == HandleFor(app, snapshot[k])
    decreases |snapshot|
  {
    if snapshot != [] {
      var n := |snapshot| - 1;
      var front, last := snapshot[..n], snapshot[n];
      DiscoveryIsComplete(app, front, id);
      var before := FirstWithId(app, Found(front, AppMarker(app)), id);
      if Carries(last, AppMarker(app)) {
        FirstOfConcat(app, Found(front, AppMarker(app)), [last], id);
      }
      if before.Some? {
        var k: nat :| FirstBearer(front, app, id, k) && before.value == HandleFor(app, front[k]);
        assert FirstBearer(snapshot, app, id, k);
      } else if Bears(last, app, id) {
        assert FirstBearer(snapshot, app, id, n);
      }
    }
  }

  /** The liveness look shows a process of the recorded identity. */
  predicate ShownAlive(w: World, row: Row) {
    row.pid != 0 && exists i :: 0 <= i < |w.atAlive| && IsAlive(w.atAlive[i], row.pid, row.created)
  }

  /** An active row whose process is not seen alive, but whose instance id some process of the scan bears, ends RUNNING,
      recorded and watched as the first such process. */
  lemma BearerIsAdopted(row: Row, app: App, w: World, watch: Option<Handle>)
    requires Active(row) && row.uuid != "" && !ShownAlive(w, row) && !NoneBears(w.atScan, app, row.uuid)
    requires !w.readFails && !w.aliveFails && !w.scanFails && !w.writeFails
    ensures exists k: nat ::
              && FirstBearer(w.atScan, app, row.uuid, k)
              && var p, outcome := w.atScan[k], Check(Some(row), app, w);
                 && RowAfter(Some(row), outcome) == Some(Row(Running, p.pid, p.created, row.uuid))
                 && WatchAfter(watch, outcome) == Some(Handle(app, row.uuid, p.pid, p.created))
  {
    DiscoveryIsComplete(app, w.atScan, row.uuid);
    var k: nat :| FirstBearer(w.atScan, app, row.uuid, k)
                  && Discovered(app, row.uuid, w).value == HandleFor(app, w.atScan[k]);
  }

  /** An active row is marked stopped exactly if neither look shows its process, or the scan could not look. */
  lemma StoppedExactly(row: Row, app: App, w: World)
    requires Active(row) && !w.readFails && !w.aliveFails && !w.writeFails
    ensures RowAfter(Some(row), Check(Some(row), app, w)).value.state == Stopped
       <==> !ShownAlive(w, row) && (row.uuid == "" || w.scanFails || NoneBears(w.atScan, app, row.uuid))
  {
    DiscoveryIsComplete(app, w.atScan, row.uuid);
  }

  /** The check fails exactly on calls that fail where they matter; a failed scan only finds nothing. A failure, and an
      app that is not active, leave the row and the watcher as they were. */
  lemma FailsExactly(row: Option<Row>, app: App, w: World, watch: Option<Handle>)
    ensures var outcome := Check(row, app, w);
            && (outcome.Failing? <==>
                  || w.readFails
                  || (row.Some? && row.value.state in {Running, Starting}
                      && (w.aliveFails || (w.writeFails && !ShownAlive(w, row.value)))))
            && (outcome.Failing? || row.None? || row.value.state !in {Running, Starting} ==>
                  RowAfter(row, outcome) == row && WatchAfter(watch, outcome) == watch)
  {
    if row.Some? {
      assert Alive(w.atAlive, row.value.pid, row.value.created) <==> ShownAlive(w, row.value);
    }
  }

  /** In particular it is not while the scan shows the process that was launched for it. */
  lemma LaunchIsNotStopped(row: Row, app: App, w: World, p: Process)
    requires Active(row) && row.uuid != "" && Plain(row.uuid)
    requires !w.readFails && !w.aliveFails && !w.scanFails && !w.writeFails
    requires p in w.atScan && Carries(p, AppMarker(app)) && Written(p.commandLine, row.uuid)
    ensures var outcome := Check(Some(row), app, w);
            Active(RowAfter(Some(row), outcome).value) && (outcome.Attached? || outcome.Adopted?)
  {
    WrittenIdIsRead(p.commandLine, row.uuid);
    var i :| 0 <= i < |w.atScan| && w.atScan[i] == p;
    assert Bears(w.atScan[i], app, row.uuid);
    StoppedExactly(row, app, w);
  }

  // ----- why creation times are recorded -----

  /** Why creation times must be recorded: with a zero one, whatever process has the pid now is taken for the app's. */
  lemma ZeroTimeTakesStranger(row: Row, app: App, stranger: Process, w: World)
    requires Active(row) && row.created == 0 && row.pid == stranger.pid != 0 && stranger.readable
    requires !w.readFails && !w.aliveFails && w.atAlive == [stranger]
    ensures Check(Some(row), app, w) == Attached(Handle(app, row.uuid, stranger.pid, 0))
  {
    assert IsAlive(w.atAlive[0], row.pid, row.created);
  }

  predicate IsProcessOf(p: Process, row: Row) {
    p.readable && IdentityOf(p) == Identity(row.pid, row.created)
  }

  /** Recorded, exactly the process with that time is taken. */
  lemma AttachedExactly(row: Row, app: App, w: World)
    requires Active(row) && row.created != 0 && !w.readFails && !w.aliveFails
    ensures Check(Some(row), app, w).Attached?
        <==> row.pid != 0 && exists i :: 0 <= i < |w.atAlive| && IsProcessOf(w.atAlive[i], row)
  {
    if row.pid != 0 && exists i :: 0 <= i < |w.atAlive| && IsProcessOf(w.atAlive[i], row) {
      var i :| 0 <= i < |w.atAlive| && IsProcessOf(w.atAlive[i], row);
      assert IsAlive(w.atAlive[i], row.pid, row.created);
    }
    if Alive(w.atAlive, row.pid, row.created) {
      var i :| 0 <= i < |w.atAlive| && IsAlive(w.atAlive[i], row.pid, row.created);
      assert IsProcessOf(w.atAlive[i], row);
    }
  }
}
