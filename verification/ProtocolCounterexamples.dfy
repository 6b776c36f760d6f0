/** Why the guards on commands, shutdowns and restarts are there: for each of the eight, a run that respects all other
    guards and ends with two live processes of one app. */
module ProtocolCounterexamples {
  import opened Common
  import opened Protocol
  import opened ProtocolSafety

  datatype Waiver =
    | OverlappingStarts | StartDuringStop | StartBeforeReturn | StartAfterShutdown  // when a start begins
    | StopDuringStart | CancelInWindow                                              // when a stop begins
    | ShutdownInWindow | RestartBeforeInsert

  /** The threads of its app a StartApp call may meet when it begins; the guard itself tolerates only the first kind. */
  predicate Tolerated(th: Thread, w: Waiver) {
    || Uncancelled(th)
    || (w.OverlappingStarts? && th.Starter?)
    || (w.StartDuringStop? && th.Stopper?)
    || (w.StartBeforeReturn? && th.Watcher?)
  }

  /** What a step may do once one guard is waived. */
  ghost predicate Waived(s: State, step: Step, w: Waiver)
    requires Enabled(s, step)
  {
    match step
    case BeginStart(a) =>
      && (s.shutdown ==> w.StartAfterShutdown?)
      && forall t :: t in s.threads && s.threads[t].app == a ==> Tolerated(s.threads[t], w)
    case BeginStop(a) =>
      forall t :: t in s.threads && s.threads[t].app == a ==>
        (s.threads[t].Starter? ==> w.StopDuringStart?) && (InWindow(s.threads[t]) ==> w.CancelInWindow?)
    case Shutdown => w.ShutdownInWindow?
    case Restart => w.RestartBeforeInsert?
    // the insert runs on the watcher's context, so it fails once that is cancelled
    case OfWatch(t, RelaunchRecorded(ok)) => (w.CancelInWindow? || w.ShutdownInWindow?) && s.threads[t].cancelled
    case _ => false
  }

  ghost predicate RunWaiving(s: State, steps: seq<Step>, w: Waiver)
    decreases |steps|
  {
    steps != [] ==>
      && Enabled(s, steps[0])
      && (Guarded(s, steps[0]) || Waived(s, steps[0], w))
      && RunWaiving(Apply(s, steps[0]), steps[1..], w)
  }

  lemma {:induction false} WaivingIsRun(s: State, steps: seq<Step>, w: Waiver)
    requires RunWaiving(s, steps, w)
    ensures Run(s, steps)
    decreases |steps|
  {
    if steps != [] {
      WaivingIsRun(Apply(s, steps[0]), steps[1..], w);
    }
  }

  ghost predicate TwoLive(s: State, a: App) {
    exists p, q :: p in s.live && q in s.live && p != q && IsOf(p, a) && IsOf(q, a)
  }

  /** `s` can be reached from a fresh installation by a run that respects every guard but `w`. */
  ghost predicate Reachable(s: State, w: Waiver) {
    exists s0, steps :: Init(s0) && RunWaiving(s0, steps, w) && Run(s0, steps) && Exec(s0, steps) == s
  }

  lemma {:induction false} RunAppend(s: State, steps: seq<Step>, step: Step, w: Waiver)
    requires RunWaiving(s, steps, w) && Run(s, steps)
    requires Enabled(Exec(s, steps), step)
    requires Guarded(Exec(s, steps), step) || Waived(Exec(s, steps), step, w)
    ensures RunWaiving(s, steps + [step], w) && Run(s, steps + [step])
    ensures Exec(s, steps + [step]) == Apply(Exec(s, steps), step)
    decreases |steps|
  {
    if steps == [] {
      assert steps + [step] == [step] && [step][1..] == [];
    } else {
      RunAppend(Apply(s, steps[0]), steps[1..], step, w);
      assert (steps + [step])[1..] == steps[1..] + [step];
    }
  }

  lemma Go(s: State, step: Step, w: Waiver)
    requires Reachable(s, w) && Enabled(s, step) && (Guarded(s, step) || Waived(s, step, w))
    ensures Reachable(Apply(s, step), w)
  {
    var s0, steps :| Init(s0) && RunWaiving(s0, steps, w) && Run(s0, steps) && Exec(s0, steps) == s;
    RunAppend(s0, steps, step, w);
  }

  // ----- building runs -----

  lemma GoStart(s: State, t: Tid, step: StartStep, s': State, w: Waiver)
    requires Reachable(s, w) && StartEnabled(s, t, step) && StartGuard(s, t, step)
    requires ApplyStart(s, t, step) == s'
    ensures Reachable(s', w)
  {
    Go(s, OfStart(t, step), w);
  }

  lemma GoStop(s: State, t: Tid, step: StopStep, s': State, w: Waiver)
    requires Reachable(s, w) && StopEnabled(s, t, step) && StopGuard(s, t, step)
    requires ApplyStop(s, t, step) == s'
    ensures Reachable(s', w)
  {
    Go(s, OfStop(t, step), w);
  }

  function At(s: State, t: Tid, pc: WatchPc): State
    requires WatcherAt(s, t)
  {
    s.(threads := s.threads[t := s.threads[t].(pc := pc)])
  }

  /** One step of watcher `t` that only moves its program counter from `pc` to `pc'`; the rest of the state is that of
      `s`. */
  lemma GoWatch(s: State, t: Tid, pc: WatchPc, step: WatchStep, pc': WatchPc, w: Waiver)
    requires WatcherAt(s, t) && Reachable(At(s, t, pc), w) && WatchEnabled(At(s, t, pc), t, step) && WatchGuard(step)
    requires var th := s.threads[t]; var e := WatchEffect(th.(pc := pc), Lookup(s.rows, th.app),
                                                          Lookup(s.policies, th.app), step);
             e == Becomes(th.(pc := pc'))
    ensures Reachable(At(s, t, pc'), w)
  {
    var s1 := At(s, t, pc);
    Go(s1, OfWatch(t, step), w);
    assert s1.live - {} + {} == s1.live && s1.past + {} == s1.past;
    assert s1.threads[t := s1.threads[t].(pc := pc')] == At(s, t, pc').threads;
  }

  /** buildLaunchSpec succeeds from read number `stage` on. */
  lemma {:induction false} Builds(s: State, t: Tid, stage: nat, c: nat, w: Waiver)
    requires stage <= LAST_CHECKED_READ && WatcherAt(s, t) && !s.threads[t].cancelled
    requires Reachable(At(s, t, Building(stage, c)), w)
    ensures Reachable(At(s, t, Launching(c)), w)
    decreases LAST_CHECKED_READ - stage
  {
    if stage == LAST_CHECKED_READ {
      GoWatch(s, t, Building(stage, c), BuildRead(true), Launching(c), w);
    } else {
      GoWatch(s, t, Building(stage, c), BuildRead(true), Building(stage + 1, c), w);
      Builds(s, t, stage + 1, c, w);
    }
  }

  /** The watchdog reacts to an exit, up to writing STARTING. */
  lemma ExitSeen(s: State, t: Tid, w: Waiver)
    requires Reachable(s, w) && WatcherAt(s, t) && !s.threads[t].cancelled && s.threads[t].pc.Waiting?
    requires Gone(s, s.threads[t].pc.h) && s.threads[t].app in s.rows && s.threads[t].app in s.policies
    requires s.policies[s.threads[t].app].watchdog
        && s.rows[s.threads[t].app].restarts < s.policies[s.threads[t].app].maxRestarts
    ensures Reachable(At(s, t, Marking(s.rows[s.threads[t].app].restarts)), w)
  {
    var th := s.threads[t];
    var max := s.policies[th.app].maxRestarts;
    assert At(s, t, th.pc) == s;
    GoWatch(s, t, th.pc, WaitReturns(false), Exited, w);
    GoWatch(s, t, Exited, PolicyRead(true), Counting(max), w);
    GoWatch(s, t, Counting(max), CountRead(true), Marking(s.rows[th.app].restarts), w);
  }

  lemma MarksStarting(s: State, t: Tid, c: nat, w: Waiver)
    requires WatcherAt(s, t) && s.threads[t].app in s.rows && Reachable(At(s, t, Marking(c)), w)
    ensures Reachable(At(MarkState(s, s.threads[t].app, Starting), t, Backoff(c)), w)
  {
    var s1 := At(s, t, Marking(c));
    var s2 := At(MarkState(s, s.threads[t].app, Starting), t, Backoff(c));
    Go(s1, OfWatch(t, StartingMarked(true)), w);
    assert s1.live - {} + {} == s1.live && s1.past + {} == s1.past;
    assert s1.threads[t := s1.threads[t].(pc := Backoff(c))] == s2.threads;
    assert Apply(s1, OfWatch(t, StartingMarked(true))) == s2;
  }

  /** From an exit to the last instant before the relaunch. */
  lemma ExitReachesLaunch(s: State, t: Tid, c: nat, w: Waiver)
    requires Reachable(s, w) && WatcherAt(s, t) && !s.threads[t].cancelled && s.threads[t].pc.Waiting?
    requires Gone(s, s.threads[t].pc.h) && s.threads[t].app in s.rows && s.threads[t].app in s.policies
    requires s.policies[s.threads[t].app].watchdog
        && s.rows[s.threads[t].app].restarts < s.policies[s.threads[t].app].maxRestarts
    requires c == s.rows[s.threads[t].app].restarts
    ensures Reachable(At(MarkState(s, s.threads[t].app, Starting), t, Launching(c)), w)
  {
    ExitSeen(s, t, w);
    MarksStarting(s, t, c, w);
    var m := MarkState(s, s.threads[t].app, Starting);
    GoWatch(m, t, Backoff(c), BackoffEnds(false), Building(0, c), w);
    Builds(m, t, 0, c, w);
  }

  /** The relaunch itself. */
  function Relaunching(s: State, t: Tid, c: nat, p: Proc): State
    requires WatcherAt(s, t) && p.owner.Managed?
  {
    At(s, t, Inserting(HandleOf(p), c)).(live := s.live + {p}, past := s.past + {p},
                                          log := s.log + [WatchdogLaunch(s.threads[t].app)])
  }

  lemma WatchdogRelaunches(s: State, t: Tid, c: nat, p: Proc, w: Waiver)
    requires WatcherAt(s, t) && Reachable(At(s, t, Launching(c)), w) && Fresh(s, p) && IsOf(p, s.threads[t].app)
    ensures Reachable(Relaunching(s, t, c, p), w)
  {
    RelaunchingState(s, t, c, p);
    Go(At(s, t, Launching(c)), OfWatch(t, Relaunch(Launched(p))), w);
  }

  lemma RelaunchingState(s: State, t: Tid, c: nat, p: Proc)
    requires WatcherAt(s, t) && Fresh(s, p) && IsOf(p, s.threads[t].app)
    ensures WatchEnabled(At(s, t, Launching(c)), t, Relaunch(Launched(p)))
    ensures ApplyWatch(At(s, t, Launching(c)), t, Relaunch(Launched(p))) == Relaunching(s, t, c, p)
  {
    var s1, s2 := At(s, t, Launching(c)), Relaunching(s, t, c, p);
    assert s.live - {} + {p} == s2.live;
    assert s1.threads[t := s1.threads[t].(pc := Inserting(HandleOf(p), c))] == s2.threads;
  }

  ghost predicate MayBegin(s: State, a: App, w: Waiver) {
    && s.pending == {} && a !in s.watches && a in s.policies && s.nextTid !in s.threads
    && (s.shutdown ==> w.StartAfterShutdown?)
    && forall t :: t in s.threads && s.threads[t].app == a ==> Tolerated(s.threads[t], w)
  }

  /** A StartApp call at each of its stages, on top of `s`. */
  function StartAt(s: State, a: App, spc: StartPc): State {
    WithThread(s, Starter(a, spc), s.watches)
  }

  function WithProc(s: State, a: App, p: Proc): State {
    s.(live := s.live + {p}, past := s.past + {p}, log := s.log + [OperatorLaunch(a)])
  }

  function WithRow(s: State, a: App, p: Proc): State
    requires IsOf(p, a)
  {
    s.(rows := s.rows[a := Row(Running, HandleOf(p), 0)])
  }

  lemma Begin(s: State, a: App, w: Waiver)
    requires Reachable(s, w) && MayBegin(s, a, w)
    ensures Reachable(StartAt(s, a, SBuild), w)
  {
    Go(s, BeginStart(a), w);
  }

  lemma SpecIsBuilt(s: State, a: App, w: Waiver)
    requires Reachable(StartAt(s, a, SBuild), w) && a in s.policies
    ensures Reachable(StartAt(s, a, SLaunch), w)
  {
    var s1 := StartAt(s, a, SBuild);
    assert s.live - {} + {} == s.live && s.past + {} == s.past;
    assert s1.threads[s.nextTid := Starter(a, SLaunch)] == StartAt(s, a, SLaunch).threads;
    GoStart(s1, s.nextTid, Spec(true), StartAt(s, a, SLaunch), w);
  }

  lemma ProcessStarts(s: State, a: App, p: Proc, w: Waiver)
    requires Reachable(StartAt(s, a, SLaunch), w) && Fresh(s, p) && IsOf(p, a)
    ensures Reachable(WithProc(StartAt(s, a, SInsert(HandleOf(p))), a, p), w)
  {
    var s1 := StartAt(s, a, SLaunch);
    var s2 := WithProc(StartAt(s, a, SInsert(HandleOf(p))), a, p);
    assert s.live - {} + {p} == s.live + {p};
    assert s1.threads[s.nextTid := Starter(a, SInsert(HandleOf(p)))] == s2.threads;
    GoStart(s1, s.nextTid, Launch(Launched(p)), s2, w);
  }

  /** A StartApp call up to its new process, wherever the guards or the waiver let it begin. */
  lemma StartLaunches(s: State, a: App, p: Proc, w: Waiver)
    requires Reachable(s, w) && MayBegin(s, a, w) && Fresh(s, p) && IsOf(p, a)
    ensures Reachable(WithProc(StartAt(s, a, SInsert(HandleOf(p))), a, p), w)
  {
    Begin(s, a, w);
    SpecIsBuilt(s, a, w);
    ProcessStarts(s, a, p, w);
  }

  lemma RowIsInserted(s: State, a: App, p: Proc, w: Waiver)
    requires IsOf(p, a) && Reachable(WithProc(StartAt(s, a, SInsert(HandleOf(p))), a, p), w)
    ensures Reachable(WithRow(WithProc(StartAt(s, a, SRegister(HandleOf(p))), a, p), a, p), w)
  {
    var s1 := WithProc(StartAt(s, a, SInsert(HandleOf(p))), a, p);
    var s2 := WithRow(WithProc(StartAt(s, a, SRegister(HandleOf(p))), a, p), a, p);
    assert s1.live - {} + {} == s1.live && s1.past + {} == s1.past;
    assert s1.threads[s.nextTid := Starter(a, SRegister(HandleOf(p)))] == s2.threads;
    GoStart(s1, s.nextTid, Insert(true), s2, w);
  }

  /** startWatcher and the end of the StartApp call in thread `t`. */
  function Registered(s: State, t: Tid): State
    requires StarterAt(s, t) && s.threads[t].spc.SRegister?
  {
    var a := s.threads[t].app;
    s.(threads := s.threads[s.nextTid := Watcher(a, false, Waiting(s.threads[t].spc.h))] - {t},
       watches := s.watches[a := s.nextTid], nextTid := s.nextTid + 1)
  }

  lemma WatcherIsRegistered(s: State, t: Tid, w: Waiver)
    requires Reachable(s, w) && StarterAt(s, t) && s.threads[t].spc.SRegister?
    requires s.nextTid !in s.threads && s.threads[t].app !in s.watches && !s.shutdown
    ensures Reachable(Registered(s, t), w)
  {
    assert s.live - {} + {} == s.live && s.past + {} == s.past;
    GoStart(s, t, Register, Registered(s, t), w);
  }

  /** After a shutdown startWatcher does nothing, and the call ends. */
  lemma NothingIsRegistered(s: State, t: Tid, w: Waiver)
    requires Reachable(s, w) && StarterAt(s, t) && s.threads[t].spc.SRegister? && s.shutdown
    ensures Reachable(s.(threads := s.threads - {t}), w)
  {
    assert s.live - {} + {} == s.live && s.past + {} == s.past;
    GoStart(s, t, Register, s.(threads := s.threads - {t}), w);
  }

  /** StopApp just after cancelWatcher reached watcher `t`. */
  function Stopping(s: State, t: Tid): State
    requires WatcherAt(s, t)
  {
    s.(threads := s.threads[t := s.threads[t].(cancelled := true)][s.nextTid := Stopper(s.threads[t].app, TRead)],
       watches := s.watches - {s.threads[t].app}, nextTid := s.nextTid + 1)
  }

  ghost predicate MayStop(s: State, a: App, w: Waiver) {
    && s.pending == {}
    && forall t :: t in s.threads && s.threads[t].app == a ==>
         (s.threads[t].Starter? ==> w.StopDuringStart?) && (InWindow(s.threads[t]) ==> w.CancelInWindow?)
  }

  lemma StopBegins(s: State, t: Tid, w: Waiver)
    requires Reachable(s, w) && WatcherAt(s, t) && s.threads[t].app in s.watches && s.watches[s.threads[t].app] == t
    requires MayStop(s, s.threads[t].app, w)
    ensures Reachable(Stopping(s, t), w)
  {
    Go(s, BeginStop(s.threads[t].app), w);
  }

  /** Read, kill: process `p` of the row is stopped by the StopApp call in thread `t`. */
  lemma StopKills(s: State, t: Tid, p: Proc, w: Waiver)
    requires Reachable(s, w) && StopperAt(s, t) && s.threads[t].tpc.TRead? && RowActive(s, s.threads[t].app)
    requires s.live == {p} && p.owner.Managed? && s.rows[s.threads[t].app].h == HandleOf(p) && p.pid > 0
    ensures Reachable(s.(threads := s.threads[t := Stopper(s.threads[t].app, TMark)], live := {}), w)
  {
    var a := s.threads[t].app;
    var s1 := s.(threads := s.threads[t := Stopper(a, TKill(HandleOf(p)))]);
    assert s.live - {} + {} == s.live && s.past + {} == s.past;
    GoStop(s, t, Read(true), s1, w);
    var s2 := s.(threads := s.threads[t := Stopper(a, TMark)], live := {});
    assert Matches(p, HandleOf(p));
    assert s1.live - (set q | q in s1.live && Matches(q, HandleOf(p))) + {} == {};
    assert s1.threads[t := Stopper(a, TMark)] == s2.threads;
    GoStop(s1, t, Kill(true), s2, w);
  }

  lemma StopMarks(s: State, t: Tid, w: Waiver)
    requires Reachable(s, w) && StopperAt(s, t) && s.threads[t].tpc.TMark?
    ensures Reachable(MarkState(s.(threads := s.threads - {t}), s.threads[t].app, Stopped), w)
  {
    assert s.live - {} + {} == s.live && s.past + {} == s.past;
    GoStop(s, t, Mark(true), MarkState(s.(threads := s.threads - {t}), s.threads[t].app, Stopped), w);
  }

  /** A cancelled watcher that waits returns, and takes the name's entry with it. */
  lemma CancelledReturns(s: State, t: Tid, w: Waiver)
    requires Reachable(s, w) && WatcherAt(s, t) && s.threads[t].cancelled && s.threads[t].pc.Waiting?
    ensures Reachable(s.(threads := s.threads - {t}, watches := s.watches - {s.threads[t].app}), w)
  {
    assert At(s, t, s.threads[t].pc) == s;
    GoWatch(s, t, s.threads[t].pc, WaitReturns(false), Returning, w);
    WatcherLeaves(s, t, w);
  }

  lemma WatcherLeaves(s: State, t: Tid, w: Waiver)
    requires WatcherAt(s, t) && Reachable(At(s, t, Returning), w)
    ensures Reachable(s.(threads := s.threads - {t}, watches := s.watches - {s.threads[t].app}), w)
  {
    var s1 := At(s, t, Returning);
    Go(s1, OfWatch(t, Leave), w);
    assert s1.live - {} + {} == s1.live && s1.past + {} == s1.past;
    assert s1.threads - {t} == s.threads - {t};
    assert Apply(s1, OfWatch(t, Leave)) == s.(threads := s.threads - {t}, watches := s.watches - {s.threads[t].app});
  }

  /** The state after a complete StartApp call that nothing interrupts. */
  function AfterStart(s: State, a: App, p: Proc): State
    requires IsOf(p, a)
  {
    var t := s.nextTid + 1;
    s.(threads := s.threads[t := Watcher(a, false, Waiting(HandleOf(p)))], watches := s.watches[a := t],
       nextTid := t + 1,
       rows := s.rows[a := Row(Running, HandleOf(p), 0)],
       live := s.live + {p}, past := s.past + {p}, log := s.log + [OperatorLaunch(a)])
  }

  lemma StartCompletes(s: State, a: App, p: Proc, w: Waiver)
    requires Reachable(s, w) && MayBegin(s, a, w) && s.nextTid + 1 !in s.threads && Fresh(s, p) && IsOf(p, a)
    requires !s.shutdown
    ensures Reachable(AfterStart(s, a, p), w)
  {
    StartLaunches(s, a, p, w);
    RowIsInserted(s, a, p, w);
    StartReturns(s, a, p, w);
  }

  lemma StartReturns(s: State, a: App, p: Proc, w: Waiver)
    requires s.nextTid !in s.threads && s.nextTid + 1 !in s.threads && a !in s.watches && !s.shutdown && IsOf(p, a)
    requires Reachable(WithRow(WithProc(StartAt(s, a, SRegister(HandleOf(p))), a, p), a, p), w)
    ensures Reachable(AfterStart(s, a, p), w)
  {
    RegisteredState(s, a, p);
    WatcherIsRegistered(WithRow(WithProc(StartAt(s, a, SRegister(HandleOf(p))), a, p), a, p), s.nextTid, w);
  }

  lemma RegisteredState(s: State, a: App, p: Proc)
    requires s.nextTid !in s.threads && s.nextTid + 1 !in s.threads && IsOf(p, a)
    ensures Registered(WithRow(WithProc(StartAt(s, a, SRegister(HandleOf(p))), a, p), a, p), s.nextTid)
         == AfterStart(s, a, p)
  {
    var r := WithRow(WithProc(StartAt(s, a, SRegister(HandleOf(p))), a, p), a, p);
    assert Registered(r, s.nextTid).threads == AfterStart(s, a, p).threads;
  }

  // ----- the runs -----

  const A: App := "a"
  const POLICIES := map[A := Policy(true, 5)]

  function P(n: nat): Proc { Proc(n + 5, n + 1, Managed(A, n)) }

  function H(n: nat): Handle { HandleOf(P(n)) }

  const BOOTED: State := State(map[], false, {}, map[], POLICIES, map[], 0, {}, {}, [])

  lemma BootedIsReachable(w: Waiver)
    ensures Reachable(BOOTED, w)
  {
    var first := BOOTED.(pending := {A});
    assert first.pending == POLICIES.Keys;
    assert Init(first) && RunWaiving(first, [], w) && Run(first, []) && Exec(first, []) == first;
    Go(first, ReconcileApp(A, true, None, true), w);
    assert Apply(first, ReconcileApp(A, true, None, true)) == BOOTED;
  }

  /** One app, running: watcher 1 waits on process 0. */
  const UP: State := State(map[A := 1], false, {}, map[A := Row(Running, H(0), 0)], POLICIES,
                    map[1 := Watcher(A, false, Waiting(H(0)))], 2, {P(0)}, {P(0)}, [OperatorLaunch(A)])

  lemma UpIsReachable(w: Waiver)
    ensures Reachable(UP, w)
  {
    BootedIsReachable(w);
    StartCompletes(BOOTED, A, P(0), w);
    assert AfterStart(BOOTED, A, P(0)) == UP;
  }

  /** Two StartApp calls that overlap both pass the check of `watches`. */
  lemma OverlappingStartsLaunchTwice()
    ensures exists s :: Reachable(s, OverlappingStarts) && TwoLive(s, A)
  {
    var w := OverlappingStarts;
    BootedIsReachable(w);
    StartLaunches(BOOTED, A, P(0), w);
    LaunchesBeside(WithProc(StartAt(BOOTED, A, SInsert(H(0))), A, P(0)), 0, 1, w);
  }

  /** Process i is live when a start is let through, which launches process j. */
  lemma LaunchesBeside(s: State, i: nat, j: nat, w: Waiver)
    requires Reachable(s, w) && MayBegin(s, A, w) && P(i) in s.live && Fresh(s, P(j))
    ensures exists s' :: Reachable(s', w) && TwoLive(s', A)
  {
    StartLaunches(s, A, P(j), w);
    var s' := WithProc(StartAt(s, A, SInsert(H(j))), A, P(j));
    assert P(i) in s'.live && P(j) in s'.live && P(i) != P(j);
    assert TwoLive(s', A);
  }

  /** JARVIS starts again and reconciles its one app, whose row is not active or names a process that is gone. */
  function Rebooted(s: State): State {
    (if RowActive(s, A) then MarkState(s, A, Stopped) else s).(watches := map[], threads := map[], shutdown := false)
  }

  lemma Reboots(s: State, w: Waiver)
    requires Reachable(s, w) && s.policies == POLICIES && s.pending == {}
    requires w.RestartBeforeInsert? || forall t :: t in s.threads ==> !AwaitsInsert(s.threads[t])
    requires RowActive(s, A) ==> !IsAlive(s, s.rows[A].h)
    ensures Reachable(Rebooted(s), w)
  {
    var r := s.(watches := map[], threads := map[], shutdown := false, pending := {A});
    Go(s, Restart, w);
    assert POLICIES.Keys == {A};
    assert Apply(s, Restart) == r;
    ReconcileState(s, r);
    Go(r, ReconcileApp(A, true, None, true), w);
  }

  lemma ReconcileState(s: State, r: State)
    requires r == s.(watches := map[], threads := map[], shutdown := false, pending := {A}) && s.pending == {}
    requires RowActive(s, A) ==> !IsAlive(s, s.rows[A].h)
    ensures AfterReconcile(r, A, true, None, true) == Rebooted(s)
  {
    assert r.pending - {A} == {};
    assert RowActive(s, A) ==> !IsAlive(r, s.rows[A].h);
  }

  /** cancelWatcher takes the entry away before the process is stopped, so a start in the grace period is let
      through. */
  lemma StartDuringStopLaunchesTwice()
    ensures exists s :: Reachable(s, StartDuringStop) && TwoLive(s, A)
  {
    var w := StartDuringStop;
    UpIsReachable(w);
    StopBegins(UP, 1, w);
    CancelledReturns(Stopping(UP, 1), 1, w);
    GraceState();
    LaunchesBeside(GRACE, 0, 1, w);
  }

  /** The stop has cancelled the watcher, which has returned, and has not asked the process to end yet. */
  const GRACE: State := UP.(threads := map[2 := Stopper(A, TRead)], watches := map[], nextTid := 3)

  lemma GraceState()
    ensures var s := Stopping(UP, 1); s.(threads := s.threads - {1}, watches := s.watches - {A}) == GRACE
  {
  }

  const LATE_WATCHER: Thread := Watcher(A, true, Waiting(H(0)))

  /** The app was stopped, but its watcher has not returned yet. */
  const STOPPED_LATE: State := State(map[], false, {}, map[A := Row(Stopped, H(0), 0)], POLICIES,
                             map[1 := LATE_WATCHER], 3, {}, {P(0)}, [OperatorLaunch(A)])

  lemma StoppedLateIsReachable(w: Waiver)
    ensures Reachable(STOPPED_LATE, w)
  {
    UpIsReachable(w);
    StopBegins(UP, 1, w);
    StopOfUpState();
    StopKills(STOP_OF_UP, 2, P(0), w);
    KilledState();
    StopMarks(KILLED_LATE, 2, w);
    StoppedLateState();
  }

  const STOP_OF_UP: State :=
      UP.(watches := map[], threads := map[1 := LATE_WATCHER, 2 := Stopper(A, TRead)], nextTid := 3)

  lemma StopOfUpState()
    ensures Stopping(UP, 1) == STOP_OF_UP
  {
  }

  const KILLED_LATE: State := STOPPED_LATE.(rows := UP.rows, threads := map[1 := LATE_WATCHER, 2 := Stopper(A, TMark)])

  lemma KilledState()
    ensures STOP_OF_UP.(threads := STOP_OF_UP.threads[2 := Stopper(A, TMark)], live := {}) == KILLED_LATE
  {
  }

  lemma StoppedLateState()
    ensures MarkState(KILLED_LATE.(threads := KILLED_LATE.threads - {2}), A, Stopped) == STOPPED_LATE
  {
    assert KILLED_LATE.threads - {2} == STOPPED_LATE.threads;
  }

  /** A start before the late watcher returns: watcher 4 waits on process 1 and is registered. */
  const RESTARTED: State := STOPPED_LATE.(
    threads := map[1 := LATE_WATCHER, 4 := Watcher(A, false, Waiting(H(1)))], nextTid := 5, watches := map[A := 4],
    live := {P(1)}, past := {P(0), P(1)}, rows := map[A := Row(Running, H(1), 0)],
    log := [OperatorLaunch(A), OperatorLaunch(A)])

  /** The same after the late delete. */
  const UNREGISTERED: State := RESTARTED.(threads := map[4 := Watcher(A, false, Waiting(H(1)))], watches := map[])

  lemma RestartedState()
    ensures AfterStart(STOPPED_LATE, A, P(1)) == RESTARTED
  {
  }

  lemma UnregisteredState()
    ensures RESTARTED.(threads := RESTARTED.threads - {1}, watches := RESTARTED.watches - {A}) == UNREGISTERED
  {
    assert RESTARTED.threads - {1} == UNREGISTERED.threads;
  }

  /** The deferred delete of a late watcher removes the entry of its successor. */
  lemma StartBeforeReturnLaunchesTwice()
    ensures exists s :: Reachable(s, StartBeforeReturn) && TwoLive(s, A)
  {
    RestartedIsReachable(StartBeforeReturn);
    UnregisteredIsReachable(StartBeforeReturn);
    LaunchesBeside(UNREGISTERED, 1, 2, StartBeforeReturn);
  }

  lemma RestartedIsReachable(w: Waiver)
    requires w.StartBeforeReturn?
    ensures Reachable(RESTARTED, w)
  {
    StoppedLateIsReachable(w);
    StartCompletes(STOPPED_LATE, A, P(1), w);
    RestartedState();
  }

  lemma UnregisteredIsReachable(w: Waiver)
    requires Reachable(RESTARTED, w)
    ensures Reachable(UNREGISTERED, w)
  {
    CancelledReturns(RESTARTED, 1, w);
    UnregisteredState();
  }

  /** A start after a shutdown leaves its process without a watcher, and the next start is let through. */
  lemma StartAfterShutdownLaunchesTwice()
    ensures exists s :: Reachable(s, StartAfterShutdown) && TwoLive(s, A)
  {
    UnwatchedIsReachable();
    LaunchesBeside(UNWATCHED, 0, 1, StartAfterShutdown);
  }

  lemma UnwatchedIsReachable()
    ensures Reachable(UNWATCHED, StartAfterShutdown)
  {
    var w := StartAfterShutdown;
    BootedIsReachable(w);
    Go(BOOTED, Shutdown, w);
    ShutDownState();
    StartLaunches(SHUT_DOWN, A, P(0), w);
    RowIsInserted(SHUT_DOWN, A, P(0), w);
    NothingIsRegistered(WithRow(WithProc(StartAt(SHUT_DOWN, A, SRegister(H(0))), A, P(0)), A, P(0)), 0, w);
    UnwatchedState();
  }

  const SHUT_DOWN: State := BOOTED.(shutdown := true)

  const UNWATCHED: State := SHUT_DOWN.(
    rows := map[A := Row(Running, H(0), 0)], nextTid := 1, live := {P(0)}, past := {P(0)}, log := [OperatorLaunch(A)])

  lemma ShutDownState()
    ensures Apply(BOOTED, Shutdown) == SHUT_DOWN
  {
  }

  lemma UnwatchedState()
    ensures var s := WithRow(WithProc(StartAt(SHUT_DOWN, A, SRegister(H(0))), A, P(0)), A, P(0));
            s.(threads := s.threads - {0}) == UNWATCHED
  {
  }

  /** A restart of JARVIS between a start's launch and its insert: nothing records the process. */
  lemma RestartBeforeInsertLaunchesTwice()
    ensures exists s :: Reachable(s, RestartBeforeInsert) && TwoLive(s, A)
  {
    var w := RestartBeforeInsert;
    BootedIsReachable(w);
    StartLaunches(BOOTED, A, P(0), w);
    var s := WithProc(StartAt(BOOTED, A, SInsert(H(0))), A, P(0));
    Reboots(s, w);
    LaunchesBeside(Rebooted(s), 0, 1, w);
  }

  /** Process 0 has exited and the watchdog is about to relaunch. */
  const CRASHED: State := UP.(live := {})

  lemma CrashedIsReachable(w: Waiver)
    ensures Reachable(CRASHED, w)
  {
    UpIsReachable(w);
    Go(UP, ProcExits(P(0)), w);
    assert Apply(UP, ProcExits(P(0))) == CRASHED;
  }

  /** A stop that cancels the watcher in its window: process 1 is started, its row insert fails, nobody watches it. */
  const ORPHANED: State := State(map[], false, {}, map[A := Row(Starting, H(0), 0)], POLICIES,
                          map[1 := Watcher(A, true, Waiting(H(1))), 2 := Stopper(A, TRead)], 3,
                          {P(1)}, {P(0), P(1)}, [OperatorLaunch(A), WatchdogLaunch(A)])

  /** The same, one step before and two steps before. */
  const ORPHAN_LAUNCHED: State :=
      ORPHANED.(threads := map[1 := Watcher(A, true, Inserting(H(1), 0)), 2 := Stopper(A, TRead)])

  const CANCELLED: State := ORPHANED.(threads := map[1 := Watcher(A, true, Launching(0)), 2 := Stopper(A, TRead)],
                                     live := {}, past := {P(0)}, log := [OperatorLaunch(A)])

  lemma OrphanedIsReachable()
    ensures Reachable(ORPHANED, CancelInWindow)
  {
    CancelledInWindowIsReachable();
    OrphanIsLaunched();
    InsertFails();
  }

  lemma OrphanIsLaunched()
    requires Reachable(CANCELLED, CancelInWindow)
    ensures Reachable(ORPHAN_LAUNCHED, CancelInWindow)
  {
    assert At(CANCELLED, 1, Launching(0)) == CANCELLED;
    WatchdogRelaunches(CANCELLED, 1, 0, P(1), CancelInWindow);
    OrphanState();
  }

  lemma OrphanState()
    ensures Relaunching(CANCELLED, 1, 0, P(1)) == ORPHAN_LAUNCHED
  {
    assert CANCELLED.threads[1 := Watcher(A, true, Inserting(H(1), 0))] == ORPHAN_LAUNCHED.threads;
  }

  lemma AboutToLaunchIsReachable(w: Waiver)
    ensures Reachable(ABOUT_TO_LAUNCH, w)
  {
    CrashedIsReachable(w);
    ExitReachesLaunch(CRASHED, 1, 0, w);
    AboutToLaunchState();
  }

  lemma CancelledInWindowIsReachable()
    ensures Reachable(CANCELLED, CancelInWindow)
  {
    AboutToLaunchIsReachable(CancelInWindow);
    StopBegins(ABOUT_TO_LAUNCH, 1, CancelInWindow);
    CancelledState();
  }

  const ABOUT_TO_LAUNCH: State :=
    CRASHED.(rows := map[A := Row(Starting, H(0), 0)], threads := map[1 := Watcher(A, false, Launching(0))])

  lemma AboutToLaunchState()
    ensures At(MarkState(CRASHED, A, Starting), 1, Launching(0)) == ABOUT_TO_LAUNCH
  {
  }

  lemma CancelledState()
    ensures Stopping(ABOUT_TO_LAUNCH, 1) == CANCELLED
  {
  }

  lemma InsertFails()
    requires Reachable(ORPHAN_LAUNCHED, CancelInWindow)
    ensures Reachable(ORPHANED, CancelInWindow)
  {
    OrphanedState();
    Go(ORPHAN_LAUNCHED, OfWatch(1, RelaunchRecorded(false)), CancelInWindow);
  }

  lemma OrphanedState()
    ensures Enabled(ORPHAN_LAUNCHED, OfWatch(1, RelaunchRecorded(false)))
    ensures Apply(ORPHAN_LAUNCHED, OfWatch(1, RelaunchRecorded(false))) == ORPHANED
  {
    var s := ORPHAN_LAUNCHED;
    assert s.live - {} + {} == s.live && s.past + {} == s.past;
    assert s.threads[1 := Watcher(A, true, Waiting(H(1)))] == ORPHANED.threads;
  }

  lemma CancelInWindowLaunchesTwice()
    ensures exists s :: Reachable(s, CancelInWindow) && TwoLive(s, A)
  {
    var w := CancelInWindow;
    OrphanedIsReachable();
    CancelledReturns(ORPHANED, 1, w);
    OrphanLeftState();
    StopMissesOrphan(ORPHANED.(threads := map[2 := Stopper(A, TRead)]), w);
    LaunchesBeside(ORPHANED.(threads := map[]), 1, 2, w);
  }

  lemma OrphanLeftState()
    ensures ORPHANED.(threads := ORPHANED.threads - {1}, watches := ORPHANED.watches - {A})
         == ORPHANED.(threads := map[2 := Stopper(A, TRead)])
  {
    assert ORPHANED.threads - {1} == map[2 := Stopper(A, TRead)];
  }

  /** The stop reads the old row and fails, rightly, because that process is gone. */
  lemma StopMissesOrphan(s: State, w: Waiver)
    requires Reachable(s, w) && s == ORPHANED.(threads := map[2 := Stopper(A, TRead)])
    ensures Reachable(ORPHANED.(threads := map[]), w)
  {
    var s1 := s.(threads := map[2 := Stopper(A, TKill(H(0)))]);
    assert s.live - {} + {} == s.live && s.past + {} == s.past;
    assert s.threads[2 := Stopper(A, TKill(H(0)))] == s1.threads;
    GoStop(s, 2, Read(true), s1, w);
    assert s1.threads - {2} == map[];
    GoStop(s1, 2, Kill(false), ORPHANED.(threads := map[]), w);
  }

  // The same with a shutdown in place of the stop; after the next restart nobody looks for process 1.

  const SHUT_DOWN_IN_WINDOW: State := ABOUT_TO_LAUNCH.(
    shutdown := true, watches := map[], threads := map[1 := Watcher(A, true, Launching(0))])

  const CUT_OFF: State := SHUT_DOWN_IN_WINDOW.(
    threads := map[1 := Watcher(A, true, Inserting(H(1), 0))], live := {P(1)}, past := {P(0), P(1)},
    log := [OperatorLaunch(A), WatchdogLaunch(A)])

  const STRANDED: State := CUT_OFF.(threads := map[1 := Watcher(A, true, Waiting(H(1)))])

  lemma ShutDownInWindowState()
    ensures ShutdownAll(ABOUT_TO_LAUNCH) == SHUT_DOWN_IN_WINDOW
  {
    assert 1 in ABOUT_TO_LAUNCH.watches.Values by { assert ABOUT_TO_LAUNCH.watches[A] == 1; }
  }

  lemma CutOffState()
    ensures At(SHUT_DOWN_IN_WINDOW, 1, Launching(0)) == SHUT_DOWN_IN_WINDOW
    ensures Relaunching(SHUT_DOWN_IN_WINDOW, 1, 0, P(1)) == CUT_OFF
  {
  }

  lemma StrandedState()
    ensures Enabled(CUT_OFF, OfWatch(1, RelaunchRecorded(false)))
    ensures Apply(CUT_OFF, OfWatch(1, RelaunchRecorded(false))) == STRANDED
  {
    assert CUT_OFF.live - {} + {} == CUT_OFF.live && CUT_OFF.past + {} == CUT_OFF.past;
    assert CUT_OFF.threads[1 := Watcher(A, true, Waiting(H(1)))] == STRANDED.threads;
  }

  lemma StrandedIsReachable()
    ensures Reachable(STRANDED, ShutdownInWindow)
  {
    var w := ShutdownInWindow;
    AboutToLaunchIsReachable(w);
    Go(ABOUT_TO_LAUNCH, Shutdown, w);
    ShutDownInWindowState();
    CutOffState();
    WatchdogRelaunches(SHUT_DOWN_IN_WINDOW, 1, 0, P(1), w);
    StrandedState();
    Go(CUT_OFF, OfWatch(1, RelaunchRecorded(false)), w);
  }

  lemma ShutdownInWindowLaunchesTwice()
    ensures exists s :: Reachable(s, ShutdownInWindow) && TwoLive(s, A)
  {
    StrandedIsReachable();
    Reboots(STRANDED, ShutdownInWindow);
    StrandedStaysLive(Rebooted(STRANDED));
    LaunchesBeside(Rebooted(STRANDED), 1, 2, ShutdownInWindow);
  }

  lemma StrandedStaysLive(s: State)
    requires s == Rebooted(STRANDED)
    ensures s.live == {P(1)} && s.past == {P(0), P(1)} && s.threads == map[] && s.watches == map[]
    ensures s.pending == {} && !s.shutdown && s.policies == POLICIES
  {
  }

  // A stop between the row insert and the registration of a start kills the process, and marks the row
  // stopped only after the watchdog has already brought a new process up.

  const HALF: State := State(map[], false, {}, map[A := Row(Running, H(0), 0)], POLICIES,
                      map[0 := Starter(A, SRegister(H(0)))], 1, {P(0)}, {P(0)}, [OperatorLaunch(A)])

  lemma HalfIsReachable(w: Waiver)
    ensures Reachable(HALF, w)
  {
    BootedIsReachable(w);
    StartLaunches(BOOTED, A, P(0), w);
    RowIsInserted(BOOTED, A, P(0), w);
    HalfState();
  }

  lemma HalfState()
    ensures WithRow(WithProc(StartAt(BOOTED, A, SRegister(H(0))), A, P(0)), A, P(0)) == HALF
  {
  }

  /** The stop has killed process 0 and the start has registered a watcher for it. */
  const KILLED_EARLY: State := HALF.(watches := map[A := 2], nextTid := 3, live := {},
                             threads := map[1 := Stopper(A, TMark), 2 := Watcher(A, false, Waiting(H(0)))])

  /** The stop beside the start, before and after the kill. */
  const BESIDE: State := HALF.(threads := map[0 := Starter(A, SRegister(H(0))), 1 := Stopper(A, TRead)], nextTid := 2)

  const BESIDE_KILLED: State :=
      HALF.(threads := map[0 := Starter(A, SRegister(H(0))), 1 := Stopper(A, TMark)], nextTid := 2,
                              live := {})

  lemma BesideIsReachable()
    ensures Reachable(BESIDE, StopDuringStart)
  {
    HalfIsReachable(StopDuringStart);
    Go(HALF, BeginStop(A), StopDuringStart);
    assert Apply(HALF, BeginStop(A)) == BESIDE;
  }

  lemma BesideKilledIsReachable()
    ensures Reachable(BESIDE_KILLED, StopDuringStart)
  {
    BesideIsReachable();
    StopKills(BESIDE, 1, P(0), StopDuringStart);
    assert BESIDE.(threads := BESIDE.threads[1 := Stopper(A, TMark)], live := {}) == BESIDE_KILLED;
  }

  lemma KilledEarlyIsReachable()
    ensures Reachable(KILLED_EARLY, StopDuringStart)
  {
    BesideKilledIsReachable();
    WatcherIsRegistered(BESIDE_KILLED, 0, StopDuringStart);
    assert Registered(BESIDE_KILLED, 0) == KILLED_EARLY;
  }

  /** The watchdog has relaunched; then its row is written; then the stop has marked the row. */
  const RELAUNCHED: State := MARKED_LATE.(rows := map[A := Row(Starting, H(0), 0)],
                                  threads := map[1 := Stopper(A, TMark), 2 := Watcher(A, false, Inserting(H(1), 0))])

  const RECORDED: State := MARKED_LATE.(rows := map[A := Row(Running, H(1), 1)],
                                threads := map[1 := Stopper(A, TMark), 2 := Watcher(A, false, Waiting(H(1)))])

  const MARKED_LATE: State :=
      KILLED_EARLY.(rows := map[A := Row(Stopped, H(1), 1)], live := {P(1)}, past := {P(0), P(1)},
                                   threads := map[2 := Watcher(A, false, Waiting(H(1)))],
                                   log := [OperatorLaunch(A), WatchdogLaunch(A)])

  lemma RelaunchedIsReachable()
    ensures Reachable(RELAUNCHED, StopDuringStart)
  {
    KilledEarlyIsReachable();
    ExitReachesLaunch(KILLED_EARLY, 2, 0, StopDuringStart);
    WatchdogLaunchesDespiteStop();
  }

  lemma WatchdogLaunchesDespiteStop()
    requires Reachable(At(MarkState(KILLED_EARLY, A, Starting), 2, Launching(0)), StopDuringStart)
    ensures Reachable(RELAUNCHED, StopDuringStart)
  {
    var m := KILLED_EARLY.(rows := map[A := Row(Starting, H(0), 0)]);
    assert MarkState(KILLED_EARLY, A, Starting) == m;
    WatchdogRelaunches(m, 2, 0, P(1), StopDuringStart);
    RelaunchedState(m);
  }

  lemma RelaunchedState(m: State)
    requires m == KILLED_EARLY.(rows := map[A := Row(Starting, H(0), 0)])
    ensures Relaunching(m, 2, 0, P(1)) == RELAUNCHED
  {
    assert m.threads[2 := Watcher(A, false, Inserting(H(1), 0))] == RELAUNCHED.threads;
  }

  lemma RecordedIsReachable()
    ensures Reachable(RECORDED, StopDuringStart)
  {
    RelaunchedIsReachable();
    Go(RELAUNCHED, OfWatch(2, RelaunchRecorded(true)), StopDuringStart);
    RecordedState();
  }

  lemma RecordedState()
    ensures Enabled(RELAUNCHED, OfWatch(2, RelaunchRecorded(true)))
    ensures Apply(RELAUNCHED, OfWatch(2, RelaunchRecorded(true))) == RECORDED
  {
    assert RELAUNCHED.live - {} + {} == RELAUNCHED.live && RELAUNCHED.past + {} == RELAUNCHED.past;
    assert RELAUNCHED.threads[2 := Watcher(A, false, Waiting(H(1)))] == RECORDED.threads;
  }

  lemma MarkedLateIsReachable()
    ensures Reachable(MARKED_LATE, StopDuringStart)
  {
    RecordedIsReachable();
    StopMarks(RECORDED, 1, StopDuringStart);
    assert MarkState(RECORDED.(threads := RECORDED.threads - {1}), A, Stopped) == MARKED_LATE;
  }

  /** After the next restart of JARVIS nobody looks for process 1, so a start launches another one. */
  lemma StopDuringStartLaunchesTwice()
    ensures exists s :: Reachable(s, StopDuringStart) && TwoLive(s, A)
  {
    MarkedLateIsReachable();
    Reboots(MARKED_LATE, StopDuringStart);
    LaunchesBeside(Rebooted(MARKED_LATE), 1, 2, StopDuringStart);
  }
}
