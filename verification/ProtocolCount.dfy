/** What restart_count means on guarded runs: the watchdog relaunches since the last operator start,
    however often JARVIS itself was shut down or restarted in between. */
module ProtocolCount {
  import opened Common
  import opened Protocol
  import opened ProtocolSafety

  /** Watchdog relaunches of `a` since its last operator start. */
  function Relaunches(log: seq<Event>, a: App): nat {
    if log == [] then 0
    else
      var e := log[|log| - 1];
      if e == OperatorLaunch(a) then 0
      else (if e == WatchdogLaunch(a) then 1 else 0) + Relaunches(log[..|log| - 1], a)
  }

  lemma RelaunchesAppend(log: seq<Event>, e: Event, a: App)
    ensures Relaunches(log + [e], a) ==
            if e == OperatorLaunch(a) then 0 else (if e == WatchdogLaunch(a) then 1 else 0) + Relaunches(log, a)
  {
    assert (log + [e])[..|log|] == log;
  }

  /** One more guard: a watchdog whose read of the count fails goes on from zero. */
  predicate CountIsRead(step: Step) {
    step.OfWatch? && step.watch.CountRead? ==> step.watch.ok
  }

  predicate CountsAreRead(steps: seq<Step>) {
    forall i :: 0 <= i < |steps| ==> CountIsRead(steps[i])
  }

  /** `row` is the row of the thread's app, `n` its relaunches so far. */
  predicate ThreadCountOk(th: Thread, row: Option<Row>, n: nat) {
    match th
    case Watcher(_, _, Inserting(_, c)) => n == c + 1
    case Watcher(_, _, Marking(c)) => row.Some? && row.value.restarts == c
    case Watcher(_, _, Backoff(c)) => row.Some? && row.value.restarts == c
    case Watcher(_, _, Building(_, c)) => row.Some? && row.value.restarts == c
    case Watcher(_, _, Launching(c)) => row.Some? && row.value.restarts == c
    case Starter(_, SInsert(_)) => n == 0
    case _ => true
  }

  ghost predicate ThreadCountsOk(threads: map<Tid, Thread>, a: App, row: Option<Row>, n: nat) {
    forall t :: t in threads && threads[t].app == a ==> ThreadCountOk(threads[t], row, n)
  }

  ghost predicate CountOk(s: State, a: App) {
    && ThreadCountsOk(s.threads, a, Lookup(s.rows, a), Relaunches(s.log, a))
    && (Awaiting(s, a) || (a in s.rows ==> s.rows[a].restarts == Relaunches(s.log, a)))
  }

  lemma OtherThreadKeepsCount(s: State, t: Tid, e: Effect, b: App)
    requires CountOk(s, b) && t in s.threads && s.threads[t].app != b && LocalEffect(s, t, e)
    requires e.event.Some? ==> e.event.value.app == s.threads[t].app
    ensures CountOk(Commit(s, t, e), b)
  {
    var s' := Commit(s, t, e);
    assert forall u :: u in s'.threads && s'.threads[u].app == b ==> u in s.threads && s'.threads[u] == s.threads[u];
    assert Lookup(s'.rows, b) == Lookup(s.rows, b);
    OtherEventKeepsRelaunches(s, t, e, b);
    CommitKeepsWitnesses(s, t, e, b);
  }

  lemma OtherEventKeepsRelaunches(s: State, t: Tid, e: Effect, b: App)
    requires t in s.threads && s.threads[t].app != b
    requires e.event.Some? ==> e.event.value.app == s.threads[t].app
    ensures Relaunches(Commit(s, t, e).log, b) == Relaunches(s.log, b)
  {
    if e.event.Some? {
      RelaunchesAppend(s.log, e.event.value, b);
    }
  }

  lemma WatchKeepsCount(s: State, t: Tid, step: WatchStep)
    requires Inv(s) && WatchEnabled(s, t, step) && WatchGuard(step) && CountOk(s, s.threads[t].app)
    requires CountIsRead(OfWatch(t, step))
    ensures CountOk(ApplyWatch(s, t, step), s.threads[t].app)
  {
    if step.Relaunch? || step.RelaunchRecorded? {
      RelaunchKeepsCount(s, t, step);
    } else {
      QuietStepKeepsCount(s, t, step);
    }
  }

  lemma RelaunchKeepsCount(s: State, t: Tid, step: WatchStep)
    requires Inv(s) && WatchEnabled(s, t, step) && WatchGuard(step) && CountOk(s, s.threads[t].app)
    requires CountIsRead(OfWatch(t, step))
    requires step.Relaunch? || step.RelaunchRecorded?
    ensures CountOk(ApplyWatch(s, t, step), s.threads[t].app)
  {
    var th := s.threads[t];
    var s' := ApplyWatch(s, t, step);
    assert AppOk(s, th.app) && ThreadOk(s, t);
    RegisteredIsAlone(s, t);
    if step.Relaunch? && step.out.Launched? {
      RelaunchesAppend(s.log, WatchdogLaunch(th.app), th.app);
      assert AwaitsInsert(s'.threads[t]);
    }
  }

  lemma QuietStepKeepsCount(s: State, t: Tid, step: WatchStep)
    requires Inv(s) && WatchEnabled(s, t, step) && WatchGuard(step) && CountOk(s, s.threads[t].app)
    requires CountIsRead(OfWatch(t, step))
    requires !step.Relaunch? && !step.RelaunchRecorded?
    ensures CountOk(ApplyWatch(s, t, step), s.threads[t].app)
  {
    var th := s.threads[t];
    var s' := ApplyWatch(s, t, step);
    QuietStepKeepsRestarts(s, t, step);
    if t in s'.threads {
      QuietStepCounts(s, t, step);
    }
    CommitKeepsWitnesses(s, t, WatchEffect(th, Lookup(s.rows, th.app), Lookup(s.policies, th.app), step), th.app);
    CountCarries(s, s', t, th.app);
  }

  /** Nothing about the count changed, and neither did any other thread. */
  lemma CountCarries(s: State, s': State, t: Tid, a: App)
    requires CountOk(s, a) && s'.log == s.log && (a in s'.rows <==> a in s.rows)
    requires a in s.rows ==> s'.rows[a].restarts == s.rows[a].restarts
    requires Awaiting(s, a) ==> Awaiting(s', a)
    requires forall u :: u in s'.threads && u != t ==> u in s.threads && s'.threads[u] == s.threads[u]
    requires t in s'.threads ==> ThreadCountOk(s'.threads[t], Lookup(s.rows, a), Relaunches(s.log, a))
    ensures CountOk(s', a)
  {
  }

  lemma QuietStepKeepsRestarts(s: State, t: Tid, step: WatchStep)
    requires WatchEnabled(s, t, step) && !step.Relaunch? && !step.RelaunchRecorded?
    ensures var a := s.threads[t].app; var s' := ApplyWatch(s, t, step);
            && s'.log == s.log && (a in s'.rows <==> a in s.rows)
            && (a in s.rows ==> s'.rows[a].restarts == s.rows[a].restarts)
  {
  }

  lemma QuietStepCounts(s: State, t: Tid, step: WatchStep)
    requires Inv(s) && WatchEnabled(s, t, step) && WatchGuard(step) && CountOk(s, s.threads[t].app)
    requires CountIsRead(OfWatch(t, step))
    requires !step.Relaunch? && !step.RelaunchRecorded? && !step.Leave?
    ensures var a := s.threads[t].app;
            ThreadCountOk(ApplyWatch(s, t, step).threads[t], Lookup(s.rows, a), Relaunches(s.log, a))
  {
    assert AppOk(s, s.threads[t].app) && ThreadOk(s, t);
  }

  lemma StartKeepsCount(s: State, t: Tid, step: StartStep)
    requires Inv(s) && StartEnabled(s, t, step) && StartGuard(s, t, step) && !step.Register?
        && CountOk(s, s.threads[t].app)
    ensures CountOk(ApplyStart(s, t, step), s.threads[t].app)
  {
    var th := s.threads[t];
    var s' := ApplyStart(s, t, step);
    assert AppOk(s, th.app) && ThreadOk(s, t);
    CommitKeepsWitnesses(s, t, StartEffect(th, step), th.app);
    if step.Launch? && step.out.Launched? {
      RelaunchesAppend(s.log, OperatorLaunch(th.app), th.app);
      assert AwaitsInsert(s'.threads[t]);
    }
  }

  lemma StopKeepsCount(s: State, t: Tid, step: StopStep)
    requires StopEnabled(s, t, step) && CountOk(s, s.threads[t].app)
    ensures CountOk(ApplyStop(s, t, step), s.threads[t].app)
  {
    var th := s.threads[t];
    CommitKeepsWitnesses(s, t, StopEffect(th, Lookup(s.rows, th.app), s.live, step), th.app);
  }

  /** startWatcher only adds a thread that carries no count. */
  lemma StartWatcherKeepsCount(s: State, a: App, h: Handle, b: App)
    requires CountOk(s, b) && s.nextTid !in s.threads
    ensures CountOk(StartWatcher(s, a, h), b)
  {
    CancelThreadKeepsCount(s, if a in s.watches then s.watches[a] else s.nextTid, b);
    var c := s.(threads := CancelThread(s.threads, if a in s.watches then s.watches[a] else s.nextTid));
    var s' := StartWatcher(s, a, h);
    if !s.shutdown {
      assert forall u :: u in c.threads ==> u in s'.threads && s'.threads[u] == c.threads[u];
      assert Awaiting(c, b) ==> Awaiting(s', b);
    }
  }

  lemma CancelThreadKeepsCount(s: State, t: Tid, b: App)
    requires CountOk(s, b)
    ensures CountOk(s.(threads := CancelThread(s.threads, t)), b)
  {
    var c := s.(threads := CancelThread(s.threads, t));
    if Awaiting(s, b) {
      var u :| u in s.threads && s.threads[u].app == b && AwaitsInsert(s.threads[u]);
      assert AwaitsInsert(c.threads[u]) && c.threads[u].app == b;
    }
  }

  lemma ShutdownKeepsCount(s: State, b: App)
    requires CountOk(s, b)
    ensures CountOk(ShutdownAll(s), b)
  {
    var s' := ShutdownAll(s);
    if Awaiting(s, b) {
      var u :| u in s.threads && s.threads[u].app == b && AwaitsInsert(s.threads[u]);
      assert AwaitsInsert(s'.threads[u]) && s'.threads[u].app == b;
    }
  }

  lemma CommandKeepsCount(s: State, th: Thread, b: App)
    requires CountOk(s, b) && s.nextTid !in s.threads && ThreadCountOk(th, None, 0) && !th.Watcher? && !AwaitsInsert(th)
    ensures CountOk(WithThread(s, th, s.watches), b)
  {
    var s' := WithThread(s, th, s.watches);
    assert forall u :: u in s.threads ==> u in s'.threads && s'.threads[u] == s.threads[u];
    assert Awaiting(s, b) ==> Awaiting(s', b);
  }

  lemma ReconcileKeepsCount(s: State, a: App, found: Option<Proc>, writeOk: bool, b: App)
    requires Inv(s) && CountOk(s, b) && Enabled(s, ReconcileApp(a, true, found, writeOk))
    ensures CountOk(AfterReconcile(s, a, true, found, writeOk), b)
  {
    NextTidUnused(s);
    assert AppOk(s, a);
    var d := s.(pending := s.pending - {a});
    assert Awaiting(s, b) ==> Awaiting(d, b);
    if found.Some? {
      DiscoveryMeansAlive(s, a, found.value);
    }
    if RowActive(s, a) && IsAlive(s, s.rows[a].h) {
      StartWatcherKeepsCount(d, a, s.rows[a].h, b);
    } else if writeOk {
      MarkKeepsCount(d, a, Stopped, b);
    }
  }

  lemma MarkKeepsCount(s: State, a: App, state: RowState, b: App)
    requires CountOk(s, b)
    ensures CountOk(MarkState(s, a, state), b)
  {
    assert Awaiting(s, b) ==> Awaiting(MarkState(s, a, state), b);
  }

  lemma ThreadStepKeepsCount(s: State, step: Step, b: App)
    requires Inv(s) && CountOk(s, b) && Enabled(s, step) && Guarded(s, step) && CountIsRead(step)
    requires step.OfStart? || step.OfStop? || step.OfWatch?
    ensures CountOk(Apply(s, step), b)
  {
    var t := step.t;
    var th := s.threads[t];
    NextTidUnused(s);
    match step
    case OfStart(_, Register) =>
      StartWatcherKeepsCount(s, th.app, th.spc.h, b);
      RegisterEndsKeepsCount(s, t, b);
    case OfStart(_, start) =>
      if th.app == b { StartKeepsCount(s, t, start); } else { OtherThreadKeepsCount(s, t, StartEffect(th, start), b); }
    case OfStop(_, stop) =>
      if th.app == b { StopKeepsCount(s, t, stop); }
      else { OtherThreadKeepsCount(s, t, StopEffect(th, Lookup(s.rows, th.app), s.live, stop), b); }
    case OfWatch(_, watch) =>
      if th.app == b { WatchKeepsCount(s, t, watch); }
      else {
        OtherThreadKeepsCount(s, t, WatchEffect(th, Lookup(s.rows, th.app), Lookup(s.policies, th.app), watch), b);
      }
  }

  lemma RegisterEndsKeepsCount(s: State, t: Tid, b: App)
    requires StartEnabled(s, t, Register) && CountOk(StartWatcher(s, s.threads[t].app, s.threads[t].spc.h), b)
    requires s.nextTid !in s.threads
    ensures CountOk(ApplyStart(s, t, Register), b)
  {
    var r := StartWatcher(s, s.threads[t].app, s.threads[t].spc.h);
    CommitKeepsWitnesses(r, t, ENDS, b);
  }

  lemma CountStep(s: State, step: Step, b: App)
    requires Inv(s) && CountOk(s, b) && Enabled(s, step) && Guarded(s, step) && CountIsRead(step)
    ensures CountOk(Apply(s, step), b)
  {
    NextTidUnused(s);
    match step
    case BeginStart(a) =>
      CommandKeepsCount(s, Starter(a, SBuild), b);
      assert Apply(s, step) == WithThread(s, Starter(a, SBuild), s.watches);
    case BeginStop(a) =>
      if a in s.watches { CancelThreadKeepsCount(s, s.watches[a], b); }
      CancelKeepsCount(s, a, b);
      CommandKeepsCount(CancelWatcher(s, a), Stopper(a, TRead), b);
    case Shutdown => ShutdownKeepsCount(s, b);
    case Restart => assert !Awaiting(s, b);
    case ReconcileApp(a, _, found, writeOk) => ReconcileKeepsCount(s, a, found, writeOk, b);
    case SetPolicy(_, _) => assert Awaiting(s, b) ==> Awaiting(Apply(s, step), b);
    case ProcExits(_) => assert Awaiting(s, b) ==> Awaiting(Apply(s, step), b);
    case ForeignStarts(_) => assert Awaiting(s, b) ==> Awaiting(Apply(s, step), b);
    case _ => ThreadStepKeepsCount(s, step, b);
  }

  lemma CancelKeepsCount(s: State, a: App, b: App)
    requires CountOk(s, b)
    ensures CountOk(CancelWatcher(s, a), b)
  {
    if a in s.watches {
      CancelThreadKeepsCount(s, s.watches[a], b);
      var c := s.(threads := CancelThread(s.threads, s.watches[a]));
      assert Awaiting(c, b) ==> Awaiting(CancelWatcher(s, a), b);
    }
  }

  lemma {:induction false} CountRun(s: State, steps: seq<Step>, a: App)
    requires Inv(s) && CountOk(s, a) && Run(s, steps) && GuardedRun(s, steps) && CountsAreRead(steps)
    ensures CountOk(Exec(s, steps), a)
    decreases |steps|
  {
    if steps != [] {
      CountStep(s, steps[0], a);
      InvStep(s, steps[0]);
      CountRun(Apply(s, steps[0]), steps[1..], a);
    }
  }

  /** Whenever no launch of `a` is waiting for its row, restart_count is the number of watchdog relaunches of `a`
      since its last operator start. */
  lemma RestartCountIsRelaunches(s: State, steps: seq<Step>, a: App)
    requires Init(s) && Run(s, steps) && GuardedRun(s, steps) && CountsAreRead(steps)
    ensures var end := Exec(s, steps);
            a in end.rows && !Awaiting(end, a) ==> end.rows[a].restarts == Relaunches(end.log, a)
  {
    InvInitially(s);
    CountRun(s, steps, a);
  }
}
