/** One watcher and one process per app, on every guarded run.

    The guards are predicates on single steps. `ProtocolCounterexamples` has, for each guard on when a command, a
    shutdown or a restart may come, a run that breaks the conclusion without it. */
module ProtocolSafety {
  import opened Common
  import opened Protocol

  // ----- guards -----

  ghost predicate NoLive(s: State, a: App) {
    forall p :: p in s.live ==> !IsOf(p, a)
  }

  predicate IsOf(p: Proc, a: App) {
    p.owner.Managed? && p.owner.app == a
  }

  /** A process was started and its row is not written yet. */
  predicate AwaitsInsert(th: Thread) {
    (th.Starter? && th.spc.SInsert?) || (th.Watcher? && th.pc.Inserting?)
  }

  /** Between the last context check of a relaunch and its row insert. */
  predicate InWindow(th: Thread) {
    th.Watcher? && (th.pc.Launching? || th.pc.Inserting?)
  }

  ghost predicate StartGuard(s: State, t: Tid, step: StartStep) {
    match step
    case Launch(out) => out.Launched? || out.LaunchFailed?
    case Insert(ok) => ok
    case _ => true
  }

  /** A stop fails only because the process is gone. */
  ghost predicate StopGuard(s: State, t: Tid, step: StopStep)
    requires StopEnabled(s, t, step)
  {
    match step
    case Read(ok) => (ok && RowActive(s, s.threads[t].app)) || NoLive(s, s.threads[t].app)
    case Kill(ok) => ok || Gone(s, s.threads[t].tpc.h)
    case Mark(ok) => true
  }

  predicate WatchGuard(step: WatchStep) {
    match step
    case WaitReturns(failed) => !failed
    case Relaunch(out) => out.Launched? || out.LaunchFailed?
    case RelaunchRecorded(ok) => ok
    case _ => true
  }

  ghost predicate Guarded(s: State, step: Step)
    requires Enabled(s, step)
  {
    match step
    // no command of this app is in flight, its cancelled watchers have returned, and JARVIS is not shutting down
    case BeginStart(a) =>
      && !s.shutdown
      && forall t :: t in s.threads && s.threads[t].app == a ==> s.threads[t].Watcher? && !s.threads[t].cancelled
    case OfStart(t, start) => StartGuard(s, t, start)
    // no start of this app is in flight, and the cancel does not land in a relaunch's window
    case BeginStop(a) =>
      forall t :: t in s.threads && s.threads[t].app == a ==> !s.threads[t].Starter? && !InWindow(s.threads[t])
    case OfStop(t, stop) => StopGuard(s, t, stop)
    case OfWatch(t, watch) => WatchGuard(watch)
    // the cancels do not land in a relaunch's window; a start in flight does not matter
    case Shutdown => forall t :: t in s.threads ==> !InWindow(s.threads[t])
    // no process has been started whose row is still to be written
    case Restart => forall t :: t in s.threads ==> !AwaitsInsert(s.threads[t])
    case ReconcileApp(a, checkOk, found, writeOk) => checkOk
    case _ => true
  }

  ghost predicate GuardedRun(s: State, steps: seq<Step>)
    requires Run(s, steps)
    decreases |steps|
  {
    steps != [] ==> Guarded(s, steps[0]) && GuardedRun(Apply(s, steps[0]), steps[1..])
  }

  // ----- what is kept -----

  /** The reader's view: at most one uncancelled watcher per app, `watches` holds exactly the uncancelled watchers,
      a waiting watcher watches the row's process, and at most one process per app is live. */
  ghost predicate Supervised(s: State) {
    && (forall t, u :: t in s.threads && u in s.threads ==>
          Uncancelled(s.threads[t]) && Uncancelled(s.threads[u]) && s.threads[t].app == s.threads[u].app ==> t == u)
    && (forall a :: a in s.watches ==>
          s.watches[a] in s.threads && Uncancelled(s.threads[s.watches[a]]) && s.threads[s.watches[a]].app == a)
    && (forall t :: t in s.threads && Uncancelled(s.threads[t]) ==>
          s.threads[t].app in s.watches && s.watches[s.threads[t].app] == t)
    && (forall t :: t in s.threads && s.threads[t].Watcher? && s.threads[t].pc.Waiting? ==>
          s.threads[t].app in s.rows && s.rows[s.threads[t].app].h == s.threads[t].pc.h)
    && (forall p, q :: p in s.live && q in s.live ==>
          p.owner.Managed? && q.owner.Managed? && p.owner.app == q.owner.app ==> p == q)
  }

  predicate Uncancelled(th: Thread) {
    th.Watcher? && !th.cancelled
  }

  // ----- the inductive invariant -----

  ghost predicate HostOk(s: State) {
    && s.live <= s.past
    && (forall p :: p in s.past ==> p.pid > 0 && p.ctime > 0)
    && (forall p, q :: p in s.past && q in s.past && p.pid == q.pid && p.ctime == q.ctime ==> p == q)
    && (forall p, q :: p in s.past && q in s.past && SameInstance(p, q) ==> p == q)
  }

  /** The handle denotes a process JARVIS launched for `a`. */
  predicate LaunchedFor(s: State, a: App, h: Handle) {
    Proc(h.pid, h.ctime, Managed(a, h.inst)) in s.past
  }

  /** Every live process of `a` is the one behind `h`. */
  ghost predicate OnlyLive(s: State, a: App, h: Handle) {
    forall p :: p in s.live && IsOf(p, a) ==> HandleOf(p) == h
  }

  predicate RowIs(s: State, a: App, h: Handle) {
    a in s.rows && s.rows[a].h == h
  }

  ghost predicate WatcherOk(s: State, t: Tid, a: App, cancelled: bool, pc: WatchPc) {
    && (!cancelled ==> a in s.watches && s.watches[a] == t)
    && (cancelled ==> a !in s.watches && !pc.Launching? && !pc.Inserting?)
    && a in s.rows
    && match pc
       case Waiting(h) => RowIs(s, a, h)
       case Inserting(h, _) => LaunchedFor(s, a, h) && OnlyLive(s, a, h)
       case Returning => !cancelled ==> NoLive(s, a)
       case _ => NoLive(s, a)
  }

  ghost predicate StarterOk(s: State, t: Tid, a: App, spc: StartPc) {
    && a !in s.watches
    && (!spc.SBuild? ==> a in s.policies)
    && (forall u :: u in s.threads && s.threads[u].app == a ==> u == t)
    && match spc
       case SInsert(h) => LaunchedFor(s, a, h) && OnlyLive(s, a, h)
       case SRegister(h) => RowIs(s, a, h)
       case _ => NoLive(s, a)
  }

  ghost predicate StopperOk(s: State, a: App, tpc: StopPc) {
    && a !in s.watches
    && match tpc
       case TRead => true
       case TKill(h) => RowIs(s, a, h)
       case TMark => NoLive(s, a)
  }

  ghost predicate ThreadOk(s: State, t: Tid)
    requires t in s.threads
  {
    match s.threads[t]
    case Watcher(a, cancelled, pc) => WatcherOk(s, t, a, cancelled, pc)
    case Starter(a, spc) => StarterOk(s, t, a, spc)
    case Stopper(a, tpc) => StopperOk(s, a, tpc)
  }

  ghost predicate Awaiting(s: State, a: App) {
    exists t :: t in s.threads && s.threads[t].app == a && AwaitsInsert(s.threads[t])
  }

  ghost predicate HasCommand(s: State, a: App) {
    exists t :: t in s.threads && s.threads[t].app == a && !s.threads[t].Watcher?
  }

  /** The threads of `a` and its entries in the map and the table. */
  ghost predicate ThreadsOk(s: State, a: App) {
    && (a in s.watches ==>
          s.watches[a] in s.threads && s.threads[s.watches[a]].app == a && Uncancelled(s.threads[s.watches[a]]))
    && (s.shutdown ==> a !in s.watches)
    && (a in s.rows ==> a in s.policies && LaunchedFor(s, a, s.rows[a].h))
    && (forall t :: t in s.threads && s.threads[t].app == a ==> t < s.nextTid && a !in s.pending && ThreadOk(s, t))
  }

  /** Outside a launch, the row names the live process of `a` and does not call it stopped. */
  ghost predicate RowOk(s: State, a: App) {
    Awaiting(s, a) || forall p :: p in s.live && IsOf(p, a) ==> RowActive(s, a) && s.rows[a].h == HandleOf(p)
  }

  /** Somebody is responsible for every live process of `a`. */
  ghost predicate Covered(s: State, a: App) {
    a in s.watches || HasCommand(s, a) || s.shutdown || a in s.pending || NoLive(s, a)
  }

  ghost predicate AppOk(s: State, a: App) {
    ThreadsOk(s, a) && RowOk(s, a) && Covered(s, a)
  }

  ghost predicate Inv(s: State) {
    HostOk(s) && forall a :: AppOk(s, a)
  }

  lemma InvImpliesSupervised(s: State)
    requires Inv(s)
    ensures Supervised(s)
  {
    forall t | t in s.threads
      ensures ThreadOk(s, t)
    {
      assert AppOk(s, s.threads[t].app);
    }
    forall a | a in s.watches
      ensures s.watches[a] in s.threads && Uncancelled(s.threads[s.watches[a]]) && s.threads[s.watches[a]].app == a
    {
      assert AppOk(s, a);
    }
    forall p, q | p in s.live && q in s.live && p.owner.Managed? && q.owner.Managed? && p.owner.app == q.owner.app
      ensures p == q
    {
      var a := p.owner.app;
      assert AppOk(s, a);
      assert IsOf(p, a) && IsOf(q, a);
      if Awaiting(s, a) {
        var t :| t in s.threads && s.threads[t].app == a && AwaitsInsert(s.threads[t]);
        assert ThreadOk(s, t);
      }
      assert HandleOf(p) == HandleOf(q);
    }
  }

  lemma InvInitially(s: State)
    requires Init(s)
    ensures Inv(s)
  {
  }

  // ----- steps of one thread -----

  /** The other threads survive a step of thread `t`, so what they witness does. */
  lemma CommitKeepsWitnesses(s: State, t: Tid, e: Effect, a: App)
    requires t in s.threads
    ensures Awaiting(s, a) && !(s.threads[t].app == a && AwaitsInsert(s.threads[t])) ==> Awaiting(Commit(s, t, e), a)
    ensures HasCommand(s, a) && (s.threads[t].app == a ==> s.threads[t].Watcher?) ==> HasCommand(Commit(s, t, e), a)
  {
    var s' := Commit(s, t, e);
    if Awaiting(s, a) && !(s.threads[t].app == a && AwaitsInsert(s.threads[t])) {
      var u :| u in s.threads && s.threads[u].app == a && AwaitsInsert(s.threads[u]);
      assert u in s'.threads && s'.threads[u] == s.threads[u];
    }
    if HasCommand(s, a) && (s.threads[t].app == a ==> s.threads[t].Watcher?) {
      var u :| u in s.threads && s.threads[u].app == a && !s.threads[u].Watcher?;
      assert u in s'.threads && s'.threads[u] == s.threads[u];
    }
  }

  ghost predicate LocalEffect(s: State, t: Tid, e: Effect)
    requires t in s.threads
  {
    && (e.next.Some? ==> e.next.value.app == s.threads[t].app)
    && (forall p :: p in e.spawned ==> IsOf(p, s.threads[t].app))
  }

  /** A step of a thread of another app does not matter to `b`. */
  lemma CommitKeepsOther(s: State, t: Tid, e: Effect, b: App)
    requires AppOk(s, b) && t in s.threads && s.threads[t].app != b && LocalEffect(s, t, e)
    ensures AppOk(Commit(s, t, e), b)
  {
    CommitKeepsOtherThreads(s, t, e, b);
    CommitKeepsWitnesses(s, t, e, b);
  }

  lemma CommitKeepsOtherThreads(s: State, t: Tid, e: Effect, b: App)
    requires ThreadsOk(s, b) && t in s.threads && s.threads[t].app != b && LocalEffect(s, t, e)
    ensures ThreadsOk(Commit(s, t, e), b)
  {
    var s' := Commit(s, t, e);
    forall u | u in s'.threads && s'.threads[u].app == b
      ensures u < s'.nextTid && b !in s'.pending && ThreadOk(s', u)
    {
      assert u in s.threads && s'.threads[u] == s.threads[u];
      CommitKeepsOtherThread(s, t, e, u);
    }
  }

  lemma CommitKeepsOtherThread(s: State, t: Tid, e: Effect, u: Tid)
    requires t in s.threads && u in s.threads && s.threads[t].app != s.threads[u].app && LocalEffect(s, t, e)
        && ThreadOk(s, u)
    ensures ThreadOk(Commit(s, t, e), u)
  {
  }

  // a watcher

  lemma WatchKeepsThreads(s: State, t: Tid, step: WatchStep)
    requires HostOk(s) && WatchEnabled(s, t, step) && WatchGuard(step) && AppOk(s, s.threads[t].app)
    ensures ThreadsOk(ApplyWatch(s, t, step), s.threads[t].app)
  {
    if step.Relaunch? || step.RelaunchRecorded? {
      LaunchStepKeepsThreads(s, t, step);
    } else {
      QuietStepKeepsThreads(s, t, step);
    }
  }

  lemma LaunchStepKeepsThreads(s: State, t: Tid, step: WatchStep)
    requires HostOk(s) && WatchEnabled(s, t, step) && WatchGuard(step) && AppOk(s, s.threads[t].app)
    requires step.Relaunch? || step.RelaunchRecorded?
    ensures ThreadsOk(ApplyWatch(s, t, step), s.threads[t].app)
  {
    assert ThreadOk(s, t);
    RegisteredIsAlone(s, t);
  }

  /** A registered watcher is the only thread of its app. */
  lemma RegisteredIsAlone(s: State, t: Tid)
    requires WatcherAt(s, t) && ThreadsOk(s, s.threads[t].app) && s.threads[t].app in s.watches
    ensures forall u :: u in s.threads && s.threads[u].app == s.threads[t].app ==> u == s.watches[s.threads[t].app]
  {
    forall u | u in s.threads && s.threads[u].app == s.threads[t].app
      ensures u == s.watches[s.threads[t].app]
    {
      assert ThreadOk(s, u);
    }
  }

  lemma QuietStepKeepsThreads(s: State, t: Tid, step: WatchStep)
    requires HostOk(s) && WatchEnabled(s, t, step) && WatchGuard(step) && AppOk(s, s.threads[t].app)
    requires !step.Relaunch? && !step.RelaunchRecorded?
    ensures ThreadsOk(ApplyWatch(s, t, step), s.threads[t].app)
  {
    if step.Leave? {
      LeaveKeepsThreads(s, t);
    } else {
      QuietStepKeepsThread(s, t, step);
    }
  }

  lemma LeaveKeepsThreads(s: State, t: Tid)
    requires WatchEnabled(s, t, Leave) && AppOk(s, s.threads[t].app)
    ensures ThreadsOk(ApplyWatch(s, t, Leave), s.threads[t].app)
  {
  }

  lemma QuietStepKeepsThread(s: State, t: Tid, step: WatchStep)
    requires HostOk(s) && WatchEnabled(s, t, step) && WatchGuard(step) && AppOk(s, s.threads[t].app)
    requires !step.Relaunch? && !step.RelaunchRecorded? && !step.Leave?
    ensures ThreadsOk(ApplyWatch(s, t, step), s.threads[t].app)
  {
    var a := s.threads[t].app;
    var s' := ApplyWatch(s, t, step);
    QuietStepKeepsOwnThread(s, t, step);
    forall u | u in s'.threads && s'.threads[u].app == a && u != t
      ensures u < s'.nextTid && a !in s'.pending && ThreadOk(s', u)
    {
      assert u in s.threads && s'.threads[u] == s.threads[u] && ThreadOk(s, u);
      QuietStepKeepsSibling(s, t, step, u);
    }
  }

  lemma QuietStepKeepsOwnThread(s: State, t: Tid, step: WatchStep)
    requires HostOk(s) && WatchEnabled(s, t, step) && WatchGuard(step) && AppOk(s, s.threads[t].app)
    requires !step.Relaunch? && !step.RelaunchRecorded? && !step.Leave?
    ensures t in ApplyWatch(s, t, step).threads && ThreadOk(ApplyWatch(s, t, step), t)
  {
    assert ThreadOk(s, t);
  }

  lemma QuietStepKeepsSibling(s: State, t: Tid, step: WatchStep, u: Tid)
    requires WatchEnabled(s, t, step) && !step.Relaunch? && !step.RelaunchRecorded? && !step.Leave?
    requires u in s.threads && u != t && s.threads[u].app == s.threads[t].app && ThreadOk(s, u)
    ensures u in ApplyWatch(s, t, step).threads && ThreadOk(ApplyWatch(s, t, step), u)
  {
  }

  lemma WatchKeepsRow(s: State, t: Tid, step: WatchStep)
    requires HostOk(s) && WatchEnabled(s, t, step) && WatchGuard(step) && AppOk(s, s.threads[t].app)
    ensures RowOk(ApplyWatch(s, t, step), s.threads[t].app)
  {
    var th := s.threads[t];
    CommitKeepsWitnesses(s, t, WatchEffect(th, Lookup(s.rows, th.app), Lookup(s.policies, th.app), step), th.app);
    if step.Relaunch? && step.out.Launched? {
      assert AwaitsInsert(ApplyWatch(s, t, step).threads[t]);
    }
  }

  lemma WatchKeepsCovered(s: State, t: Tid, step: WatchStep)
    requires HostOk(s) && WatchEnabled(s, t, step) && WatchGuard(step) && AppOk(s, s.threads[t].app)
    ensures Covered(ApplyWatch(s, t, step), s.threads[t].app)
  {
    var th := s.threads[t];
    CommitKeepsWitnesses(s, t, WatchEffect(th, Lookup(s.rows, th.app), Lookup(s.policies, th.app), step), th.app);
  }

  // a StopApp call

  /** While a StopApp call runs, no launch of its app is under way. */
  lemma StopperExcludesLaunch(s: State, t: Tid)
    requires StopperAt(s, t) && ThreadsOk(s, s.threads[t].app)
    ensures !Awaiting(s, s.threads[t].app)
  {
    assert ThreadOk(s, t);
    forall u | u in s.threads && s.threads[u].app == s.threads[t].app
      ensures !AwaitsInsert(s.threads[u])
    {
      assert ThreadOk(s, u);
    }
  }

  lemma StopKeepsOwn(s: State, t: Tid, step: StopStep)
    requires HostOk(s) && StopEnabled(s, t, step) && StopGuard(s, t, step)
    requires AppOk(s, s.threads[t].app)
    ensures AppOk(ApplyStop(s, t, step), s.threads[t].app)
  {
    var th := s.threads[t];
    var s' := ApplyStop(s, t, step);
    StopperExcludesLaunch(s, t);
    assert ThreadOk(s, t);
    if t in s'.threads {
      assert !s'.threads[t].Watcher?;
      assert HasCommand(s', th.app);
    } else {
      assert NoLive(s, th.app);
    }
  }

  // a StartApp call

  lemma StartKeepsOwn(s: State, t: Tid, step: StartStep)
    requires HostOk(s) && StartEnabled(s, t, step) && StartGuard(s, t, step) && !step.Register?
    requires AppOk(s, s.threads[t].app)
    ensures AppOk(ApplyStart(s, t, step), s.threads[t].app)
  {
    var th := s.threads[t];
    var s' := ApplyStart(s, t, step);
    assert ThreadOk(s, t);
    if t in s'.threads {
      assert !s'.threads[t].Watcher?;
      assert HasCommand(s', th.app);
      assert s'.threads[t].spc.SInsert? ==> AwaitsInsert(s'.threads[t]);
    }
  }

  lemma RegisterKeepsOwn(s: State, t: Tid)
    requires HostOk(s) && StartEnabled(s, t, Register)
    requires AppOk(s, s.threads[t].app)
    ensures AppOk(ApplyStart(s, t, Register), s.threads[t].app)
  {
    assert ThreadOk(s, t);
    assert !Awaiting(s, s.threads[t].app);
  }

  lemma RegisterKeepsOther(s: State, t: Tid, b: App)
    requires StartEnabled(s, t, Register) && s.threads[t].app != b
    requires AppOk(s, b) && ThreadsOk(s, s.threads[t].app) && s.nextTid !in s.threads
    ensures AppOk(ApplyStart(s, t, Register), b)
  {
    var a := s.threads[t].app;
    assert ThreadOk(s, t);
    var r := StartWatcher(s, a, s.threads[t].spc.h);
    if !s.shutdown {
      AddKeepsOther(s, Watcher(a, false, Waiting(s.threads[t].spc.h)), s.watches[a := s.nextTid], b);
      assert r == WithThread(s, Watcher(a, false, Waiting(s.threads[t].spc.h)), s.watches[a := s.nextTid]);
    }
    CommitKeepsOther(r, t, ENDS, b);
  }

  // ----- the other steps -----

  function WithThread(s: State, th: Thread, watches: map<App, Tid>): State {
    s.(threads := s.threads[s.nextTid := th], watches := watches, nextTid := s.nextTid + 1)
  }

  /** A new thread of another app does not matter to `b`. */
  lemma AddKeepsOther(s: State, th: Thread, watches: map<App, Tid>, b: App)
    requires AppOk(s, b) && th.app != b && s.nextTid !in s.threads
    requires (b in watches) == (b in s.watches) && (b in watches ==> watches[b] == s.watches[b])
    ensures AppOk(WithThread(s, th, watches), b)
  {
    var s' := WithThread(s, th, watches);
    assert forall u :: u in s.threads ==> u in s'.threads && s'.threads[u] == s.threads[u];
    assert Awaiting(s, b) ==> Awaiting(s', b);
    assert HasCommand(s, b) ==> HasCommand(s', b);
  }

  ghost predicate AllApps(s: State) {
    forall a :: AppOk(s, a)
  }

  lemma NextTidUnused(s: State)
    requires AllApps(s)
    ensures s.nextTid !in s.threads
  {
    forall t | t in s.threads
      ensures t < s.nextTid
    {
      assert AppOk(s, s.threads[t].app);
    }
  }

  /** Where the guards let a start begin, the app has no thread and no process. */
  lemma StartFindsNothing(s: State, a: App)
    requires AllApps(s) && Enabled(s, BeginStart(a)) && Guarded(s, BeginStart(a))
    ensures forall u :: u in s.threads ==> s.threads[u].app != a
    ensures NoLive(s, a)
  {
    forall u | u in s.threads
      ensures s.threads[u].app != a
    {
      assert AppOk(s, s.threads[u].app);
      assert ThreadOk(s, u);
    }
    assert AppOk(s, a);
  }

  lemma BeginStartKeeps(s: State, a: App, b: App)
    requires AllApps(s) && Enabled(s, BeginStart(a)) && Guarded(s, BeginStart(a))
    ensures AppOk(Apply(s, BeginStart(a)), b)
  {
    var s' := Apply(s, BeginStart(a));
    NextTidUnused(s);
    assert s' == WithThread(s, Starter(a, SBuild), s.watches);
    assert AppOk(s, b);
    if a != b {
      AddKeepsOther(s, Starter(a, SBuild), s.watches, b);
    } else {
      StartFindsNothing(s, a);
      assert HasCommand(s', b) by { assert !s'.threads[s.nextTid].Watcher?; }
    }
  }

  /** cancelWatcher for another app does not matter to `b`. */
  lemma CancelKeepsOther(s: State, a: App, b: App)
    requires AppOk(s, b) && AppOk(s, a) && a != b
    ensures AppOk(CancelWatcher(s, a), b)
  {
    var s' := CancelWatcher(s, a);
    CancelKeepsOtherThreads(s, a, b);
    assert Awaiting(s, b) ==> Awaiting(s', b);
    assert HasCommand(s, b) ==> HasCommand(s', b);
  }

  lemma CancelKeepsOtherThreads(s: State, a: App, b: App)
    requires ThreadsOk(s, b) && ThreadsOk(s, a) && a != b
    ensures ThreadsOk(CancelWatcher(s, a), b)
    ensures forall u :: u in s.threads && s.threads[u].app == b ==>
              u in CancelWatcher(s, a).threads && CancelWatcher(s, a).threads[u] == s.threads[u]
  {
  }

  lemma BeginStopKeepsOwn(s: State, a: App)
    requires AppOk(s, a) && s.nextTid !in s.threads && Enabled(s, BeginStop(a)) && Guarded(s, BeginStop(a))
    ensures AppOk(Apply(s, BeginStop(a)), a)
  {
    var s' := Apply(s, BeginStop(a));
    assert HasCommand(s', a) by { assert !s'.threads[s.nextTid].Watcher?; }
    assert !Awaiting(s, a);
  }

  lemma BeginStopKeeps(s: State, a: App, b: App)
    requires AllApps(s) && Enabled(s, BeginStop(a)) && Guarded(s, BeginStop(a))
    ensures AppOk(Apply(s, BeginStop(a)), b)
  {
    NextTidUnused(s);
    assert AppOk(s, a) && AppOk(s, b);
    if a == b {
      BeginStopKeepsOwn(s, a);
    } else {
      CancelKeepsOther(s, a, b);
      var c := CancelWatcher(s, a);
      AddKeepsOther(c, Stopper(a, TRead), c.watches, b);
      assert Apply(s, BeginStop(a)) == WithThread(c, Stopper(a, TRead), c.watches);
    }
  }

  lemma ShutdownKeeps(s: State, b: App)
    requires AllApps(s) && Guarded(s, Shutdown)
    ensures AppOk(ShutdownAll(s), b)
  {
    var s' := ShutdownAll(s);
    assert AppOk(s, b);
    assert forall t :: t in s.threads && AwaitsInsert(s.threads[t]) ==> s'.threads[t] == s.threads[t];
    assert Awaiting(s, b) ==> Awaiting(s', b);
    forall t | t in s.threads && s.threads[t].app == b
      ensures ThreadOk(s', t)
    {
      assert ThreadOk(s, t);
    }
  }

  lemma RestartKeeps(s: State, b: App)
    requires AllApps(s) && Guarded(s, Restart)
    ensures AppOk(Apply(s, Restart), b)
  {
    assert AppOk(s, b);
    assert !Awaiting(s, b);
  }

  lemma RegisterDuringReconcile(s: State, a: App, h: Handle, b: App)
    requires a == b ==>
        RowIs(s, a, h) && RowActive(s, a) && OnlyLive(s, a, h) && AppOk(s.(pending := s.pending + {a}), a)
    requires a != b ==> AppOk(s, b) && s.nextTid !in s.threads
    requires forall u :: u in s.threads ==> s.threads[u].app != a
    requires a !in s.pending && a !in s.watches
    ensures AppOk(StartWatcher(s, a, h), b)
  {
    if !s.shutdown {
      assert StartWatcher(s, a, h) == WithThread(s, Watcher(a, false, Waiting(h)), s.watches[a := s.nextTid]);
      if a != b {
        AddKeepsOther(s, Watcher(a, false, Waiting(h)), s.watches[a := s.nextTid], b);
      } else {
        assert !Awaiting(s, a);
      }
    }
  }

  /** Discovery cannot turn up a second process: one carrying the row's instance id is the row's own process. */
  lemma DiscoveryMeansAlive(s: State, a: App, p: Proc)
    requires HostOk(s) && AppOk(s, a) && a in s.rows
    requires p in s.live && p.owner.Managed? && p.owner.inst == s.rows[a].h.inst
    ensures IsAlive(s, s.rows[a].h)
  {
    var own := Proc(s.rows[a].h.pid, s.rows[a].h.ctime, Managed(a, s.rows[a].h.inst));
    assert SameInstance(p, own);
  }

  /** Before an app is reconciled, only the row's own process can be live. */
  lemma AliveRowIsOwn(s: State, a: App)
    requires HostOk(s) && AppOk(s, a) && a in s.pending
    ensures a in s.rows ==> OnlyLive(s, a, s.rows[a].h)
    ensures !(RowActive(s, a) && IsAlive(s, s.rows[a].h)) ==> NoLive(s, a)
  {
    assert !Awaiting(s, a);
  }

  lemma DropPendingKeeps(s: State, a: App, b: App)
    requires AppOk(s, b) && (a == b ==> NoLive(s, a))
    ensures AppOk(s.(pending := s.pending - {a}), b)
  {
  }

  lemma MarkKeeps(s: State, a: App, state: RowState, b: App)
    requires AppOk(s, b) && (a == b ==> NoLive(s, a))
    ensures AppOk(MarkState(s, a, state), b)
  {
  }

  lemma ReconcileKeeps(s: State, a: App, found: Option<Proc>, writeOk: bool, b: App)
    requires HostOk(s) && AllApps(s) && Enabled(s, ReconcileApp(a, true, found, writeOk))
    ensures AppOk(AfterReconcile(s, a, true, found, writeOk), b)
  {
    assert AppOk(s, a) && AppOk(s, b);
    if found.Some? {
      DiscoveryMeansAlive(s, a, found.value);
    }
    if RowActive(s, a) && IsAlive(s, s.rows[a].h) {
      ReattachKeeps(s, a, b);
    } else {
      AliveRowIsOwn(s, a);
      DropPendingKeeps(s, a, b);
      if writeOk {
        MarkKeeps(s.(pending := s.pending - {a}), a, Stopped, b);
      }
    }
  }

  lemma ReattachKeeps(s: State, a: App, b: App)
    requires HostOk(s) && AllApps(s) && a in s.pending && RowActive(s, a) && IsAlive(s, s.rows[a].h)
    ensures AppOk(StartWatcher(s.(pending := s.pending - {a}), a, s.rows[a].h), b)
  {
    assert AppOk(s, a) && AppOk(s, b);
    NextTidUnused(s);
    AliveRowIsOwn(s, a);
    var d := s.(pending := s.pending - {a});
    assert d.(pending := d.pending + {a}) == s;
    RegisterDuringReconcile(d, a, s.rows[a].h, b);
  }

  lemma HostStepKeeps(s: State, step: Step, b: App)
    requires AppOk(s, b) && Enabled(s, step) && (step.ProcExits? || step.ForeignStarts? || step.SetPolicy?)
    ensures AppOk(Apply(s, step), b)
  {
    var s' := Apply(s, step);
    HostStepKeepsThreads(s, step, b);
    assert Awaiting(s, b) ==> Awaiting(s', b);
    assert HasCommand(s, b) ==> HasCommand(s', b);
  }

  lemma HostStepKeepsThreads(s: State, step: Step, b: App)
    requires ThreadsOk(s, b) && Enabled(s, step) && (step.ProcExits? || step.ForeignStarts? || step.SetPolicy?)
    ensures ThreadsOk(Apply(s, step), b)
  {
    var s' := Apply(s, step);
    forall u | u in s'.threads && s'.threads[u].app == b
      ensures ThreadOk(s', u)
    {
      assert ThreadOk(s, u);
    }
  }

  lemma HostOkCommit(s: State, t: Tid, e: Effect)
    requires HostOk(s) && t in s.threads && forall p :: p in e.spawned ==> Fresh(s, p)
    requires forall p, q :: p in e.spawned && q in e.spawned ==> p == q
    ensures HostOk(Commit(s, t, e))
  {
  }

  lemma HostOkStep(s: State, step: Step)
    requires HostOk(s) && Enabled(s, step) && Guarded(s, step)
    ensures HostOk(Apply(s, step))
  {
    match step
    case OfStart(t, Register) => HostOkCommit(StartWatcher(s, s.threads[t].app, s.threads[t].spc.h), t, ENDS);
    case OfStart(t, start) => HostOkCommit(s, t, StartEffect(s.threads[t], start));
    case OfStop(t, stop) =>
      HostOkCommit(s, t, StopEffect(s.threads[t], Lookup(s.rows, s.threads[t].app), s.live, stop));
    case OfWatch(t, watch) =>
      var a := s.threads[t].app;
      HostOkCommit(s, t, WatchEffect(s.threads[t], Lookup(s.rows, a), Lookup(s.policies, a), watch));
    case _ => HostOkOther(s, step);
  }

  lemma HostOkOther(s: State, step: Step)
    requires HostOk(s) && Enabled(s, step) && !step.OfStart? && !step.OfStop? && !step.OfWatch?
    ensures HostOk(Apply(s, step))
  {
    match step
    case ForeignStarts(p) => HostOkForeign(s, p);
    case ProcExits(p) =>
    case _ => SameHost(s, step);
  }

  lemma HostOkForeign(s: State, p: Proc)
    requires HostOk(s) && Enabled(s, ForeignStarts(p))
    ensures HostOk(Apply(s, ForeignStarts(p)))
  {
  }

  lemma SameHost(s: State, step: Step)
    requires Enabled(s, step) && !step.OfStart? && !step.OfStop? && !step.OfWatch? && !step.ProcExits?
        && !step.ForeignStarts?
    ensures Apply(s, step).live == s.live && Apply(s, step).past == s.past
  {
  }

  // ----- whole runs -----

  lemma ThreadStepKeeps(s: State, step: Step, b: App)
    requires Inv(s) && Enabled(s, step) && Guarded(s, step)
    requires step.OfStart? || step.OfStop? || step.OfWatch?
    ensures AppOk(Apply(s, step), b)
  {
    var t := step.t;
    var th := s.threads[t];
    assert AppOk(s, b) && AppOk(s, th.app);
    NextTidUnused(s);
    match step
    case OfStart(_, Register) => if th.app == b { RegisterKeepsOwn(s, t); } else { RegisterKeepsOther(s, t, b); }
    case OfStart(_, start) =>
      if th.app == b { StartKeepsOwn(s, t, start); } else { CommitKeepsOther(s, t, StartEffect(th, start), b); }
    case OfStop(_, stop) =>
      if th.app == b { StopKeepsOwn(s, t, stop); }
      else { CommitKeepsOther(s, t, StopEffect(th, Lookup(s.rows, th.app), s.live, stop), b); }
    case OfWatch(_, watch) =>
      if th.app == b {
        WatchKeepsThreads(s, t, watch); WatchKeepsRow(s, t, watch); WatchKeepsCovered(s, t, watch);
      } else {
        CommitKeepsOther(s, t, WatchEffect(th, Lookup(s.rows, th.app), Lookup(s.policies, th.app), watch), b);
      }
  }

  lemma InvStep(s: State, step: Step)
    requires Inv(s) && Enabled(s, step) && Guarded(s, step)
    ensures Inv(Apply(s, step))
  {
    HostOkStep(s, step);
    forall b
      ensures AppOk(Apply(s, step), b)
    {
      assert AppOk(s, b);
      match step
      case BeginStart(a) => BeginStartKeeps(s, a, b);
      case BeginStop(a) => BeginStopKeeps(s, a, b);
      case Shutdown => ShutdownKeeps(s, b);
      case Restart => RestartKeeps(s, b);
      case ReconcileApp(a, _, found, writeOk) => ReconcileKeeps(s, a, found, writeOk, b);
      case SetPolicy(_, _) => HostStepKeeps(s, step, b);
      case ProcExits(_) => HostStepKeeps(s, step, b);
      case ForeignStarts(_) => HostStepKeeps(s, step, b);
      case _ => ThreadStepKeeps(s, step, b);
    }
  }

  lemma {:induction false} InvRun(s: State, steps: seq<Step>)
    requires Inv(s) && Run(s, steps) && GuardedRun(s, steps)
    ensures Inv(Exec(s, steps))
    decreases |steps|
  {
    if steps != [] {
      InvStep(s, steps[0]);
      InvRun(Apply(s, steps[0]), steps[1..]);
    }
  }

  /** On every guarded run of a fresh installation, through any number of shutdowns, crashes and reconciliations. */
  lemma GuardedRunsStaySupervised(s: State, steps: seq<Step>)
    requires Init(s) && Run(s, steps) && GuardedRun(s, steps)
    ensures Supervised(Exec(s, steps))
  {
    InvInitially(s);
    InvRun(s, steps);
    InvImpliesSupervised(Exec(s, steps));
  }
}
