/** What holds on every schedule, with every call allowed to fail: how far a cancelled watcher can still
    get, and how high restart_count can climb. */
module ProtocolBounds {
  import opened Common
  import opened Protocol

  // ----- a cancelled watcher -----

  /** The step starts a process on behalf of watcher `t`, whether or not JARVIS gets to identify it. */
  predicate StartsProcess(step: Step, t: Tid) {
    step.OfWatch? && step.t == t && step.watch.Relaunch? && !step.watch.out.LaunchFailed?
  }

  function LaunchesBy(steps: seq<Step>, t: Tid): nat {
    if steps == [] then 0
    else (if StartsProcess(steps[0], t) then 1 else 0) + LaunchesBy(steps[1..], t)
  }

  /** Thread ids are handed out once. */
  ghost predicate TidsBelow(s: State) {
    forall t :: t in s.threads ==> t < s.nextTid
  }

  lemma TidsStayBelow(s: State, step: Step)
    requires TidsBelow(s) && Enabled(s, step)
    ensures TidsBelow(Apply(s, step)) && s.nextTid <= Apply(s, step).nextTid
  {
    match step
    case OfStart(t, start) => TidsInStart(s, t, start);
    case OfStop(t, stop) => TidsInStop(s, t, stop);
    case OfWatch(t, watch) => TidsInWatch(s, t, watch);
    case _ =>
  }

  lemma TidsInStart(s: State, t: Tid, step: StartStep)
    requires TidsBelow(s) && StartEnabled(s, t, step)
    ensures TidsBelow(ApplyStart(s, t, step)) && s.nextTid <= ApplyStart(s, t, step).nextTid
  {
  }

  lemma TidsInStop(s: State, t: Tid, step: StopStep)
    requires TidsBelow(s) && StopEnabled(s, t, step)
    ensures TidsBelow(ApplyStop(s, t, step)) && s.nextTid <= ApplyStop(s, t, step).nextTid
  {
  }

  lemma TidsInWatch(s: State, t: Tid, step: WatchStep)
    requires TidsBelow(s) && WatchEnabled(s, t, step)
    ensures TidsBelow(ApplyWatch(s, t, step)) && s.nextTid <= ApplyWatch(s, t, step).nextTid
  {
  }

  /** How many processes watcher `t` may still start once it is cancelled. */
  function Budget(s: State, t: Tid): nat {
    if WatcherAt(s, t) && s.threads[t].pc.Launching? then 1 else 0
  }

  predicate CancelledOrGone(s: State, t: Tid) {
    t < s.nextTid && (t in s.threads ==> s.threads[t].Watcher? && s.threads[t].cancelled)
  }

  lemma CancelledStep(s: State, step: Step, t: Tid)
    requires TidsBelow(s) && CancelledOrGone(s, t) && Enabled(s, step)
    ensures CancelledOrGone(Apply(s, step), t)
    ensures (if StartsProcess(step, t) then 1 else 0) + Budget(Apply(s, step), t) <= Budget(s, t)
  {
    match step
    case OfStart(u, start) => CancelledInStart(s, u, start, t);
    case OfStop(u, stop) => CancelledInStop(s, u, stop, t);
    case OfWatch(u, watch) => CancelledInWatch(s, u, watch, t);
    case _ =>
  }

  lemma CancelledInStart(s: State, u: Tid, step: StartStep, t: Tid)
    requires TidsBelow(s) && CancelledOrGone(s, t) && StartEnabled(s, u, step)
    ensures CancelledOrGone(ApplyStart(s, u, step), t)
    ensures Budget(ApplyStart(s, u, step), t) <= Budget(s, t)
  {
  }

  lemma CancelledInStop(s: State, u: Tid, step: StopStep, t: Tid)
    requires TidsBelow(s) && CancelledOrGone(s, t) && StopEnabled(s, u, step)
    ensures CancelledOrGone(ApplyStop(s, u, step), t)
    ensures Budget(ApplyStop(s, u, step), t) <= Budget(s, t)
  {
  }

  lemma CancelledInWatch(s: State, u: Tid, step: WatchStep, t: Tid)
    requires TidsBelow(s) && CancelledOrGone(s, t) && WatchEnabled(s, u, step)
    ensures CancelledOrGone(ApplyWatch(s, u, step), t)
    ensures (if StartsProcess(OfWatch(u, step), t) then 1 else 0) + Budget(ApplyWatch(s, u, step), t) <= Budget(s, t)
  {
  }

  /** Whatever the others do and whichever way a select with two ready cases goes, a cancelled watcher makes at most one
      further launch, and none unless the cancel came after its last context-checked read. */
  lemma CancelledWatcherLaunches(s: State, steps: seq<Step>, t: Tid)
    requires TidsBelow(s) && CancelledOrGone(s, t) && Run(s, steps)
    ensures LaunchesBy(steps, t) <= Budget(s, t) <= 1
    ensures ProcessesBy(steps, t) <= 2 * LaunchesBy(steps, t)
    ensures NeverRetries(steps, t) ==> ProcessesBy(steps, t) <= LaunchesBy(steps, t)
  {
    LaunchesWithinBudget(s, steps, t);
    ProcessesOfLaunches(steps, t);
  }

  lemma {:induction false} LaunchesWithinBudget(s: State, steps: seq<Step>, t: Tid)
    requires TidsBelow(s) && CancelledOrGone(s, t) && Run(s, steps)
    ensures LaunchesBy(steps, t) <= Budget(s, t)
    decreases |steps|
  {
    if steps != [] {
      CancelledStep(s, steps[0], t);
      TidsStayBelow(s, steps[0]);
      LaunchesWithinBudget(Apply(s, steps[0]), steps[1..], t);
    }
  }

  lemma {:induction false} ProcessesOfLaunches(steps: seq<Step>, t: Tid)
    ensures ProcessesBy(steps, t) <= 2 * LaunchesBy(steps, t)
    ensures NeverRetries(steps, t) ==> ProcessesBy(steps, t) <= LaunchesBy(steps, t)
  {
    if steps != [] {
      ProcessesOfLaunches(steps[1..], t);
      if StartsProcess(steps[0], t) {
        OneLaunch(steps[0].watch.out);
      }
      if NeverRetries(steps, t) {
        assert forall i :: 0 <= i < |steps[1..]| ==> steps[1..][i] == steps[i + 1];
      }
    }
  }

  lemma OneLaunch(out: LaunchResult)
    ensures |Started(out)| <= if IsRetried(out) then 2 else 1
  {
    if IsRetried(out) {
      assert |Started(out) - {out.p}| <= |{out.lost}|;
    }
  }

  /** The processes watcher `t` starts. A launch is one process, or two where it is retried. */
  function ProcessesBy(steps: seq<Step>, t: Tid): nat {
    if steps == [] then 0
    else (if StartsProcess(steps[0], t) then |Started(steps[0].watch.out)| else 0) + ProcessesBy(steps[1..], t)
  }

  predicate NeverRetries(steps: seq<Step>, t: Tid) {
    forall i :: 0 <= i < |steps| && StartsProcess(steps[i], t) ==> !IsRetried(steps[i].watch.out)
  }

  /** A retry can start two, although the watcher was cancelled. */
  lemma RetryStartsTwo(s: State, t: Tid, lost: Proc, p: Proc)
    requires WatcherAt(s, t) && s.threads[t].cancelled && s.threads[t].pc.Launching?
    requires Fresh(s, lost) && Fresh(s, p) && lost.owner == p.owner && lost.pid != p.pid
    requires p.owner.Managed? && p.owner.app == s.threads[t].app
    ensures var run := [OfWatch(t, Relaunch(LaunchedAgain(lost, p)))];
            Run(s, run) && ProcessesBy(run, t) == 2 && lost in Exec(s, run).live && p in Exec(s, run).live
  {
    var run := [OfWatch(t, Relaunch(LaunchedAgain(lost, p)))];
    assert run[1..] == [];
    assert Enabled(s, run[0]);
    assert Run(Apply(s, run[0]), run[1..]);
    assert Exec(s, run) == Exec(Apply(s, run[0]), run[1..]);
    assert |Started(run[0].watch.out)| == 2;
    assert ProcessesBy(run[1..], t) == 0;
  }

  /** The one launch is real: past the last check nothing stops it. */
  lemma LateCancelStillLaunches(s: State, t: Tid, p: Proc)
    requires WatcherAt(s, t) && s.threads[t].cancelled && s.threads[t].pc.Launching?
    requires Fresh(s, p) && p.owner.Managed? && p.owner.app == s.threads[t].app
    ensures Run(s, [OfWatch(t, Relaunch(Launched(p)))]) && LaunchesBy([OfWatch(t, Relaunch(Launched(p)))], t) == 1
    ensures p in Exec(s, [OfWatch(t, Relaunch(Launched(p)))]).live
  {
    var run := [OfWatch(t, Relaunch(Launched(p)))];
    assert run[1..] == [];
    assert Enabled(s, run[0]);
    assert Run(Apply(s, run[0]), run[1..]);
    assert Exec(s, run) == Exec(Apply(s, run[0]), run[1..]);
    assert StartsProcess(run[0], t);
    assert LaunchesBy(run[1..], t) == 0;
  }

  // ----- restart_count -----

  /** The policy of `a` is never changed away from max_restarts = m. */
  predicate KeepsMax(steps: seq<Step>, a: App, m: nat) {
    forall i :: 0 <= i < |steps| ==> steps[i].SetPolicy? && steps[i].app == a ==> steps[i].policy.maxRestarts == m
  }

  /** The restart_count a watcher has read and will write back incremented. */
  predicate CarriesCount(pc: WatchPc) {
    pc.Marking? || pc.Backoff? || pc.Building? || pc.Launching? || pc.Inserting?
  }

  predicate ThreadCountBound(th: Thread, a: App, m: nat) {
    th.Watcher? && th.app == a ==>
      && (th.pc.Counting? ==> th.pc.max == m)
      && (CarriesCount(th.pc) ==> th.pc.count < m)
  }

  ghost predicate CountBound(s: State, a: App, m: nat) {
    && (a in s.policies ==> s.policies[a].maxRestarts == m)
    && (a in s.rows ==> s.rows[a].restarts <= m)
    && (forall t :: t in s.threads ==> ThreadCountBound(s.threads[t], a, m))
  }

  lemma CountBoundStep(s: State, step: Step, a: App, m: nat)
    requires m > 0 && CountBound(s, a, m) && Enabled(s, step)
    requires step.SetPolicy? && step.app == a ==> step.policy.maxRestarts == m
    ensures CountBound(Apply(s, step), a, m)
  {
    match step
    case OfStart(t, start) => CountBoundInStart(s, t, start, a, m);
    case OfStop(t, stop) => CountBoundInStop(s, t, stop, a, m);
    case OfWatch(t, watch) => CountBoundInWatch(s, t, watch, a, m);
    case BeginStop(b) => CountBoundCancel(s, b, a, m);
    case Shutdown => CountBoundShutdown(s, a, m);
    case ReconcileApp(b, checkOk, found, writeOk) => CountBoundReconcile(s, b, checkOk, found, writeOk, a, m);
    case _ =>
  }

  lemma CountBoundCancel(s: State, b: App, a: App, m: nat)
    requires CountBound(s, a, m)
    ensures CountBound(CancelWatcher(s, b), a, m)
  {
  }

  lemma CountBoundShutdown(s: State, a: App, m: nat)
    requires CountBound(s, a, m)
    ensures CountBound(ShutdownAll(s), a, m)
  {
  }

  lemma CountBoundRegister(s: State, b: App, h: Handle, a: App, m: nat)
    requires CountBound(s, a, m)
    ensures CountBound(StartWatcher(s, b, h), a, m)
  {
  }

  lemma CountBoundReconcile(s: State, b: App, checkOk: bool, found: Option<Proc>, writeOk: bool, a: App, m: nat)
    requires CountBound(s, a, m) && Enabled(s, ReconcileApp(b, checkOk, found, writeOk))
    ensures CountBound(AfterReconcile(s, b, checkOk, found, writeOk), a, m)
  {
    var d := s.(pending := s.pending - {b});
    if b in s.rows {
      CountBoundRegister(d, b, s.rows[b].h, a, m);
    }
    if found.Some? {
      CountBoundRegister(UpdateInstance(d, b, HandleOf(found.value)), b, HandleOf(found.value), a, m);
    }
  }

  lemma CountBoundInStart(s: State, t: Tid, step: StartStep, a: App, m: nat)
    requires m > 0 && CountBound(s, a, m) && StartEnabled(s, t, step)
    ensures CountBound(ApplyStart(s, t, step), a, m)
  {
  }

  lemma CountBoundInStop(s: State, t: Tid, step: StopStep, a: App, m: nat)
    requires m > 0 && CountBound(s, a, m) && StopEnabled(s, t, step)
    ensures CountBound(ApplyStop(s, t, step), a, m)
  {
  }

  lemma CountBoundInWatch(s: State, t: Tid, step: WatchStep, a: App, m: nat)
    requires m > 0 && CountBound(s, a, m) && WatchEnabled(s, t, step)
    ensures CountBound(ApplyWatch(s, t, step), a, m)
  {
  }

  /** For a fixed max_restarts above zero, restart_count never exceeds it: under every interleaving, failure and
      restart. */
  lemma {:induction false} RestartCountBounded(s: State, steps: seq<Step>, a: App, m: nat)
    requires m > 0 && CountBound(s, a, m) && Run(s, steps) && KeepsMax(steps, a, m)
    ensures CountBound(Exec(s, steps), a, m)
    decreases |steps|
  {
    if steps != [] {
      CountBoundStep(s, steps[0], a, m);
      assert KeepsMax(steps[1..], a, m) by {
        forall i | 0 <= i < |steps[1..]| && steps[1..][i].SetPolicy? && steps[1..][i].app == a
          ensures steps[1..][i].policy.maxRestarts == m
        {
          assert steps[1..][i] == steps[i + 1];
        }
      }
      RestartCountBounded(Apply(s, steps[0]), steps[1..], a, m);
    }
  }

  lemma RestartCountBoundedFromInit(s: State, steps: seq<Step>, a: App, m: nat)
    requires m > 0 && Init(s) && (a in s.policies ==> s.policies[a].maxRestarts == m)
    requires Run(s, steps) && KeepsMax(steps, a, m)
    ensures a in Exec(s, steps).rows ==> Exec(s, steps).rows[a].restarts <= m
  {
    RestartCountBounded(s, steps, a, m);
  }
}
