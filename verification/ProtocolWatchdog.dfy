/** What the watchdog decides, read off whole runs: when it relaunches, when it does not, and what an app's row says
    afterwards. Nothing here restricts the schedule. */
module ProtocolWatchdog {
  import opened Common
  import opened Protocol

  // ----- a watchdog that is off -----

  /** The watcher has not read a policy since it last saw its process exit, or has nothing left to relaunch. */
  predicate Undecided(pc: WatchPc) {
    pc.Waiting? || pc.Exited? || pc.Closing? || pc.Returning?
  }

  ghost predicate Off(s: State, a: App) {
    && (a in s.policies ==> !s.policies[a].watchdog)
    && forall t :: t in s.threads && s.threads[t].Watcher? && s.threads[t].app == a ==> Undecided(s.threads[t].pc)
  }

  predicate NeverTurnedOn(steps: seq<Step>, a: App) {
    forall i :: 0 <= i < |steps| && steps[i].SetPolicy? && steps[i].app == a ==> !steps[i].policy.watchdog
  }

  lemma OffStep(s: State, step: Step, a: App)
    requires Off(s, a) && Enabled(s, step)
    requires step.SetPolicy? && step.app == a ==> !step.policy.watchdog
    ensures Off(Apply(s, step), a)
  {
    match step
    case OfWatch(t, watch) => OffInWatch(s, t, watch, a);
    case OfStart(t, start) => OffInStart(s, t, start, a);
    case ReconcileApp(b, checkOk, found, writeOk) => OffInReconcile(s, b, checkOk, found, writeOk, a);
    case _ =>
  }

  lemma OffInWatch(s: State, t: Tid, step: WatchStep, a: App)
    requires Off(s, a) && WatchEnabled(s, t, step)
    ensures Off(ApplyWatch(s, t, step), a)
  {
  }

  lemma OffInStart(s: State, t: Tid, step: StartStep, a: App)
    requires Off(s, a) && StartEnabled(s, t, step)
    ensures Off(ApplyStart(s, t, step), a)
  {
  }

  lemma OffInReconcile(s: State, b: App, checkOk: bool, found: Option<Proc>, writeOk: bool, a: App)
    requires Off(s, a) && Enabled(s, ReconcileApp(b, checkOk, found, writeOk))
    ensures Off(AfterReconcile(s, b, checkOk, found, writeOk), a)
  {
  }

  lemma OffLogsNothing(s: State, step: Step, a: App)
    requires Off(s, a) && Enabled(s, step)
    ensures s.log <= Apply(s, step).log && WatchdogLaunch(a) !in Apply(s, step).log[|s.log|..]
  {
    match step
    case OfStart(t, start) => assert Apply(s, step) == ApplyStart(s, t, start);
    case OfStop(t, stop) => assert Apply(s, step) == ApplyStop(s, t, stop);
    case OfWatch(t, watch) => assert Apply(s, step) == ApplyWatch(s, t, watch);
    case _ => assert Apply(s, step).log == s.log;
  }

  /** An app whose watchdog is off, and stays off, is never relaunched by it: under every schedule and every failure. */
  lemma {:induction false} OffNeverRelaunches(s: State, steps: seq<Step>, a: App)
    requires Off(s, a) && Run(s, steps) && NeverTurnedOn(steps, a)
    ensures s.log <= Exec(s, steps).log && WatchdogLaunch(a) !in Exec(s, steps).log[|s.log|..]
    decreases |steps|
  {
    if steps != [] {
      var s', rest := Apply(s, steps[0]), steps[1..];
      OffStep(s, steps[0], a);
      OffLogsNothing(s, steps[0], a);
      assert forall i :: 0 <= i < |rest| ==> rest[i] == steps[i + 1];
      OffNeverRelaunches(s', rest, a);
      var end := Exec(s', rest).log;
      assert end[|s.log|..] == s'.log[|s.log|..] + end[|s'.log|..];
    }
  }

  // ----- every relaunch was decided by a policy and a count that were read -----

  /** A run with the states in between. */
  ghost predicate Trace(states: seq<State>, steps: seq<Step>) {
    && |states| == |steps| + 1
    && forall i :: 0 <= i < |steps| ==> Enabled(states[i], steps[i]) && Apply(states[i], steps[i]) == states[i + 1]
  }

  /** Step j of watcher t reads a policy of `a` that is on, with the limit `max`. */
  predicate ReadsOn(states: seq<State>, steps: seq<Step>, t: Tid, a: App, max: nat, j: nat)
    requires |states| == |steps| + 1
  {
    j < |steps| && steps[j] == OfWatch(t, PolicyRead(true))
    && a in states[j].policies && states[j].policies[a] == Policy(true, max)
  }

  /** Step k of watcher t finds the count `count` of `a` below the limit `max`, where zero is no limit. A count that
      cannot be read is taken to be zero. */
  predicate ReadsBelow(states: seq<State>, steps: seq<Step>, t: Tid, a: App, max: nat, count: nat, k: nat)
    requires |states| == |steps| + 1
  {
    && k < |steps| && (steps[k] == OfWatch(t, CountRead(true)) || steps[k] == OfWatch(t, CountRead(false)))
    && count == (if steps[k].watch.ok && a in states[k].rows then states[k].rows[a].restarts else 0)
    && (max == 0 || count < max)
  }

  /** Watcher t waits for no exit between steps j and i. */
  predicate SameExit(steps: seq<Step>, t: Tid, j: nat, i: nat) {
    forall n :: j <= n < i && n < |steps| && steps[n].OfWatch? && steps[n].t == t ==> !steps[n].watch.WaitReturns?
  }

  ghost predicate DecidedOn(states: seq<State>, steps: seq<Step>, t: Tid, a: App, max: nat, j: nat, i: nat)
    requires |states| == |steps| + 1
  {
    j < i && ReadsOn(states, steps, t, a, max, j) && SameExit(steps, t, j, i)
  }

  /** Before step i, watcher t has read a policy that is on, and then the count `count` below its limit, both since it
      last saw a process exit. */
  ghost predicate Decided(states: seq<State>, steps: seq<Step>, t: Tid, a: App, count: nat, i: nat)
    requires |states| == |steps| + 1
  {
    exists j: nat, k: nat, max: nat ::
      && j < k < i
      && DecidedOn(states, steps, t, a, max, j, i) && ReadsBelow(states, steps, t, a, max, count, k)
  }

  predicate CarriesCount(pc: WatchPc) {
    pc.Marking? || pc.Backoff? || pc.Building? || pc.Launching? || pc.Inserting?
  }

  /** Step i of watcher t finds that the limit it read before is reached. */
  ghost predicate AtLimit(states: seq<State>, steps: seq<Step>, t: Tid, a: App, i: nat)
    requires |states| == |steps| + 1 && i < |steps|
  {
    && a in states[i].rows
    && exists j: nat, max: nat :: DecidedOn(states, steps, t, a, max, j, i) && 0 < max <= states[i].rows[a].restarts
  }

  /** The reason a watcher has to close an app's row with `final`: the watchdog was off or its policy could not be read,
      the cancel came during the backoff, the limit was reached, or the relaunch failed. */
  ghost predicate IsReason(states: seq<State>, steps: seq<Step>, t: Tid, a: App, final: RowState, i: nat)
    requires |states| == |steps| + 1
  {
    && i < |steps| && steps[i].OfWatch? && steps[i].t == t
    && match steps[i].watch
       case PolicyRead(ok) => final == Stopped && !(ok && a in states[i].policies && states[i].policies[a].watchdog)
       case BackoffEnds(byCancel) => final == Stopped && byCancel
       case CountRead(ok) => final == Failed && ok && AtLimit(states, steps, t, a, i)
       case BuildRead(ok) => final == Failed && !ok
       case Relaunch(out) => final == Failed && !Succeeds(out)
       case _ => false
  }

  ghost predicate HasReason(states: seq<State>, steps: seq<Step>, t: Tid, a: App, final: RowState, i: nat)
    requires |states| == |steps| + 1
  {
    exists j: nat :: j < i && IsReason(states, steps, t, a, final, j)
  }

  /** What watcher t stands at in state i was decided by its own earlier steps. */
  ghost predicate Justified(states: seq<State>, steps: seq<Step>, t: Tid, i: nat)
    requires |states| == |steps| + 1 && i < |states|
  {
    WatcherAt(states[i], t) ==>
      var a, pc := states[i].threads[t].app, states[i].threads[t].pc;
      && (pc.Counting? ==> exists j: nat :: DecidedOn(states, steps, t, a, pc.max, j, i))
      && (CarriesCount(pc) ==> Decided(states, steps, t, a, pc.count, i))
      && (pc.Closing? ==> HasReason(states, steps, t, a, pc.final, i))
  }

  /** Only its own steps and cancels change a watcher. */
  lemma OthersLeaveWatcher(s: State, step: Step, t: Tid)
    requires Enabled(s, step) && WatcherAt(Apply(s, step), t) && !(step.OfWatch? && step.t == t)
    ensures var th := Apply(s, step).threads[t];
            (WatcherAt(s, t) && s.threads[t].app == th.app && s.threads[t].pc == th.pc) || th.pc.Waiting?
  {
    match step
    case OfStart(u, start) =>
    case OfStop(u, stop) => assert Apply(s, step) == ApplyStop(s, u, stop);
    case OfWatch(u, watch) => assert Apply(s, step) == ApplyWatch(s, u, watch);
    case ReconcileApp(a, checkOk, found, writeOk) => ReconcileLeavesWatcher(s, a, checkOk, found, writeOk, t);
    case _ =>
  }

  lemma ReconcileLeavesWatcher(s: State, a: App, checkOk: bool, found: Option<Proc>, writeOk: bool, t: Tid)
    requires Enabled(s, ReconcileApp(a, checkOk, found, writeOk))
    requires WatcherAt(AfterReconcile(s, a, checkOk, found, writeOk), t)
    ensures var th := AfterReconcile(s, a, checkOk, found, writeOk).threads[t];
            (WatcherAt(s, t) && s.threads[t].app == th.app && s.threads[t].pc == th.pc) || th.pc.Waiting?
  {
  }

  lemma StaysDecidedOn(states: seq<State>, steps: seq<Step>, t: Tid, a: App, max: nat, j: nat, i: nat)
    requires |states| == |steps| + 1 && i < |steps| && DecidedOn(states, steps, t, a, max, j, i)
    requires steps[i].OfWatch? && steps[i].t == t ==> !steps[i].watch.WaitReturns?
    ensures DecidedOn(states, steps, t, a, max, j, i + 1)
  {
  }

  lemma StaysDecided(states: seq<State>, steps: seq<Step>, t: Tid, a: App, count: nat, i: nat)
    requires |states| == |steps| + 1 && i < |steps| && Decided(states, steps, t, a, count, i)
    requires steps[i].OfWatch? && steps[i].t == t ==> !steps[i].watch.WaitReturns?
    ensures Decided(states, steps, t, a, count, i + 1)
  {
    var j: nat, k: nat, max: nat :|
      j < k < i && DecidedOn(states, steps, t, a, max, j, i) && ReadsBelow(states, steps, t, a, max, count, k);
    StaysDecidedOn(states, steps, t, a, max, j, i);
  }

  lemma JustifiedByOther(states: seq<State>, steps: seq<Step>, t: Tid, i: nat)
    requires Trace(states, steps) && i < |steps| && Justified(states, steps, t, i)
    requires !(steps[i].OfWatch? && steps[i].t == t)
    ensures Justified(states, steps, t, i + 1)
  {
    if WatcherAt(states[i + 1], t) {
      OthersLeaveWatcher(states[i], steps[i], t);
      var a, pc := states[i + 1].threads[t].app, states[i + 1].threads[t].pc;
      if pc.Counting? {
        var j :| DecidedOn(states, steps, t, a, pc.max, j, i);
        StaysDecidedOn(states, steps, t, a, pc.max, j, i);
      } else if CarriesCount(pc) {
        StaysDecided(states, steps, t, a, pc.count, i);
      }
    }
  }

  /** A step that goes on towards the relaunch. */
  predicate GoesOn(step: WatchStep) {
    || step.StartingMarked? || (step.BackoffEnds? && !step.byCancel) || (step.BuildRead? && step.ok)
    || (step.Relaunch? && Succeeds(step.out))
  }

  lemma GoingOnIsJustified(states: seq<State>, steps: seq<Step>, t: Tid, i: nat)
    requires Trace(states, steps) && i < |steps| && Justified(states, steps, t, i)
    requires steps[i].OfWatch? && steps[i].t == t && GoesOn(steps[i].watch)
    ensures Justified(states, steps, t, i + 1)
  {
    var th, th' := states[i].threads[t], states[i + 1].threads[t];
    assert th'.app == th.app && CarriesCount(th'.pc) && th'.pc.count == th.pc.count;
    StaysDecided(states, steps, t, th.app, th.pc.count, i);
  }

  lemma PolicyReadIsJustified(states: seq<State>, steps: seq<Step>, t: Tid, i: nat)
    requires Trace(states, steps) && i < |steps|
    requires steps[i].OfWatch? && steps[i].t == t && steps[i].watch.PolicyRead?
    ensures Justified(states, steps, t, i + 1)
  {
    var a, pc := states[i].threads[t].app, states[i + 1].threads[t].pc;
    if pc.Counting? {
      assert DecidedOn(states, steps, t, a, pc.max, i, i + 1);
    } else {
      assert IsReason(states, steps, t, a, Stopped, i);
    }
  }

  lemma JustifiedByOwn(states: seq<State>, steps: seq<Step>, t: Tid, i: nat)
    requires Trace(states, steps) && i < |steps| && Justified(states, steps, t, i)
    requires steps[i].OfWatch? && steps[i].t == t
    ensures Justified(states, steps, t, i + 1)
  {
    var step := steps[i].watch;
    if GoesOn(step) {
      GoingOnIsJustified(states, steps, t, i);
    } else if step.PolicyRead? {
      PolicyReadIsJustified(states, steps, t, i);
    } else if step.CountRead? {
      CountReadIsJustified(states, steps, t, i);
    } else if step.BackoffEnds? {
      assert IsReason(states, steps, t, states[i].threads[t].app, Stopped, i);
    } else if step.BuildRead? || step.Relaunch? {
      assert IsReason(states, steps, t, states[i].threads[t].app, Failed, i);
    }
  }

  lemma CountReadIsJustified(states: seq<State>, steps: seq<Step>, t: Tid, i: nat)
    requires Trace(states, steps) && i < |steps| && Justified(states, steps, t, i)
    requires steps[i].OfWatch? && steps[i].t == t && steps[i].watch.CountRead?
    ensures Justified(states, steps, t, i + 1)
  {
    var a, max := states[i].threads[t].app, states[i].threads[t].pc.max;
    var pc := states[i + 1].threads[t].pc;
    var j :| DecidedOn(states, steps, t, a, max, j, i);
    if pc.Marking? {
      StaysDecidedOn(states, steps, t, a, max, j, i);
      assert ReadsBelow(states, steps, t, a, max, pc.count, i);
    } else {
      assert IsReason(states, steps, t, a, Failed, i);
    }
  }

  lemma {:induction false} WatchersAreJustified(states: seq<State>, steps: seq<Step>, t: Tid, i: nat)
    requires Trace(states, steps) && states[0].threads == map[] && i < |states|
    ensures Justified(states, steps, t, i)
  {
    if i > 0 {
      WatchersAreJustified(states, steps, t, i - 1);
      if steps[i - 1].OfWatch? && steps[i - 1].t == t {
        JustifiedByOwn(states, steps, t, i - 1);
      } else {
        JustifiedByOther(states, steps, t, i - 1);
      }
    }
  }

  /** In every run, whatever interleaves with it: a relaunch of an app follows a read of its policy with the watchdog
      on, and a read of its count below the limit of that policy, both after the exit the relaunch answers. */
  lemma RelaunchesAreDecided(states: seq<State>, steps: seq<Step>, t: Tid, out: LaunchResult, i: nat)
    requires Trace(states, steps) && states[0].threads == map[]
    requires i < |steps| && steps[i] == OfWatch(t, Relaunch(out))
    ensures Decided(states, steps, t, states[i].threads[t].app, states[i].threads[t].pc.count, i)
  {
    WatchersAreJustified(states, steps, t, i);
  }

  /** In every run, the final state a watcher writes has its reason: STOPPED for a watchdog that is off or a cancel
      during the backoff, FAILED for a limit that is reached or a relaunch that fails. */
  lemma FinalMarksHaveReasons(states: seq<State>, steps: seq<Step>, t: Tid, i: nat)
    requires Trace(states, steps) && states[0].threads == map[]
    requires i < |steps| && steps[i] == OfWatch(t, FinalMark(true)) && states[i].threads[t].app in states[i].rows
    ensures var a := states[i].threads[t].app;
            && a in states[i + 1].rows
            && HasReason(states, steps, t, a, states[i + 1].rows[a].state, i)
  {
    WatchersAreJustified(states, steps, t, i);
  }
}
