/** What the threads of the protocol achieve when nothing interferes and no call fails: each can get from where it
    starts to the state its caller wants, by its own steps alone. */
module ProtocolOutcomes {
  import opened Common
  import opened Protocol

  // ----- runs of one thread -----

  predicate IsOwn(step: Step, t: Tid) {
    || (step.OfStart? && step.t == t) || (step.OfStop? && step.t == t) || (step.OfWatch? && step.t == t)
  }

  ghost predicate OwnRun(s: State, t: Tid, steps: seq<Step>, end: State) {
    (forall i :: 0 <= i < |steps| ==> IsOwn(steps[i], t)) && Run(s, steps) && Exec(s, steps) == end
  }

  /** Thread t gets from `s` to `end` by its own steps. */
  ghost predicate Gets(s: State, t: Tid, end: State) {
    exists steps :: OwnRun(s, t, steps, end)
  }

  lemma Stays(s: State, t: Tid)
    ensures Gets(s, t, s)
  {
    assert OwnRun(s, t, [], s);
  }

  lemma {:induction false} RunAlso(s: State, t: Tid, steps: seq<Step>, mid: State, step: Step)
    requires OwnRun(s, t, steps, mid) && IsOwn(step, t) && Enabled(mid, step)
    ensures OwnRun(s, t, steps + [step], Apply(mid, step))
    decreases |steps|
  {
    if steps == [] {
      assert steps + [step] == [step] && [step][1..] == [];
    } else {
      assert (steps + [step])[1..] == steps[1..] + [step];
      RunAlso(Apply(s, steps[0]), t, steps[1..], mid, step);
    }
  }

  /** One more step. */
  lemma Then(s: State, t: Tid, mid: State, step: Step, end: State)
    requires Gets(s, t, mid) && IsOwn(step, t) && Enabled(mid, step) && Apply(mid, step) == end
    ensures Gets(s, t, end)
  {
    var steps :| OwnRun(s, t, steps, mid);
    RunAlso(s, t, steps, mid, step);
  }

  // ----- watchers -----

  function At(s: State, t: Tid, pc: WatchPc): State
    requires WatcherAt(s, t)
  {
    s.(threads := s.threads[t := s.threads[t].(pc := pc)])
  }

  /** A step of watcher t that only moves it on. */
  lemma Moves(s0: State, t: Tid, s: State, pc: WatchPc, step: WatchStep, pc': WatchPc)
    requires WatcherAt(s, t) && Gets(s0, t, At(s, t, pc)) && WatchEnabled(At(s, t, pc), t, step)
    requires var th := s.threads[t];
             WatchEffect(th.(pc := pc), Lookup(s.rows, th.app), Lookup(s.policies, th.app), step)
             == Becomes(th.(pc := pc'))
    ensures Gets(s0, t, At(s, t, pc'))
  {
    var at := At(s, t, pc);
    assert at.live - {} + {} == at.live && at.past + {} == at.past;
    assert at.threads[t := at.threads[t].(pc := pc')] == At(s, t, pc').threads;
    Then(s0, t, at, OfWatch(t, step), At(s, t, pc'));
  }

  /** The final mark, and the deferred delete. */
  function Ended(s: State, t: Tid, final: RowState): State
    requires WatcherAt(s, t)
  {
    var a := s.threads[t].app;
    s.(threads := s.threads - {t}, watches := s.watches - {a},
       rows := if a in s.rows then s.rows[a := s.rows[a].(state := final)] else s.rows)
  }

  lemma MarkIsFinal(s: State, t: Tid, final: RowState)
    requires WatcherAt(s, t)
    ensures Apply(At(s, t, Closing(final)), OfWatch(t, FinalMark(true)))
            == At(MarkState(s, s.threads[t].app, final), t, Returning)
  {
    var closing, marked := At(s, t, Closing(final)), At(MarkState(s, s.threads[t].app, final), t, Returning);
    assert closing.live - {} + {} == closing.live && closing.past + {} == closing.past;
    assert closing.threads[t := closing.threads[t].(pc := Returning)] == marked.threads;
  }

  lemma LeavesLast(s: State, t: Tid, final: RowState)
    requires WatcherAt(s, t)
    ensures Apply(At(MarkState(s, s.threads[t].app, final), t, Returning), OfWatch(t, Leave)) == Ended(s, t, final)
  {
    var marked := At(MarkState(s, s.threads[t].app, final), t, Returning);
    assert marked.live - {} + {} == marked.live && marked.past + {} == marked.past;
    assert marked.threads - {t} == s.threads - {t};
  }

  lemma Closes(s0: State, t: Tid, s: State, final: RowState)
    requires WatcherAt(s, t) && Gets(s0, t, At(s, t, Closing(final)))
    ensures Gets(s0, t, Ended(s, t, final))
  {
    var marked := At(MarkState(s, s.threads[t].app, final), t, Returning);
    MarkIsFinal(s, t, final);
    Then(s0, t, At(s, t, Closing(final)), OfWatch(t, FinalMark(true)), marked);
    LeavesLast(s, t, final);
    Then(s0, t, marked, OfWatch(t, Leave), Ended(s, t, final));
  }

  /** A watcher that has seen its process exit. */
  predicate SawExit(s: State, t: Tid) {
    WatcherAt(s, t) && s.threads[t].pc == Exited
  }

  predicate WatchdogOn(s: State, a: App) {
    a in s.policies && s.policies[a].watchdog
  }

  predicate LimitReached(s: State, a: App) {
    a in s.policies && a in s.rows && 0 < s.policies[a].maxRestarts <= s.rows[a].restarts
  }

  lemma WatchdogOffStops(s: State, t: Tid)
    requires SawExit(s, t) && !WatchdogOn(s, s.threads[t].app)
    ensures Gets(s, t, Ended(s, t, Stopped))
  {
    Stays(s, t);
    assert At(s, t, Exited) == s;
    Moves(s, t, s, Exited, PolicyRead(true), Closing(Stopped));
    Closes(s, t, s, Stopped);
  }

  lemma ExhaustedFails(s: State, t: Tid)
    requires SawExit(s, t) && WatchdogOn(s, s.threads[t].app) && LimitReached(s, s.threads[t].app)
    ensures Gets(s, t, Ended(s, t, Failed))
  {
    var max := s.policies[s.threads[t].app].maxRestarts;
    Stays(s, t);
    assert At(s, t, Exited) == s;
    Moves(s, t, s, Exited, PolicyRead(true), Counting(max));
    Moves(s, t, s, Counting(max), CountRead(true), Closing(Failed));
    Closes(s, t, s, Failed);
  }

  /** A cancel during the backoff. */
  lemma CancelInBackoffStops(s: State, t: Tid)
    requires WatcherAt(s, t) && s.threads[t].cancelled && s.threads[t].pc.Backoff?
    ensures Gets(s, t, Ended(s, t, Stopped))
  {
    var pc := s.threads[t].pc;
    Stays(s, t);
    assert At(s, t, pc) == s;
    Moves(s, t, s, pc, BackoffEnds(true), Closing(Stopped));
    Closes(s, t, s, Stopped);
  }

  /** A relaunch that fails before a process is started. */
  lemma FailedRelaunchFails(s: State, t: Tid)
    requires WatcherAt(s, t) && (s.threads[t].pc.Building? || s.threads[t].pc.Launching?)
    ensures Gets(s, t, Ended(s, t, Failed))
  {
    var pc := s.threads[t].pc;
    Stays(s, t);
    assert At(s, t, pc) == s;
    if pc.Building? {
      Moves(s, t, s, pc, BuildRead(false), Closing(Failed));
    } else {
      Moves(s, t, s, pc, Relaunch(LaunchFailed), Closing(Failed));
    }
    Closes(s, t, s, Failed);
  }

  function CountOf(s: State, a: App): nat {
    if a in s.rows then s.rows[a].restarts else 0
  }

  /** The watcher waits on the new process, and the row records it as the next restart. */
  function Relaunched(s: State, t: Tid, p: Proc): State
    requires WatcherAt(s, t) && p.owner.Managed?
  {
    var a := s.threads[t].app;
    At(s, t, Waiting(HandleOf(p))).(
      rows := s.rows[a := Row(Running, HandleOf(p), CountOf(s, a) + 1)],
      live := s.live + {p}, past := s.past + {p}, log := s.log + [WatchdogLaunch(a)])
  }

  lemma {:induction false} Builds(s0: State, t: Tid, s: State, stage: nat, c: nat)
    requires stage <= LAST_CHECKED_READ && WatcherAt(s, t) && !s.threads[t].cancelled
    requires Gets(s0, t, At(s, t, Building(stage, c)))
    ensures Gets(s0, t, At(s, t, Launching(c)))
    decreases LAST_CHECKED_READ - stage
  {
    if stage == LAST_CHECKED_READ {
      Moves(s0, t, s, Building(stage, c), BuildRead(true), Launching(c));
    } else {
      Moves(s0, t, s, Building(stage, c), BuildRead(true), Building(stage + 1, c));
      Builds(s0, t, s, stage + 1, c);
    }
  }

  lemma MarksStarting(s0: State, t: Tid, s: State, c: nat)
    requires WatcherAt(s, t) && Gets(s0, t, At(s, t, Marking(c)))
    ensures Gets(s0, t, At(MarkState(s, s.threads[t].app, Starting), t, Backoff(c)))
  {
    var at, next := At(s, t, Marking(c)), At(MarkState(s, s.threads[t].app, Starting), t, Backoff(c));
    assert Apply(at, OfWatch(t, StartingMarked(true))) == next by {
      assert at.live - {} + {} == at.live && at.past + {} == at.past;
      assert at.threads[t := at.threads[t].(pc := Backoff(c))] == next.threads;
    }
    Then(s0, t, at, OfWatch(t, StartingMarked(true)), next);
  }

  function WithLaunched(s: State, t: Tid, c: nat, p: Proc): State
    requires WatcherAt(s, t) && p.owner.Managed?
  {
    At(s, t, Inserting(HandleOf(p), c)).(
      live := s.live + {p}, past := s.past + {p}, log := s.log + [WatchdogLaunch(s.threads[t].app)])
  }

  lemma Launches(s0: State, t: Tid, s: State, c: nat, p: Proc)
    requires WatcherAt(s, t) && !s.threads[t].cancelled && Gets(s0, t, At(s, t, Launching(c)))
    requires LaunchAllowed(s, s.threads[t].app, Launched(p))
    ensures Gets(s0, t, WithLaunched(s, t, c, p))
  {
    var at, launched := At(s, t, Launching(c)), WithLaunched(s, t, c, p);
    assert p in Started(Launched(p));
    assert Apply(at, OfWatch(t, Relaunch(Launched(p)))) == launched by {
      assert at.live - {} + {p} == launched.live && at.past + {p} == launched.past;
      assert at.threads[t := at.threads[t].(pc := Inserting(HandleOf(p), c))] == launched.threads;
    }
    Then(s0, t, at, OfWatch(t, Relaunch(Launched(p))), launched);
  }

  lemma Records(s0: State, t: Tid, s: State, c: nat, p: Proc)
    requires WatcherAt(s, t) && !s.threads[t].cancelled && p.owner.Managed?
    requires Gets(s0, t, WithLaunched(s, t, c, p))
    ensures var a := s.threads[t].app;
            Gets(s0, t, At(WithLaunched(s, t, c, p), t, Waiting(HandleOf(p))).(
              rows := s.rows[a := Row(Running, HandleOf(p), c + 1)]))
  {
    var at := WithLaunched(s, t, c, p);
    var end := At(at, t, Waiting(HandleOf(p))).(
      rows := s.rows[s.threads[t].app := Row(Running, HandleOf(p), c + 1)]);
    assert Apply(at, OfWatch(t, RelaunchRecorded(true))) == end by {
      assert at.live - {} + {} == at.live && at.past + {} == at.past;
    }
    Then(s0, t, at, OfWatch(t, RelaunchRecorded(true)), end);
  }

  lemma GetsToLaunch(s: State, t: Tid)
    requires SawExit(s, t) && !s.threads[t].cancelled
    requires WatchdogOn(s, s.threads[t].app) && !LimitReached(s, s.threads[t].app)
    ensures var a := s.threads[t].app; Gets(s, t, At(MarkState(s, a, Starting), t, Launching(CountOf(s, a))))
  {
    var a := s.threads[t].app;
    var c, m := CountOf(s, a), MarkState(s, a, Starting);
    Stays(s, t);
    assert At(s, t, Exited) == s;
    Moves(s, t, s, Exited, PolicyRead(true), Counting(s.policies[a].maxRestarts));
    Moves(s, t, s, Counting(s.policies[a].maxRestarts), CountRead(true), Marking(c));
    MarksStarting(s, t, s, c);
    Moves(s, t, m, Backoff(c), BackoffEnds(false), Building(0, c));
    Builds(s, t, m, 0, c);
  }

  lemma RecordedIsRelaunched(s: State, t: Tid, p: Proc)
    requires WatcherAt(s, t) && p.owner.Managed?
    ensures var a := s.threads[t].app;
            var m := MarkState(s, a, Starting);
            At(WithLaunched(m, t, CountOf(s, a), p), t, Waiting(HandleOf(p))).(
              rows := m.rows[a := Row(Running, HandleOf(p), CountOf(s, a) + 1)]) == Relaunched(s, t, p)
  {
    var a := s.threads[t].app;
    var row := Row(Running, HandleOf(p), CountOf(s, a) + 1);
    assert MarkState(s, a, Starting).rows[a := row] == s.rows[a := row];
    assert WithLaunched(s, t, CountOf(s, a), p).threads[t := Relaunched(s, t, p).threads[t]]
        == Relaunched(s, t, p).threads;
  }

  lemma GetsRelaunched(s: State, t: Tid, p: Proc)
    requires WatcherAt(s, t) && !s.threads[t].cancelled && p.owner.Managed?
    requires var a := s.threads[t].app; Gets(s, t, WithLaunched(MarkState(s, a, Starting), t, CountOf(s, a), p))
    ensures Gets(s, t, Relaunched(s, t, p))
  {
    var a := s.threads[t].app;
    Records(s, t, MarkState(s, a, Starting), CountOf(s, a), p);
    RecordedIsRelaunched(s, t, p);
  }

  lemma StillAllowed(s: State, a: App, p: Proc)
    requires LaunchAllowed(s, a, Launched(p))
    ensures LaunchAllowed(MarkState(s, a, Starting), a, Launched(p)) && p.owner.Managed?
  {
    assert p in Started(Launched(p));
  }

  /** A watcher that was not cancelled relaunches its app, if the watchdog is on and the limit is not reached. */
  lemma WatchdogRelaunches(s: State, t: Tid, p: Proc)
    requires SawExit(s, t) && !s.threads[t].cancelled
    requires WatchdogOn(s, s.threads[t].app) && !LimitReached(s, s.threads[t].app)
    requires LaunchAllowed(s, s.threads[t].app, Launched(p))
    ensures p.owner.Managed? && Gets(s, t, Relaunched(s, t, p))
  {
    var a := s.threads[t].app;
    var m := MarkState(s, a, Starting);
    StillAllowed(s, a, p);
    GetsToLaunch(s, t);
    Launches(s, t, m, CountOf(s, a), p);
    GetsRelaunched(s, t, p);
  }

  /** A new process that could not be recorded is watched all the same. */
  lemma UnrecordedIsWatched(s: State, t: Tid, c: nat, p: Proc)
    requires WatcherAt(s, t) && p.owner.Managed?
    ensures Apply(At(s, t, Inserting(HandleOf(p), c)), OfWatch(t, RelaunchRecorded(false)))
            == At(s, t, Waiting(HandleOf(p)))
  {
    var at := At(s, t, Inserting(HandleOf(p), c));
    assert at.live - {} + {} == at.live && at.past + {} == at.past;
    assert at.threads[t := at.threads[t].(pc := Waiting(HandleOf(p)))] == At(s, t, Waiting(HandleOf(p))).threads;
  }

  /** The end of a wait: an exit if the watcher was not cancelled, even if the wait failed; otherwise the watcher leaves
      without touching the row. */
  lemma WaitEnds(s: State, t: Tid, h: Handle, failed: bool)
    requires WatcherAt(s, t) && WatchEnabled(At(s, t, Waiting(h)), t, WaitReturns(failed))
    ensures Apply(At(s, t, Waiting(h)), OfWatch(t, WaitReturns(failed)))
            == At(s, t, if s.threads[t].cancelled then Returning else Exited)
  {
    var at := At(s, t, Waiting(h));
    var pc := if s.threads[t].cancelled then Returning else Exited;
    assert at.live - {} + {} == at.live && at.past + {} == at.past;
    assert at.threads[t := at.threads[t].(pc := pc)] == At(s, t, pc).threads;
  }

  // ----- commands -----

  /** StartApp at one of its stages, begun in `s`. */
  function StartAt(s: State, a: App, spc: StartPc): State {
    s.(threads := s.threads[s.nextTid := Starter(a, spc)], nextTid := s.nextTid + 1)
  }

  function WithProc(s: State, a: App, p: Proc): State {
    s.(live := s.live + {p}, past := s.past + {p}, log := s.log + [OperatorLaunch(a)])
  }

  /** The app runs as `p`: its row says so, with no restarts, and a watcher of its own waits on the process. */
  function UpAs(s: State, a: App, p: Proc): State
    requires p.owner.Managed?
  {
    WithProc(s, a, p).(
      rows := s.rows[a := Row(Running, HandleOf(p), 0)], watches := s.watches[a := s.nextTid + 1],
      threads := (s.threads - {s.nextTid})[s.nextTid + 1 := Watcher(a, false, Waiting(HandleOf(p)))],
      nextTid := s.nextTid + 2)
  }

  lemma SpecIsBuilt(s: State, a: App)
    requires Enabled(s, BeginStart(a)) && a in s.policies
    ensures Gets(Apply(s, BeginStart(a)), s.nextTid, StartAt(s, a, SLaunch))
  {
    var at := StartAt(s, a, SBuild);
    Stays(at, s.nextTid);
    assert Apply(at, OfStart(s.nextTid, Spec(true))) == StartAt(s, a, SLaunch) by {
      assert at.live - {} + {} == at.live && at.past + {} == at.past;
      assert at.threads[s.nextTid := Starter(a, SLaunch)] == StartAt(s, a, SLaunch).threads;
    }
    Then(at, s.nextTid, at, OfStart(s.nextTid, Spec(true)), StartAt(s, a, SLaunch));
  }

  lemma ProcessIsStarted(s0: State, s: State, a: App, p: Proc)
    requires Gets(s0, s.nextTid, StartAt(s, a, SLaunch)) && LaunchAllowed(s, a, Launched(p))
    ensures p.owner.Managed? && Gets(s0, s.nextTid, StartAt(WithProc(s, a, p), a, SInsert(HandleOf(p))))
  {
    assert p in Started(Launched(p));
    var at, next := StartAt(s, a, SLaunch), StartAt(WithProc(s, a, p), a, SInsert(HandleOf(p)));
    assert LaunchAllowed(at, a, Launched(p));
    assert Apply(at, OfStart(s.nextTid, Launch(Launched(p)))) == next by {
      assert at.live - {} + {p} == next.live;
      assert at.threads[s.nextTid := Starter(a, SInsert(HandleOf(p)))] == next.threads;
    }
    Then(s0, s.nextTid, at, OfStart(s.nextTid, Launch(Launched(p))), next);
  }

  lemma RowIsInserted(s0: State, s: State, a: App, h: Handle)
    requires Gets(s0, s.nextTid, StartAt(s, a, SInsert(h)))
    ensures Gets(s0, s.nextTid, StartAt(s.(rows := s.rows[a := Row(Running, h, 0)]), a, SRegister(h)))
  {
    var at := StartAt(s, a, SInsert(h));
    var next := StartAt(s.(rows := s.rows[a := Row(Running, h, 0)]), a, SRegister(h));
    assert Apply(at, OfStart(s.nextTid, Insert(true))) == next by {
      assert at.live - {} + {} == at.live && at.past + {} == at.past;
      assert at.threads[s.nextTid := Starter(a, SRegister(h))] == next.threads;
    }
    Then(s0, s.nextTid, at, OfStart(s.nextTid, Insert(true)), next);
  }

  /** StartApp, when no call fails: the app runs, its row says so, and it is watched. */
  lemma StartGetsUp(s: State, a: App, p: Proc)
    requires Enabled(s, BeginStart(a)) && !s.shutdown && a in s.policies && LaunchAllowed(s, a, Launched(p))
    ensures p.owner.Managed? && Gets(Apply(s, BeginStart(a)), s.nextTid, UpAs(s, a, p))
  {
    var s0, t := Apply(s, BeginStart(a)), s.nextTid;
    assert p in Started(Launched(p));
    SpecIsBuilt(s, a);
    ProcessIsStarted(s0, s, a, p);
    RowIsInserted(s0, WithProc(s, a, p), a, HandleOf(p));
    var at := StartAt(WithProc(s, a, p).(rows := s.rows[a := Row(Running, HandleOf(p), 0)]), a, SRegister(HandleOf(p)));
    RegisteredIsUp(s, a, p);
    Then(s0, t, at, OfStart(t, Register), UpAs(s, a, p));
  }

  lemma RegisteredIsUp(s: State, a: App, p: Proc)
    requires p.owner.Managed? && a !in s.watches && !s.shutdown
    ensures var at := StartAt(WithProc(s, a, p).(rows := s.rows[a := Row(Running, HandleOf(p), 0)]), a,
                              SRegister(HandleOf(p)));
            Enabled(at, OfStart(s.nextTid, Register)) && Apply(at, OfStart(s.nextTid, Register)) == UpAs(s, a, p)
  {
    var at := StartAt(WithProc(s, a, p).(rows := s.rows[a := Row(Running, HandleOf(p), 0)]), a,
                      SRegister(HandleOf(p)));
    assert at.live - {} + {} == at.live && at.past + {} == at.past;
    assert at.threads[s.nextTid + 1 := Watcher(a, false, Waiting(HandleOf(p)))] - {s.nextTid} == UpAs(s, a, p).threads;
  }

  /** A start whose row could not be written registers the process all the same. */
  lemma UnrecordedIsRegistered(s: State, a: App, h: Handle)
    ensures Apply(StartAt(s, a, SInsert(h)), OfStart(s.nextTid, Insert(false))) == StartAt(s, a, SRegister(h))
  {
    var at := StartAt(s, a, SInsert(h));
    assert at.live - {} + {} == at.live && at.past + {} == at.past;
    assert at.threads[s.nextTid := Starter(a, SRegister(h))] == StartAt(s, a, SRegister(h)).threads;
  }

  /** StopApp at one of its stages, begun in `s`. */
  function StopAt(s: State, a: App, tpc: StopPc): State {
    s.(threads := s.threads[s.nextTid := Stopper(a, tpc)], nextTid := s.nextTid + 1)
  }

  /** The command is over. */
  function StopOver(s: State): State {
    s.(threads := s.threads - {s.nextTid}, nextTid := s.nextTid + 1)
  }

  /** The app's watcher, if it has one, is cancelled and no longer registered. */
  function Unwatched(s: State, a: App): State {
    if a in s.watches then
      var t := s.watches[a];
      s.(watches := s.watches - {a},
         threads := if WatcherAt(s, t) then s.threads[t := s.threads[t].(cancelled := true)] else s.threads)
    else s
  }

  /** No process of the recorded identity is left, and the row says STOPPED. */
  function Down(s: State, a: App): State
    requires a in s.rows
  {
    var row := s.rows[a];
    s.(live := (set p | p in s.live && (p.pid != row.h.pid || (row.h.ctime != 0 && p.ctime != row.h.ctime))),
       rows := s.rows[a := row.(state := Stopped)])
  }

  lemma StopBegins(s: State, a: App)
    requires Enabled(s, BeginStop(a))
    ensures Apply(s, BeginStop(a)) == StopAt(Unwatched(s, a), a, TRead)
  {
  }

  /** StopApp of an app that runs, when no call fails. */
  lemma StopGetsDown(s: State, a: App)
    requires Enabled(s, BeginStop(a)) && RowActive(s, a) && IsAlive(s, s.rows[a].h)
    ensures Gets(Apply(s, BeginStop(a)), s.nextTid, StopOver(Down(Unwatched(s, a), a)))
  {
    var c, t := Unwatched(s, a), s.nextTid;
    var h := s.rows[a].h;
    var s0 := StopAt(c, a, TRead);
    StopBegins(s, a);
    Stays(s0, t);
    ReadsForKill(c, a);
    Then(s0, t, s0, OfStop(t, Read(true)), StopAt(c, a, TKill(h)));
    Kills(c, a, h);
    Then(s0, t, StopAt(c, a, TKill(h)), OfStop(t, Kill(true)), StopAt(c.(live := Down(c, a).live), a, TMark));
    MarksStopped(c.(live := Down(c, a).live), a);
    Then(s0, t, StopAt(c.(live := Down(c, a).live), a, TMark), OfStop(t, Mark(true)), StopOver(Down(c, a)));
  }

  lemma ReadsForKill(s: State, a: App)
    requires RowActive(s, a)
    ensures Apply(StopAt(s, a, TRead), OfStop(s.nextTid, Read(true))) == StopAt(s, a, TKill(s.rows[a].h))
  {
    var at, next := StopAt(s, a, TRead), StopAt(s, a, TKill(s.rows[a].h));
    assert at.live - {} + {} == at.live && at.past + {} == at.past;
    assert at.threads[s.nextTid := Stopper(a, TKill(s.rows[a].h))] == next.threads;
  }

  lemma Kills(s: State, a: App, h: Handle)
    requires a in s.rows && h == s.rows[a].h && IsAlive(s, h)
    ensures Enabled(StopAt(s, a, TKill(h)), OfStop(s.nextTid, Kill(true)))
    ensures Apply(StopAt(s, a, TKill(h)), OfStop(s.nextTid, Kill(true)))
            == StopAt(s.(live := Down(s, a).live), a, TMark)
  {
    var at, next := StopAt(s, a, TKill(h)), StopAt(s.(live := Down(s, a).live), a, TMark);
    assert at.live - (set p | p in at.live && Matches(p, h)) + {} == next.live;
    assert at.past + {} == at.past;
    assert at.threads[s.nextTid := Stopper(a, TMark)] == next.threads;
  }

  lemma MarksStopped(s: State, a: App)
    requires a in s.rows
    ensures Apply(StopAt(s, a, TMark), OfStop(s.nextTid, Mark(true)))
            == StopOver(s.(rows := s.rows[a := s.rows[a].(state := Stopped)]))
  {
    var at := StopAt(s, a, TMark);
    assert at.live - {} + {} == at.live && at.past + {} == at.past;
    assert at.threads - {s.nextTid} == s.threads - {s.nextTid};
  }

  lemma NothingToKill(s: State, a: App)
    requires !RowActive(s, a)
    ensures Apply(StopAt(s, a, TRead), OfStop(s.nextTid, Read(true))) == StopOver(s)
  {
    var at := StopAt(s, a, TRead);
    assert at.live - {} + {} == at.live && at.past + {} == at.past;
    assert at.threads - {s.nextTid} == s.threads - {s.nextTid};
  }

  /** StopApp of an app that does not run only cancels. */
  lemma StopOfInactiveCancels(s: State, a: App)
    requires Enabled(s, BeginStop(a)) && !RowActive(s, a)
    ensures Gets(Apply(s, BeginStop(a)), s.nextTid, StopOver(Unwatched(s, a)))
  {
    var c := Unwatched(s, a);
    var at := StopAt(c, a, TRead);
    StopBegins(s, a);
    Stays(at, s.nextTid);
    NothingToKill(c, a);
    Then(at, s.nextTid, at, OfStop(s.nextTid, Read(true)), StopOver(c));
  }
}
