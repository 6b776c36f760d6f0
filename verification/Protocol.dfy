/** The supervisor protocol as a transition system.

    Operator commands, one watcher goroutine per launch, process exits, database writes and JARVIS
    restarts interleave one critical section or one statement at a time. A state carries everything
    those steps touch; `Enabled` says when a step may happen and `Apply` what it does. Nothing here
    restricts the schedule: the guards under which the protocol is safe are in `ProtocolSafety`. */
module Protocol {
  import opened Common

  type App = string
  type Tid = nat

  /** Who started a process: JARVIS, for one app under one fresh instance id, or somebody else. */
  datatype Owner = Managed(app: App, inst: nat) | Foreign

  /** A process of the host. A pid may be used again after its process is gone; a (pid, ctime) pair never. */
  datatype Proc = Proc(pid: nat, ctime: nat, owner: Owner)

  /** What JARVIS remembers of a process. */
  datatype Handle = Handle(pid: nat, ctime: nat, inst: nat)

  /** The one `instances` row of an app. */
  datatype Row = Row(state: RowState, h: Handle, restarts: nat)

  /** The columns of `apps` the watchdog reads. */
  datatype Policy = Policy(watchdog: bool, maxRestarts: nat)

  /** Where a watcher goroutine stands in `watch`, `waitUntilGone` and `relaunch`. */
  datatype WatchPc =
    | Waiting(h: Handle)                 // inside waitUntilGone
    | Exited                             // exit seen; readPolicy is next
    | Counting(max: nat)                 // watchdog is on; currentRestartCount is next
    | Marking(count: nat)                // about to write STARTING
    | Backoff(count: nat)                // in the select
    | Building(stage: nat, count: nat)   // the next context-checked read of buildLaunchSpec is number `stage`
    | Launching(count: nat)              // past the last context check; runner.Start is next
    | Inserting(h: Handle, count: nat)   // process started; insertInstance is next
    | Closing(final: RowState)           // about to write the final state
    | Returning                          // only the deferred delete is left

  /** Where a StartApp call stands after its check of `watches`. */
  datatype StartPc = SBuild | SLaunch | SInsert(h: Handle) | SRegister(h: Handle)

  /** Where a StopApp call stands after cancelWatcher. */
  datatype StopPc = TRead | TKill(h: Handle) | TMark

  datatype Thread =
    | Watcher(app: App, cancelled: bool, pc: WatchPc)
    | Starter(app: App, spc: StartPc)
    | Stopper(app: App, tpc: StopPc)

  /** History of launches, kept to state what restart_count means. */
  datatype Event = OperatorLaunch(app: App) | WatchdogLaunch(app: App)

  datatype State = State(
    watches: map<App, Tid>,     // the supervisor's map; the cancel function is the thread's flag
    shutdown: bool,
    pending: set<App>,          // apps Reconcile has not looked at yet; the API is closed until it is empty
    rows: map<App, Row>,
    policies: map<App, Policy>,
    threads: map<Tid, Thread>,
    nextTid: nat,
    live: set<Proc>,
    past: set<Proc>,            // every process that ever ran
    log: seq<Event>)

  /** Launch success, failure without a process, and failure that leaves an unidentified process behind; and success and
      failure of the second try that winproc.Launch makes where the first was denied access, perhaps only to the
      creation time of a process that already runs. */
  datatype LaunchResult =
    | Launched(p: Proc) | LaunchFailed | LaunchLost(p: Proc)
    | LaunchedAgain(lost: Proc, p: Proc) | LostAgain(lost: Proc, p: Proc)

  /** One step of the StartApp call in thread `t`, after BeginStart. */
  datatype StartStep = Spec(ok: bool) | Launch(out: LaunchResult) | Insert(ok: bool) | Register

  /** One step of the StopApp call in thread `t`, after BeginStop. */
  datatype StopStep = Read(ok: bool) | Kill(ok: bool) | Mark(ok: bool)

  /** One step of the watch goroutine in thread `t`. */
  datatype WatchStep =
    | WaitReturns(failed: bool)
    | PolicyRead(ok: bool)
    | CountRead(ok: bool)
    | StartingMarked(ok: bool)
    | BackoffEnds(byCancel: bool)
    | BuildRead(ok: bool)
    | Relaunch(out: LaunchResult)
    | RelaunchRecorded(ok: bool)
    | FinalMark(ok: bool)
    | Leave

  datatype Step =
    // operator commands
    | BeginStart(app: App)
    | OfStart(t: Tid, start: StartStep)
    | BeginStop(app: App)
    | OfStop(t: Tid, stop: StopStep)
    // watchers
    | OfWatch(t: Tid, watch: WatchStep)
    // JARVIS itself
    | Shutdown
    | Restart
    | ReconcileApp(app: App, checkOk: bool, found: Option<Proc>, writeOk: bool)
    | SetPolicy(app: App, policy: Policy)
    // the host
    | ProcExits(p: Proc)
    | ForeignStarts(p: Proc)

  /** buildLaunchSpec makes four reads that fail once the context is cancelled: the app row, the active
      profile, the java lookup and the promoted artifact. */
  const LAST_CHECKED_READ := 3

  // ----- the host -----

  /** The comparison of Alive and WaitExit: same pid, and the same creation time unless none is recorded. */
  predicate Matches(p: Proc, h: Handle) {
    p.pid == h.pid && (h.ctime == 0 || p.ctime == h.ctime)
  }

  ghost predicate IsAlive(s: State, h: Handle) {
    h.pid != 0 && exists p :: p in s.live && Matches(p, h)
  }

  /** WaitExit reports gone when no process with this identity can be opened. */
  ghost predicate Gone(s: State, h: Handle) {
    forall p :: p in s.live ==> !Matches(p, h)
  }

  function HandleOf(p: Proc): Handle
    requires p.owner.Managed?
  {
    Handle(p.pid, p.ctime, p.owner.inst)
  }

  /** The host may start `p`: its pid is free now, and neither its (pid, ctime) nor its instance id was used before. */
  ghost predicate Fresh(s: State, p: Proc) {
    && p.pid > 0 && p.ctime > 0
    && (forall q :: q in s.live ==> q.pid != p.pid)
    && (forall q :: q in s.past ==> !(q.pid == p.pid && q.ctime == p.ctime))
    && (forall q :: q in s.past ==> !SameInstance(p, q))
  }

  predicate SameInstance(p: Proc, q: Proc) {
    p.owner.Managed? && q.owner.Managed? && p.owner.inst == q.owner.inst
  }

  /** The processes a launch starts. */
  function Started(out: LaunchResult): set<Proc> {
    match out
    case Launched(p) => {p}
    case LaunchFailed => {}
    case LaunchLost(p) => {p}
    case LaunchedAgain(lost, p) => {lost, p}
    case LostAgain(lost, p) => {lost, p}
  }

  predicate IsRetried(out: LaunchResult) {
    out.LaunchedAgain? || out.LostAgain?
  }

  /** JARVIS knows the process it started. */
  predicate Succeeds(out: LaunchResult) {
    out.Launched? || out.LaunchedAgain?
  }

  /** A second try runs the same command line, so both processes carry one instance id. */
  ghost predicate LaunchAllowed(s: State, a: App, out: LaunchResult) {
    && (forall p :: p in Started(out) ==> Fresh(s, p) && p.owner.Managed? && p.owner.app == a)
    && (IsRetried(out) ==> out.lost.owner == out.p.owner && out.lost.pid != out.p.pid)
  }

  predicate AllManaged(out: LaunchResult) {
    !out.LaunchFailed? ==> out.p.owner.Managed?
  }

  // ----- the supervisor's own operations -----

  function Lookup<V>(m: map<App, V>, a: App): Option<V> {
    if a in m then Some(m[a]) else None
  }

  /** Calling a cancel function; the goroutine may already be gone. */
  function CancelThread(threads: map<Tid, Thread>, t: Tid): map<Tid, Thread> {
    if t in threads && threads[t].Watcher? then threads[t := threads[t].(cancelled := true)] else threads
  }

  /** cancelWatcher */
  function CancelWatcher(s: State, a: App): State {
    if a in s.watches then
      s.(threads := CancelThread(s.threads, s.watches[a]), watches := s.watches - {a})
    else s
  }

  /** startWatcher */
  function StartWatcher(s: State, a: App, h: Handle): State {
    if s.shutdown then s
    else
      var threads := if a in s.watches then CancelThread(s.threads, s.watches[a]) else s.threads;
      s.(threads := threads[s.nextTid := Watcher(a, false, Waiting(h))],
         watches := s.watches[a := s.nextTid], nextTid := s.nextTid + 1)
  }

  /** Shutdown: every registered watcher is cancelled and the map emptied. */
  function ShutdownAll(s: State): State {
    s.(shutdown := true, watches := map[],
       threads := map t | t in s.threads ::
         if s.threads[t].Watcher? && t in s.watches.Values
         then s.threads[t].(cancelled := true) else s.threads[t])
  }

  /** updateInstance: the instance id stays. */
  function UpdateInstance(s: State, a: App, h: Handle): State {
    if a in s.rows then
      s.(rows := s.rows[a := s.rows[a].(state := Running, h := Handle(h.pid, h.ctime, s.rows[a].h.inst))])
    else s
  }

  /** markState: an UPDATE, so without a row nothing happens. */
  function MarkState(s: State, a: App, state: RowState): State {
    if a in s.rows then s.(rows := s.rows[a := s.rows[a].(state := state)]) else s
  }

  predicate RowActive(s: State, a: App) {
    a in s.rows && s.rows[a].state in {Running, Starting}
  }

  // ----- transitions -----

  predicate WatcherAt(s: State, t: Tid) { t in s.threads && s.threads[t].Watcher? }
  predicate StarterAt(s: State, t: Tid) { t in s.threads && s.threads[t].Starter? }
  predicate StopperAt(s: State, t: Tid) { t in s.threads && s.threads[t].Stopper? }

  ghost predicate StartEnabled(s: State, t: Tid, step: StartStep) {
    && StarterAt(s, t)
    && match step
       case Spec(ok) => s.threads[t].spc.SBuild? && (ok ==> s.threads[t].app in s.policies)
       case Launch(out) => s.threads[t].spc.SLaunch? && LaunchAllowed(s, s.threads[t].app, out)
       case Insert(ok) => s.threads[t].spc.SInsert?
       case Register => s.threads[t].spc.SRegister?
  }

  ghost predicate StopEnabled(s: State, t: Tid, step: StopStep) {
    && StopperAt(s, t)
    && match step
       case Read(ok) => s.threads[t].tpc.TRead?
       case Kill(ok) => s.threads[t].tpc.TKill? && (ok ==> IsAlive(s, s.threads[t].tpc.h))
       case Mark(ok) => s.threads[t].tpc.TMark?
  }

  ghost predicate WatchEnabled(s: State, t: Tid, step: WatchStep) {
    && WatcherAt(s, t)
    && var th := s.threads[t];
       StepFits(th.pc, step) &&
       match step
       case WaitReturns(failed) => th.cancelled || failed || Gone(s, th.pc.h)
       case BackoffEnds(byCancel) => byCancel ==> th.cancelled
       case BuildRead(ok) => ok ==> !th.cancelled
       case Relaunch(out) => LaunchAllowed(s, th.app, out)
       case RelaunchRecorded(ok) => ok ==> !th.cancelled
       case _ => true
  }

  ghost predicate Enabled(s: State, step: Step) {
    match step
    case BeginStart(a) => s.pending == {} && a !in s.watches
    case OfStart(t, start) => StartEnabled(s, t, start)
    case BeginStop(a) => s.pending == {}
    case OfStop(t, stop) => StopEnabled(s, t, stop)
    case OfWatch(t, watch) => WatchEnabled(s, t, watch)
    case Shutdown => true
    case Restart => true
    case ReconcileApp(a, checkOk, found, writeOk) =>
      && a in s.pending
      && (found.Some? ==>
            && a in s.rows && found.value in s.live
            && found.value.owner.Managed? && found.value.owner.inst == s.rows[a].h.inst)
    case SetPolicy(a, policy) => a in s.policies
    case ProcExits(p) => p in s.live
    case ForeignStarts(p) => p.owner.Foreign? && Fresh(s, p)
  }

  /** What one step of a thread changes: the thread itself (gone if None), its app's row (untouched if None),
      the processes of the host, the watches entry of its app, and the history. */
  datatype Effect = Effect(next: Option<Thread>, row: Option<Row>, spawned: set<Proc>, killed: set<Proc>,
                           unregister: bool, event: Option<Event>)

  function Becomes(th: Thread): Effect { Effect(Some(th), None, {}, {}, false, None) }

  const ENDS := Effect(None, None, {}, {}, false, None)

  function Marked(row: Option<Row>, state: RowState, ok: bool): Option<Row> {
    if ok && row.Some? then Some(row.value.(state := state)) else None
  }

  function StartEffect(th: Thread, step: StartStep): Effect
    requires th.Starter?
    requires step.Launch? ==> AllManaged(step.out)
    requires step.Insert? ==> th.spc.SInsert?
  {
    match step
    case Spec(ok) => if ok then Becomes(th.(spc := SLaunch)) else ENDS
    case Launch(out) =>
      (if Succeeds(out) then Becomes(th.(spc := SInsert(HandleOf(out.p)))) else ENDS).(
        spawned := Started(out), event := if out.LaunchFailed? then None else Some(OperatorLaunch(th.app)))
    case Insert(ok) =>
      Becomes(th.(spc := SRegister(th.spc.h))).(row := if ok then Some(Row(Running, th.spc.h, 0)) else None)
    case Register => ENDS
  }

  ghost function StopEffect(th: Thread, row: Option<Row>, live: set<Proc>, step: StopStep): Effect
    requires th.Stopper?
    requires step.Kill? ==> th.tpc.TKill?
  {
    match step
    case Read(ok) =>
      if ok && row.Some? && row.value.state in {Running, Starting}
      then Becomes(th.(tpc := TKill(row.value.h))) else ENDS
    case Kill(ok) =>
      if ok then Becomes(th.(tpc := TMark)).(killed := set p | p in live && Matches(p, th.tpc.h)) else ENDS
    case Mark(ok) => ENDS.(row := Marked(row, Stopped, ok))
  }

  predicate StepFits(pc: WatchPc, step: WatchStep) {
    match step
    case WaitReturns(_) => pc.Waiting?
    case PolicyRead(_) => pc.Exited?
    case CountRead(_) => pc.Counting?
    case StartingMarked(_) => pc.Marking?
    case BackoffEnds(_) => pc.Backoff?
    case BuildRead(_) => pc.Building?
    case Relaunch(out) => pc.Launching? && AllManaged(out)
    case RelaunchRecorded(_) => pc.Inserting?
    case FinalMark(_) => pc.Closing?
    case Leave => pc.Returning?
  }

  function WatchEffect(th: Thread, row: Option<Row>, policy: Option<Policy>, step: WatchStep): Effect
    requires th.Watcher? && StepFits(th.pc, step)
  {
    match step
    case WaitReturns(failed) => Becomes(th.(pc := if th.cancelled then Returning else Exited))
    case PolicyRead(ok) =>
      Becomes(th.(pc := if ok && policy.Some? && policy.value.watchdog
                        then Counting(policy.value.maxRestarts) else Closing(Stopped)))
    case CountRead(ok) =>
      var count := if ok && row.Some? then row.value.restarts else 0;
      Becomes(th.(pc := if th.pc.max > 0 && count >= th.pc.max then Closing(Failed) else Marking(count)))
    case StartingMarked(ok) =>
      Becomes(th.(pc := Backoff(th.pc.count))).(row := Marked(row, Starting, ok))
    case BackoffEnds(byCancel) =>
      Becomes(th.(pc := if byCancel then Closing(Stopped) else Building(0, th.pc.count)))
    case BuildRead(ok) =>
      Becomes(th.(pc := if !ok then Closing(Failed)
                        else if th.pc.stage >= LAST_CHECKED_READ then Launching(th.pc.count)
                        else Building(th.pc.stage + 1, th.pc.count)))
    case Relaunch(out) =>
      Becomes(th.(pc := if Succeeds(out) then Inserting(HandleOf(out.p), th.pc.count) else Closing(Failed))).(
        spawned := Started(out), event := if out.LaunchFailed? then None else Some(WatchdogLaunch(th.app)))
    case RelaunchRecorded(ok) =>
      Becomes(th.(pc := Waiting(th.pc.h))).(row := if ok then Some(Row(Running, th.pc.h, th.pc.count + 1)) else None)
    case FinalMark(ok) => Becomes(th.(pc := Returning)).(row := Marked(row, th.pc.final, ok))
    case Leave => ENDS.(unregister := true)
  }

  ghost function Commit(s: State, t: Tid, e: Effect): State
    requires t in s.threads
  {
    var a := s.threads[t].app;
    s.(threads := if e.next.Some? then s.threads[t := e.next.value] else s.threads - {t},
       rows := if e.row.Some? then s.rows[a := e.row.value] else s.rows,
       live := s.live - e.killed + e.spawned,
       past := s.past + e.spawned,
       watches := if e.unregister then s.watches - {a} else s.watches,
       log := if e.event.Some? then s.log + [e.event.value] else s.log)
  }

  /** The whole of reconcileApp for one app; nothing else of that app runs before the API opens. */
  ghost function AfterReconcile(s: State, a: App, checkOk: bool, found: Option<Proc>, writeOk: bool): State
    requires found.Some? ==> a in s.rows && found.value.owner.Managed?
  {
    var d := s.(pending := s.pending - {a});
    if !RowActive(s, a) || !checkOk then d
    else if IsAlive(s, s.rows[a].h) then StartWatcher(d, a, s.rows[a].h)
    else if found.Some? then
      if writeOk then StartWatcher(UpdateInstance(d, a, HandleOf(found.value)), a, HandleOf(found.value)) else d
    else if writeOk then MarkState(d, a, Stopped) else d
  }

  ghost function ApplyStart(s: State, t: Tid, step: StartStep): State
    requires StartEnabled(s, t, step)
  {
    var th := s.threads[t];
    if step.Register? then Commit(StartWatcher(s, th.app, th.spc.h), t, ENDS)
    else Commit(s, t, StartEffect(th, step))
  }

  ghost function ApplyStop(s: State, t: Tid, step: StopStep): State
    requires StopEnabled(s, t, step)
  {
    var th := s.threads[t];
    Commit(s, t, StopEffect(th, Lookup(s.rows, th.app), s.live, step))
  }

  ghost function ApplyWatch(s: State, t: Tid, step: WatchStep): State
    requires WatchEnabled(s, t, step)
  {
    var th := s.threads[t];
    Commit(s, t, WatchEffect(th, Lookup(s.rows, th.app), Lookup(s.policies, th.app), step))
  }

  ghost function Apply(s: State, step: Step): State
    requires Enabled(s, step)
  {
    match step
    case BeginStart(a) => s.(threads := s.threads[s.nextTid := Starter(a, SBuild)], nextTid := s.nextTid + 1)
    case OfStart(t, start) => ApplyStart(s, t, start)
    case BeginStop(a) =>
      var c := CancelWatcher(s, a);
      c.(threads := c.threads[s.nextTid := Stopper(a, TRead)], nextTid := s.nextTid + 1)
    case OfStop(t, stop) => ApplyStop(s, t, stop)
    case OfWatch(t, watch) => ApplyWatch(s, t, watch)
    case Shutdown => ShutdownAll(s)
    case Restart =>
      s.(watches := map[], shutdown := false, threads := map[], pending := s.policies.Keys)
    case ReconcileApp(a, checkOk, found, writeOk) => AfterReconcile(s, a, checkOk, found, writeOk)
    case SetPolicy(a, policy) => s.(policies := s.policies[a := policy])
    case ProcExits(p) => s.(live := s.live - {p})
    case ForeignStarts(p) => s.(live := s.live + {p}, past := s.past + {p})
  }

  /** A freshly installed JARVIS on a host that runs only foreign processes. */
  ghost predicate Init(s: State) {
    && s.watches == map[] && !s.shutdown && s.pending == s.policies.Keys
    && s.rows == map[] && s.threads == map[] && s.live == s.past && s.log == []
    && (forall p :: p in s.past ==> p.owner.Foreign? && p.pid > 0 && p.ctime > 0)
    && (forall p, q :: p in s.past && q in s.past && p.pid == q.pid ==> p == q)
  }

  /** A run: every step is enabled in the state the steps before it lead to. */
  ghost predicate Run(s: State, steps: seq<Step>)
    decreases |steps|
  {
    steps != [] ==> Enabled(s, steps[0]) && Run(Apply(s, steps[0]), steps[1..])
  }

  ghost function Exec(s: State, steps: seq<Step>): State
    requires Run(s, steps)
    decreases |steps|
  {
    if steps == [] then s else Exec(Apply(s, steps[0]), steps[1..])
  }
}
