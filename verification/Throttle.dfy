/** The login throttle under concurrency. The check and the recording of a failure are separate statements, so logins
    in flight can overshoot the limit; this bounds by how much, and shows that the bound is reached. */
module Throttle {
  import opened Auth
  import Common

  datatype Attempt = Attempt(name: string, remote: string)

  /** The failures table, the clock, and the logins that have passed the check and not yet finished. */
  datatype System = System(failures: seq<Failure>, now: Instant, inFlight: map<nat, Attempt>, nextId: nat)

  datatype Step =
    | Check(name: string, remote: string)  // passes; a refused login changes nothing
    | Fail(id: nat)                        // bad credentials or disabled: a row is written
    | Succeed(id: nat)                     // the rows of the name are deleted
    | Abort(id: nat)                       // an error that records nothing
    | Tick(to: Instant)
    | Clean

  /** At most `c` logins are in flight, and the clock does not go back. */
  predicate Enabled(s: System, step: Step, c: nat) {
    match step
    case Check(name, remote) => |s.inFlight| < c && !Throttled(s.failures, name, remote, Sec(s.now))
    case Fail(id) => id in s.inFlight
    case Succeed(id) => id in s.inFlight
    case Abort(id) => id in s.inFlight
    case Tick(to) => s.now <= to
    case Clean => true
  }

  function Apply(s: System, step: Step, c: nat): System
    requires Enabled(s, step, c)
  {
    match step
    case Check(name, remote) =>
      s.(inFlight := s.inFlight[s.nextId := Attempt(name, remote)], nextId := s.nextId + 1)
    case Fail(id) =>
      s.(failures := s.failures + [Failure(s.inFlight[id].name, s.inFlight[id].remote, Sec(s.now))],
         inFlight := s.inFlight - {id})
    case Succeed(id) =>
      s.(failures := WithoutUser(s.failures, s.inFlight[id].name), inFlight := s.inFlight - {id})
    case Abort(id) => s.(inFlight := s.inFlight - {id})
    case Tick(to) => s.(now := to)
    case Clean => s.(failures := Younger(s.failures, Sec(s.now) - DAY))
  }

  predicate Run(s: System, steps: seq<Step>, c: nat)
    decreases |steps|
  {
    steps != [] ==> Enabled(s, steps[0], c) && Run(Apply(s, steps[0], c), steps[1..], c)
  }

  function Exec(s: System, steps: seq<Step>, c: nat): System
    requires Run(s, steps, c)
    decreases |steps|
  {
    if steps == [] then s else Exec(Apply(s, steps[0], c), steps[1..], c)
  }

  predicate Empty(s: System) {
    s.failures == [] && s.inFlight == map[]
  }

  function OfName(inFlight: map<nat, Attempt>, name: string): set<nat> {
    set id | id in inFlight && inFlight[id].name == name
  }

  function OfRemote(inFlight: map<nat, Attempt>, remote: string): set<nat> {
    set id | id in inFlight && inFlight[id].remote == remote
  }

  // ----- counting -----

  lemma {:induction false} CountsAppend(fs: seq<Failure>, f: Failure, name: string, remote: string, since: Second)
    ensures CountUser(fs + [f], name, since)
         == CountUser(fs, name, since) + if f.username == name && f.at > since then 1 else 0
    ensures CountRemote(fs + [f], remote, since)
         == CountRemote(fs, remote, since) + if f.remote == remote && f.at > since then 1 else 0
  {
    if fs == [] {
      assert [] + [f] == [f] && [f][1..] == [];
    } else {
      assert (fs + [f])[1..] == fs[1..] + [f];
      CountsAppend(fs[1..], f, name, remote, since);
    }
  }

  lemma {:induction false} LaterCountsLess(fs: seq<Failure>, name: string, remote: string, since: Second, later: Second)
    requires since <= later
    ensures CountUser(fs, name, later) <= CountUser(fs, name, since)
    ensures CountRemote(fs, remote, later) <= CountRemote(fs, remote, since)
  {
    if fs != [] {
      LaterCountsLess(fs[1..], name, remote, since, later);
    }
  }

  lemma {:induction false} SuccessCountsLess(fs: seq<Failure>, gone: string, name: string, remote: string,
                                             since: Second)
    ensures CountUser(WithoutUser(fs, gone), name, since) <= CountUser(fs, name, since)
    ensures CountRemote(WithoutUser(fs, gone), remote, since) <= CountRemote(fs, remote, since)
  {
    if fs != [] {
      SuccessCountsLess(fs[1..], gone, name, remote, since);
      if fs[0].username != gone {
        assert ([fs[0]] + WithoutUser(fs[1..], gone))[1..] == WithoutUser(fs[1..], gone);
      } else {
        assert [] + WithoutUser(fs[1..], gone) == WithoutUser(fs[1..], gone);
      }
    }
  }

  /** Rows older than the window do not count, so deleting rows older than a day changes nothing. */
  lemma {:induction false} CleaningCountsSame(fs: seq<Failure>, than: Second, name: string, remote: string,
                                              since: Second)
    requires than <= since
    ensures CountUser(Younger(fs, than), name, since) == CountUser(fs, name, since)
    ensures CountRemote(Younger(fs, than), remote, since) == CountRemote(fs, remote, since)
  {
    if fs != [] {
      CleaningCountsSame(fs[1..], than, name, remote, since);
      if fs[0].at > than {
        assert ([fs[0]] + Younger(fs[1..], than))[1..] == Younger(fs[1..], than);
      } else {
        assert [] + Younger(fs[1..], than) == Younger(fs[1..], than);
      }
    }
  }

  /** Cleanup changes no throttle decision, now or later. */
  lemma CleanupKeepsDecisions(fs: seq<Failure>, now: Instant, t: Instant, name: string, remote: string)
    requires now <= t
    ensures Throttled(Younger(fs, Sec(now) - DAY), name, remote, Sec(t)) == Throttled(fs, name, remote, Sec(t))
  {
    assert Sec(now) <= Sec(t);
    CleaningCountsSame(fs, Sec(now) - DAY, name, remote, Sec(t) - FAILURE_WINDOW);
  }

  // ----- the bound -----

  /** Recorded failures in the window plus logins that may still fail. */
  predicate Bounded(s: System, name: string, remote: string, c: nat) {
    && |s.inFlight| <= c
    && (forall id :: id in s.inFlight ==> id < s.nextId)
    && CountUser(s.failures, name, Sec(s.now) - FAILURE_WINDOW) + |OfName(s.inFlight, name)| <= 7 + c
    && CountRemote(s.failures, remote, Sec(s.now) - FAILURE_WINDOW) + |OfRemote(s.inFlight, remote)| <= 19 + c
  }

  lemma RemovedSizes(inFlight: map<nat, Attempt>, id: nat, name: string, remote: string)
    requires id in inFlight
    ensures |(inFlight - {id})| == |inFlight| - 1
    ensures |OfName(inFlight - {id}, name)| == |OfName(inFlight, name)| - if inFlight[id].name == name then 1 else 0
    ensures |OfRemote(inFlight - {id}, remote)|
         == |OfRemote(inFlight, remote)| - if inFlight[id].remote == remote then 1 else 0
  {
    assert (inFlight - {id}).Keys == inFlight.Keys - {id};
    assert OfName(inFlight - {id}, name) == OfName(inFlight, name) - {id};
    assert OfRemote(inFlight - {id}, remote) == OfRemote(inFlight, remote) - {id};
  }

  lemma JoinedOfName(inFlight: map<nat, Attempt>, id: nat, a: Attempt, name: string)
    requires id !in inFlight
    ensures |OfName(inFlight[id := a], name)| == |OfName(inFlight, name)| + if a.name == name then 1 else 0
  {
    if a.name == name {
      assert OfName(inFlight[id := a], name) == OfName(inFlight, name) + {id};
    } else {
      assert OfName(inFlight[id := a], name) == OfName(inFlight, name);
    }
  }

  lemma JoinedOfRemote(inFlight: map<nat, Attempt>, id: nat, a: Attempt, remote: string)
    requires id !in inFlight
    ensures |OfRemote(inFlight[id := a], remote)| == |OfRemote(inFlight, remote)| + if a.remote == remote then 1 else 0
  {
    if a.remote == remote {
      assert OfRemote(inFlight[id := a], remote) == OfRemote(inFlight, remote) + {id};
    } else {
      assert OfRemote(inFlight[id := a], remote) == OfRemote(inFlight, remote);
    }
  }

  lemma PartSizes(inFlight: map<nat, Attempt>, name: string, remote: string)
    ensures |OfName(inFlight, name)| <= |inFlight| && |OfRemote(inFlight, remote)| <= |inFlight|
  {
    Common.SubsetSize(OfName(inFlight, name), inFlight.Keys);
    Common.SubsetSize(OfRemote(inFlight, remote), inFlight.Keys);
  }

  lemma CheckKeepsBound(s: System, n: string, r: string, name: string, remote: string, c: nat)
    requires Bounded(s, name, remote, c) && Enabled(s, Check(n, r), c)
    ensures Bounded(Apply(s, Check(n, r), c), name, remote, c)
  {
    JoinedOfName(s.inFlight, s.nextId, Attempt(n, r), name);
    JoinedOfRemote(s.inFlight, s.nextId, Attempt(n, r), remote);
    PartSizes(s.inFlight, name, remote);
  }

  lemma FailKeepsBound(s: System, id: nat, name: string, remote: string, c: nat)
    requires Bounded(s, name, remote, c) && id in s.inFlight
    ensures Bounded(Apply(s, Fail(id), c), name, remote, c)
  {
    RemovedSizes(s.inFlight, id, name, remote);
    var row := Failure(s.inFlight[id].name, s.inFlight[id].remote, Sec(s.now));
    CountsAppend(s.failures, row, name, remote, Sec(s.now) - FAILURE_WINDOW);
  }

  lemma SucceedKeepsBound(s: System, id: nat, name: string, remote: string, c: nat)
    requires Bounded(s, name, remote, c) && id in s.inFlight
    ensures Bounded(Apply(s, Succeed(id), c), name, remote, c)
  {
    RemovedSizes(s.inFlight, id, name, remote);
    SuccessCountsLess(s.failures, s.inFlight[id].name, name, remote, Sec(s.now) - FAILURE_WINDOW);
  }

  lemma TickKeepsBound(s: System, to: Instant, name: string, remote: string, c: nat)
    requires Bounded(s, name, remote, c) && s.now <= to
    ensures Bounded(Apply(s, Tick(to), c), name, remote, c)
  {
    assert Sec(s.now) <= Sec(to);
    LaterCountsLess(s.failures, name, remote, Sec(s.now) - FAILURE_WINDOW, Sec(to) - FAILURE_WINDOW);
  }

  lemma AbortKeepsBound(s: System, id: nat, name: string, remote: string, c: nat)
    requires Bounded(s, name, remote, c) && id in s.inFlight
    ensures Bounded(Apply(s, Abort(id), c), name, remote, c)
  {
    RemovedSizes(s.inFlight, id, name, remote);
  }

  lemma CleanKeepsBound(s: System, name: string, remote: string, c: nat)
    requires Bounded(s, name, remote, c)
    ensures Bounded(Apply(s, Clean, c), name, remote, c)
  {
    assert Apply(s, Clean, c).inFlight == s.inFlight;
    CleaningCountsSame(s.failures, Sec(s.now) - DAY, name, remote, Sec(s.now) - FAILURE_WINDOW);
  }

  lemma BoundStep(s: System, step: Step, name: string, remote: string, c: nat)
    requires Bounded(s, name, remote, c) && Enabled(s, step, c)
    ensures Bounded(Apply(s, step, c), name, remote, c)
  {
    match step
    case Check(n, r) => CheckKeepsBound(s, n, r, name, remote, c);
    case Fail(id) => FailKeepsBound(s, id, name, remote, c);
    case Succeed(id) => SucceedKeepsBound(s, id, name, remote, c);
    case Abort(id) => AbortKeepsBound(s, id, name, remote, c);
    case Tick(to) => TickKeepsBound(s, to, name, remote, c);
    case Clean => CleanKeepsBound(s, name, remote, c);
  }

  lemma {:induction false} BoundRun(s: System, steps: seq<Step>, name: string, remote: string, c: nat)
    requires Bounded(s, name, remote, c) && Run(s, steps, c)
    ensures Bounded(Exec(s, steps, c), name, remote, c)
    decreases |steps|
  {
    if steps != [] {
      BoundStep(s, steps[0], name, remote, c);
      BoundRun(Apply(s, steps[0], c), steps[1..], name, remote, c);
    }
  }

  /** With at most c logins in flight, no 900 seconds hold more than 7 + c failures of a name or 19 + c of a remote. */
  lemma FailuresBounded(s: System, steps: seq<Step>, name: string, remote: string, c: nat)
    requires Empty(s) && Run(s, steps, c)
    ensures var end := Exec(s, steps, c);
            && CountUser(end.failures, name, Sec(end.now) - FAILURE_WINDOW) <= 7 + c
            && CountRemote(end.failures, remote, Sec(end.now) - FAILURE_WINDOW) <= 19 + c
  {
    assert OfName(s.inFlight, name) == {} && OfRemote(s.inFlight, remote) == {};
    BoundRun(s, steps, name, remote, c);
  }

  /** What a login that passed the check does next. */
  function Finish(reply: Reply, id: nat): Step {
    if reply.LoggedIn? then Succeed(id) else if reply == Refused(StoreFailed) then Abort(id) else Fail(id)
  }

  lemma TwoSteps(s: System, first: Step, second: Step, c: nat)
    requires Enabled(s, first, c) && Enabled(Apply(s, first, c), second, c)
    ensures Run(s, [first, second], c) && Exec(s, [first, second], c) == Apply(Apply(s, first, c), second, c)
  {
    var mid := Apply(s, first, c);
    var end := Apply(mid, second, c);
    assert [first, second][1..] == [second] && [second][1..] == [];
    assert Run(end, [], c) && Exec(end, [], c) == end;
    assert Run(mid, [second], c) && Exec(mid, [second], c) == end;
  }

  lemma FinishFollows(s: System, db: State, username: string, password: string, remote: string, token: string)
    requires Empty(s.(failures := [])) && db.failures == s.failures
    requires LoginStep(db, username, password, remote, token, s.now).1 != Refused(AccountLocked)
    ensures var (after, reply) := LoginStep(db, username, password, remote, token, s.now);
            var check, finish := Check(Normal(username), remote), Finish(reply, s.nextId);
            && Enabled(s, check, 1) && Enabled(Apply(s, check, 1), finish, 1)
            && Apply(Apply(s, check, 1), finish, 1) == s.(failures := after.failures, nextId := s.nextId + 1)
  {
    assert Apply(s, Check(Normal(username), remote), 1).inFlight - {s.nextId} == map[];
  }

  /** A login that meets no other is these steps run back to back, so the steps are what Login does. */
  lemma LoginIsSteps(s: System, db: State, username: string, password: string, remote: string, token: string)
    requires Empty(s.(failures := [])) && db.failures == s.failures
    ensures var (after, reply) := LoginStep(db, username, password, remote, token, s.now);
            var check, finish := Check(Normal(username), remote), Finish(reply, s.nextId);
            if reply == Refused(AccountLocked) then after == db && !Enabled(s, check, 1)
            else
              && Run(s, [check, finish], 1)
              && Exec(s, [check, finish], 1) == s.(failures := after.failures, nextId := s.nextId + 1)
  {
    var reply := LoginStep(db, username, password, remote, token, s.now).1;
    if reply != Refused(AccountLocked) {
      FinishFollows(s, db, username, password, remote, token);
      TwoSteps(s, Check(Normal(username), remote), Finish(reply, s.nextId), 1);
    }
  }

  // ----- the bound is reached -----

  ghost predicate Reachable(s: System, c: nat) {
    exists s0, steps :: Empty(s0) && Run(s0, steps, c) && Exec(s0, steps, c) == s
  }

  lemma {:induction false} RunAppend(s: System, steps: seq<Step>, step: Step, c: nat)
    requires Run(s, steps, c) && Enabled(Exec(s, steps, c), step, c)
    ensures Run(s, steps + [step], c) && Exec(s, steps + [step], c) == Apply(Exec(s, steps, c), step, c)
    decreases |steps|
  {
    if steps == [] {
      assert steps + [step] == [step] && [step][1..] == [];
    } else {
      assert (steps + [step])[1..] == steps[1..] + [step];
      RunAppend(Apply(s, steps[0], c), steps[1..], step, c);
    }
  }

  lemma Go(s: System, step: Step, c: nat)
    requires Reachable(s, c) && Enabled(s, step, c)
    ensures Reachable(Apply(s, step, c), c)
  {
    var s0, steps :| Empty(s0) && Run(s0, steps, c) && Exec(s0, steps, c) == s;
    RunAppend(s0, steps, step, c);
  }

  function RowOf(a: Attempt): Failure {
    Failure(a.name, a.remote, 0)
  }

  /** `n` failures of one attempt at instant 0. */
  function Rows(n: nat, a: Attempt): seq<Failure> {
    if n == 0 then [] else [RowOf(a)] + Rows(n - 1, a)
  }

  lemma {:induction false} RowsAdd(fs: seq<Failure>, n: nat, a: Attempt)
    ensures CountUser(fs + Rows(n, a), a.name, -FAILURE_WINDOW) == CountUser(fs, a.name, -FAILURE_WINDOW) + n
    ensures CountRemote(fs + Rows(n, a), a.remote, -FAILURE_WINDOW) == CountRemote(fs, a.remote, -FAILURE_WINDOW) + n
    decreases n
  {
    if n == 0 {
      assert fs + Rows(n, a) == fs;
    } else {
      assert fs + Rows(n, a) == fs + [RowOf(a)] + Rows(n - 1, a);
      RowsAdd(fs + [RowOf(a)], n - 1, a);
      CountsAppend(fs, RowOf(a), a.name, a.remote, -FAILURE_WINDOW);
    }
  }

  /** Logins `from` up to `from + n - 1`, all of the same attempt. */
  function Flights(from: nat, n: nat, a: Attempt): map<nat, Attempt> {
    if n == 0 then map[] else Flights(from, n - 1, a)[from + n - 1 := a]
  }

  function Flying(fs: seq<Failure>, from: nat, n: nat, a: Attempt): System {
    System(fs, 0, Flights(from, n, a), from + n)
  }

  lemma {:induction false} FlightsAre(from: nat, n: nat, a: Attempt)
    ensures forall id :: id in Flights(from, n, a) <==> from <= id < from + n
    ensures forall id :: id in Flights(from, n, a) ==> Flights(from, n, a)[id] == a
    ensures |Flights(from, n, a)| == n
  {
    if n > 0 {
      FlightsAre(from, n - 1, a);
    }
  }

  lemma FirstLands(from: nat, n: nat, a: Attempt)
    requires n > 0
    ensures Flights(from, n, a) - {from} == Flights(from + 1, n - 1, a)
  {
    FlightsAre(from, n, a);
    FlightsAre(from + 1, n - 1, a);
  }

  /** The attempt would pass the check. */
  predicate Passes(fs: seq<Failure>, a: Attempt) {
    !Throttled(fs, a.name, a.remote, Sec(0))
  }

  lemma OneChecks(fs: seq<Failure>, from: nat, n: nat, a: Attempt, c: nat)
    requires Passes(fs, a) && n < c
    ensures Enabled(Flying(fs, from, n, a), Check(a.name, a.remote), c)
    ensures Apply(Flying(fs, from, n, a), Check(a.name, a.remote), c) == Flying(fs, from, n + 1, a)
  {
    FlightsAre(from, n, a);
  }

  lemma OneFails(fs: seq<Failure>, from: nat, n: nat, a: Attempt, c: nat)
    requires n > 0
    ensures Enabled(Flying(fs, from, n, a), Fail(from), c)
    ensures Apply(Flying(fs, from, n, a), Fail(from), c) == Flying(fs + [RowOf(a)], from + 1, n - 1, a)
  {
    FlightsAre(from, n, a);
    FirstLands(from, n, a);
  }

  /** `n` more logins pass the check, one after the other, while no row is written. */
  lemma {:induction false} ChecksPass(fs: seq<Failure>, from: nat, n: nat, a: Attempt, c: nat)
    requires Passes(fs, a) && n <= c && Reachable(Flying(fs, from, 0, a), c)
    ensures Reachable(Flying(fs, from, n, a), c)
    decreases n
  {
    if n > 0 {
      ChecksPass(fs, from, n - 1, a, c);
      OneChecks(fs, from, n - 1, a, c);
      Go(Flying(fs, from, n - 1, a), Check(a.name, a.remote), c);
    }
  }

  lemma FirstFails(fs: seq<Failure>, from: nat, n: nat, a: Attempt, c: nat)
    requires n > 0 && Reachable(Flying(fs, from, n, a), c)
    ensures Reachable(Flying(fs + [RowOf(a)], from + 1, n - 1, a), c)
  {
    OneFails(fs, from, n, a, c);
    Go(Flying(fs, from, n, a), Fail(from), c);
  }

  lemma RowsSplit(fs: seq<Failure>, n: nat, a: Attempt)
    ensures fs + Rows(0, a) == fs
    ensures n > 0 ==> fs + Rows(n, a) == (fs + [RowOf(a)]) + Rows(n - 1, a)
  {
  }

  /** All logins in flight fail, which leaves the failures `all`. */
  lemma {:induction false} FlightsFail(fs: seq<Failure>, from: nat, n: nat, a: Attempt, c: nat, all: seq<Failure>)
    requires Reachable(Flying(fs, from, n, a), c) && all == fs + Rows(n, a)
    ensures Reachable(Flying(all, from + n, 0, a), c)
    decreases n
  {
    RowsSplit(fs, n, a);
    if n > 0 {
      FirstFails(fs, from, n, a, c);
      FlightsFail(fs + [RowOf(a)], from + 1, n - 1, a, c, all);
    }
  }

  /** With nothing in flight, the attempt `a` passes the check `n` times and then fails as often. */
  lemma Burst(fs: seq<Failure>, from: nat, n: nat, a: Attempt, other: Attempt, c: nat)
    requires Passes(fs, a) && n <= c && Reachable(Flying(fs, from, 0, other), c)
    ensures exists end :: Reachable(Flying(fs + Rows(n, a), end, 0, a), c)
  {
    assert Flying(fs, from, 0, a) == Flying(fs, from, 0, other);
    ChecksPass(fs, from, n, a, c);
    FlightsFail(fs, from, n, a, c, fs + Rows(n, a));
  }

  lemma NothingFlies(a: Attempt, c: nat)
    ensures Reachable(Flying([], 0, 0, a), c)
  {
    var s := Flying([], 0, 0, a);
    assert Empty(s) && Run(s, [], c) && Exec(s, [], c) == s;
  }

  lemma {:induction false} OneByOne(n: nat, a: Attempt, c: nat)
    requires n <= 7 && c >= 1
    ensures exists end :: Reachable(Flying(Rows(n, a), end, 0, a), c)
    ensures CountUser(Rows(n, a), a.name, -FAILURE_WINDOW) == n
        && CountRemote(Rows(n, a), a.remote, -FAILURE_WINDOW) == n
    decreases n
  {
    RowsAdd([], n, a);
    assert [] + Rows(n, a) == Rows(n, a);
    if n == 0 {
      NothingFlies(a, c);
    } else {
      OneByOne(n - 1, a, c);
      var end :| Reachable(Flying(Rows(n - 1, a), end, 0, a), c);
      Burst(Rows(n - 1, a), end, 1, a, a, c);
      RowsAtEnd(n, a);
    }
  }

  lemma {:induction false} RowsAtEnd(n: nat, a: Attempt)
    requires n > 0
    ensures Rows(n - 1, a) + Rows(1, a) == Rows(n, a)
  {
    assert Rows(1, a) == [RowOf(a)] + Rows(0, a);
    if n > 1 {
      RowsAtEnd(n - 1, a);
    }
  }

  lemma NameBurst(n: nat, a: Attempt, c: nat)
    requires n <= 7 && c >= 1
    ensures exists end :: Reachable(Flying(Rows(n, a) + Rows(c, a), end, 0, a), c)
    ensures CountUser(Rows(n, a) + Rows(c, a), a.name, -FAILURE_WINDOW) == n + c
  {
    OneByOne(n, a, c);
    var end :| Reachable(Flying(Rows(n, a), end, 0, a), c);
    Burst(Rows(n, a), end, c, a, a, c);
    RowsAdd(Rows(n, a), c, a);
  }

  /** Seven failures one by one, then c logins that all pass the check before any of them fails. */
  lemma BoundIsReached(a: Attempt, c: nat)
    requires c >= 1
    ensures exists s :: Reachable(s, c) && CountUser(s.failures, a.name, Sec(s.now) - FAILURE_WINDOW) == 7 + c
  {
    NameBurst(7, a, c);
    var end :| Reachable(Flying(Rows(7, a) + Rows(c, a), end, 0, a), c);
    assert Sec(Flying(Rows(7, a) + Rows(c, a), end, 0, a).now) - FAILURE_WINDOW == -FAILURE_WINDOW;
  }

  // The same for a remote: the failures are spread over names, so that no name is locked before the remote is.

  /** Attempts number 0, 1, ... from one remote, each under another name. */
  function Nth(n: nat, remote: string): Attempt {
    Attempt(seq(n, i => 'x'), remote)
  }

  function Spread(n: nat, remote: string): seq<Failure> {
    if n == 0 then [] else Spread(n - 1, remote) + [RowOf(Nth(n - 1, remote))]
  }

  lemma {:induction false} SpreadCounts(n: nat, m: nat, remote: string)
    requires n <= m
    ensures CountUser(Spread(n, remote), Nth(m, remote).name, -FAILURE_WINDOW) == 0
    ensures CountRemote(Spread(n, remote), remote, -FAILURE_WINDOW) == n
  {
    if n > 0 {
      SpreadCounts(n - 1, m, remote);
      assert |Nth(n - 1, remote).name| != |Nth(m, remote).name|;
      CountsAppend(Spread(n - 1, remote), RowOf(Nth(n - 1, remote)), Nth(m, remote).name, remote, -FAILURE_WINDOW);
    }
  }

  lemma SpreadPasses(n: nat, remote: string)
    requires n <= 19
    ensures Passes(Spread(n, remote), Nth(n, remote))
  {
    SpreadCounts(n, n, remote);
    assert Sec(0) - FAILURE_WINDOW == -FAILURE_WINDOW;
  }

  lemma {:induction false} SpreadIsReachable(n: nat, remote: string, c: nat)
    requires n <= 19 && c >= 1
    ensures exists end :: Reachable(Flying(Spread(n, remote), end, 0, Nth(n, remote)), c)
    decreases n
  {
    if n == 0 {
      NothingFlies(Nth(n, remote), c);
      assert Reachable(Flying(Spread(n, remote), 0, 0, Nth(n, remote)), c);
    } else {
      var a := Nth(n - 1, remote);
      SpreadIsReachable(n - 1, remote, c);
      var end :| Reachable(Flying(Spread(n - 1, remote), end, 0, a), c);
      SpreadPasses(n - 1, remote);
      Burst(Spread(n - 1, remote), end, 1, a, a, c);
      assert Rows(1, a) == [RowOf(a)] + Rows(0, a);
      var end' :| Reachable(Flying(Spread(n - 1, remote) + Rows(1, a), end', 0, a), c);
      assert Flying(Spread(n, remote), end', 0, Nth(n, remote))
          == Flying(Spread(n - 1, remote) + Rows(1, a), end', 0, a);
    }
  }

  lemma RemoteBurst(n: nat, remote: string, c: nat)
    requires n <= 19 && c >= 1
    ensures exists end :: Reachable(Flying(Spread(n, remote) + Rows(c, Nth(n, remote)), end, 0, Nth(n, remote)), c)
    ensures CountRemote(Spread(n, remote) + Rows(c, Nth(n, remote)), remote, -FAILURE_WINDOW) == n + c
  {
    var a := Nth(n, remote);
    SpreadIsReachable(n, remote, c);
    var end :| Reachable(Flying(Spread(n, remote), end, 0, a), c);
    SpreadPasses(n, remote);
    Burst(Spread(n, remote), end, c, a, a, c);
    SpreadCounts(n, n, remote);
    RowsAdd(Spread(n, remote), c, a);
  }

  /** Nineteen failures of different names one by one, then c logins of yet another name at once. */
  lemma RemoteBoundIsReached(remote: string, c: nat)
    requires c >= 1
    ensures exists s :: Reachable(s, c) && CountRemote(s.failures, remote, Sec(s.now) - FAILURE_WINDOW) == 19 + c
  {
    RemoteBurst(19, remote, c);
    var fs := Spread(19, remote) + Rows(c, Nth(19, remote));
    var end :| Reachable(Flying(fs, end, 0, Nth(19, remote)), c);
    assert Sec(Flying(fs, end, 0, Nth(19, remote)).now) - FAILURE_WINDOW == -FAILURE_WINDOW;
  }
}
