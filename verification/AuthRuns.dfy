/** What the auth service promises over whole runs, with operations one at a time and a clock that does not go back. */
module AuthRuns {
  import opened Common
  import opened Auth

  // ----- runs and their histories -----

  /** One operation of a run: when it ran and what it answered. */
  datatype Event = Event(op: Op, at: Instant, reply: Reply)

  ghost predicate StateOk(s: State) {
    && (forall id :: id in s.users ==> id < s.nextId)
    && (forall d :: d in s.sessions ==> s.sessions[d].user in s.users && !s.users[s.sessions[d].user].disabled)
  }

  /** `h` is what happened from `start`, and `end` where it led. Tokens handed out are never empty. */
  ghost predicate History(start: State, h: seq<Event>, end: State)
    decreases |h|
  {
    if h == [] then end == start
    else
      var e := h[|h| - 1];
      exists mid ::
        && History(start, h[..|h| - 1], mid)
        && Step(mid, e.op, e.at) == (end, e.reply)
        && (e.op.Login? ==> e.op.token != "")
        && (|h| > 1 ==> h[|h| - 2].at <= e.at)
  }

  function Now(h: seq<Event>): Instant {
    if h == [] then 0 else h[|h| - 1].at
  }

  lemma LastEvent(start: State, h: seq<Event>, end: State) returns (mid: State)
    requires h != [] && History(start, h, end)
    ensures var front, e := h[..|h| - 1], h[|h| - 1];
            && History(start, front, mid) && Step(mid, e.op, e.at) == (end, e.reply)
            && (e.op.Login? ==> e.op.token != "") && Now(front) <= e.at
  {
    var e := h[|h| - 1];
    mid :| && History(start, h[..|h| - 1], mid) && Step(mid, e.op, e.at) == (end, e.reply)
           && (e.op.Login? ==> e.op.token != "") && (|h| > 1 ==> h[|h| - 2].at <= e.at);
  }

  // ----- what a history says about a token -----

  predicate Issues(e: Event, token: string) {
    e.op.Login? && e.op.token == token && e.reply.LoggedIn?
  }

  /** The event ends the sessions of user `u` that `token` belongs to. */
  predicate Revokes(e: Event, token: string, u: Id) {
    || (e.op.Logout? && e.op.token == token)
    || (e.op.ResetPassword? && e.op.user == u && e.reply.Done?)
    || (e.op.ChangePassword? && e.op.user == u && e.reply.Done? && e.op.keepToken != token)
    || (e.op.SetUserState? && e.op.user == u && e.op.disabled && e.reply.Done?)
    || (e.op.DeleteUser? && e.op.user == u && e.reply.Done?)
  }

  /** The token was issued or successfully validated. */
  predicate Touches(e: Event, token: string) {
    Issues(e, token) || (e.op.Validate? && e.op.token == token && e.reply.Validated?)
  }

  /** Event i issued the token, nothing revoked it since, and event k is its last use so far. */
  ghost predicate Stands(h: seq<Event>, token: string, i: int, k: int) {
    && 0 <= i <= k < |h|
    && Issues(h[i], token) && Touches(h[k], token)
    && (forall j :: i < j < |h| ==> !Issues(h[j], token) && !Revokes(h[j], token, h[i].reply.user))
    && (forall j :: k < j < |h| ==> !Touches(h[j], token))
  }

  /** By the history alone, the token is good at `t`: it stands, less than seven days old and used at most twelve hours
      ago. Instants are compared at the resolution at which the table stores them. */
  ghost predicate GoodBy(h: seq<Event>, token: string, t: Instant, i: int, k: int) {
    && Stands(h, token, i, k)
    && Sec(t) < Sec(h[i].at) + MAX_LIFETIME
    && t - Sec(h[k].at) * SECOND <= IDLE_TIMEOUT
  }

  ghost predicate Good(h: seq<Event>, token: string, t: Instant) {
    exists i, k :: GoodBy(h, token, t, i, k)
  }

  // ----- a ledger per token, between the history and the table -----

  datatype Entry = Entry(user: Id, issued: Instant, touched: Instant)
  function After(prev: Option<Entry>, e: Event, token: string): Option<Entry> {
    if Issues(e, token) then Some(Entry(e.reply.user, e.at, e.at))
    else if prev.None? || Revokes(e, token, prev.value.user) then None
    else if Touches(e, token) then Some(prev.value.(touched := e.at))
    else prev
  }

  function Ledger(h: seq<Event>, token: string): Option<Entry> {
    if h == [] then None else After(Ledger(h[..|h| - 1], token), h[|h| - 1], token)
  }

  predicate Fresh(entry: Entry, t: Instant) {
    Sec(t) < Sec(entry.issued) + MAX_LIFETIME && t - Sec(entry.touched) * SECOND <= IDLE_TIMEOUT
  }

  function Row(entry: Entry): Session {
    Session(entry.user, Sec(entry.issued) + MAX_LIFETIME, Sec(entry.touched))
  }

  /** The table agrees with the ledger: no row without its entry, and a row for every entry that is still fresh. */
  predicate Agrees(s: State, entry: Option<Entry>, token: string, now: Instant) {
    && (Digest(token) in s.sessions ==> entry.Some? && s.sessions[Digest(token)] == Row(entry.value))
    && (entry.Some? && Fresh(entry.value, now) ==> Digest(token) in s.sessions)
    && (entry.Some? ==> entry.value.issued <= now && entry.value.touched <= now)
  }

  lemma StateOkStep(s: State, op: Op, now: Instant)
    requires StateOk(s)
    ensures StateOk(Step(s, op, now).0)
  {
    match op
    case SetUserState(user, role, disabled) => SetStateKeepsOk(s, user, role, disabled);
    case DeleteUser(user, referenced) => DeleteKeepsOk(s, user, referenced);
    case Bootstrap => BootstrapKeepsOk(s);
    case _ =>
  }

  lemma SetStateKeepsOk(s: State, user: Id, role: Role, disabled: bool)
    requires StateOk(s)
    ensures StateOk(SetUserStateStep(s, user, role, disabled).0)
  {
  }

  lemma DeleteKeepsOk(s: State, user: Id, referenced: bool)
    requires StateOk(s)
    ensures StateOk(DeleteUserStep(s, user, referenced).0)
  {
  }

  lemma BootstrapKeepsOk(s: State)
    requires StateOk(s)
    ensures StateOk(BootstrapStep(s).0)
  {
  }

  lemma FreshWasFresh(entry: Entry, now: Instant, later: Instant)
    requires now <= later && Fresh(entry, later)
    ensures Fresh(entry, now)
  {
    assert Sec(now) <= Sec(later);
  }

  lemma AgreesLater(s: State, entry: Option<Entry>, token: string, now: Instant, later: Instant)
    requires Agrees(s, entry, token, now) && now <= later
    ensures Agrees(s, entry, token, later)
  {
    if entry.Some? && Fresh(entry.value, later) {
      FreshWasFresh(entry.value, now, later);
    }
  }

  lemma AgreesStep(s: State, op: Op, now: Instant, entry: Option<Entry>, token: string)
    requires StateOk(s) && token != "" && Agrees(s, entry, token, now)
    requires op.Login? ==> op.token != ""
    ensures var (s', r) := Step(s, op, now); Agrees(s', After(entry, Event(op, now, r), token), token, now)
  {
    match op
    case Login(_, _, _, _) => LoginAgrees(s, op, now, entry, token);
    case Validate(_) => ValidateAgrees(s, op, now, entry, token);
    case _ => OtherAgrees(s, op, now, entry, token);
  }

  lemma LoginAgrees(s: State, op: Op, now: Instant, entry: Option<Entry>, token: string)
    requires StateOk(s) && Agrees(s, entry, token, now) && op.Login?
    ensures var (s', r) := Step(s, op, now); Agrees(s', After(entry, Event(op, now, r), token), token, now)
  {
  }

  lemma ValidateAgrees(s: State, op: Op, now: Instant, entry: Option<Entry>, token: string)
    requires StateOk(s) && Agrees(s, entry, token, now) && op.Validate?
    ensures var (s', r) := Step(s, op, now); Agrees(s', After(entry, Event(op, now, r), token), token, now)
  {
  }

  lemma OtherAgrees(s: State, op: Op, now: Instant, entry: Option<Entry>, token: string)
    requires StateOk(s) && token != "" && Agrees(s, entry, token, now) && !op.Login? && !op.Validate?
    ensures var (s', r) := Step(s, op, now); Agrees(s', After(entry, Event(op, now, r), token), token, now)
  {
  }

  lemma {:induction false} LedgerAgrees(start: State, h: seq<Event>, end: State, token: string)
    requires start.sessions == map[] && StateOk(start) && token != "" && History(start, h, end)
    ensures StateOk(end) && Agrees(end, Ledger(h, token), token, Now(h))
    decreases |h|
  {
    if h != [] {
      var front, e := h[..|h| - 1], h[|h| - 1];
      var mid := LastEvent(start, h, end);
      LedgerAgrees(start, front, mid, token);
      AgreesLater(mid, Ledger(front, token), token, Now(front), e.at);
      AgreesStep(mid, e.op, e.at, Ledger(front, token), token);
      StateOkStep(mid, e.op, e.at);
    }
  }

  // ----- the ledger says what the history says -----

  lemma {:induction false} LedgerStands(h: seq<Event>, token: string) returns (i: int, k: int)
    requires Ledger(h, token).Some?
    ensures Stands(h, token, i, k)
    ensures Ledger(h, token) == Some(Entry(h[i].reply.user, h[i].at, h[k].at))
    decreases |h|
  {
    var n := |h| - 1;
    if Issues(h[n], token) {
      i, k := n, n;
    } else {
      i, k := LedgerStands(h[..n], token);
      assert forall j :: 0 <= j < n ==> h[..n][j] == h[j];
      if Touches(h[n], token) {
        k := n;
      }
    }
  }

  lemma {:induction false} StandsLedger(h: seq<Event>, token: string, i: int, k: int)
    requires Stands(h, token, i, k)
    ensures Ledger(h, token) == Some(Entry(h[i].reply.user, h[i].at, h[k].at))
    decreases |h|
  {
    var n := |h| - 1;
    var front := h[..n];
    if !Issues(h[n], token) {
      assert forall j :: 0 <= j < n ==> front[j] == h[j];
      if k < n {
        StandsLedger(front, token, i, k);
      } else {
        var k' := LastTouch(front, token, i);
        StandsLedger(front, token, i, k');
      }
    }
  }

  lemma {:induction false} LastTouch(h: seq<Event>, token: string, i: int) returns (k: int)
    requires 0 <= i < |h| && Issues(h[i], token)
    ensures i <= k < |h| && Touches(h[k], token) && forall j :: k < j < |h| ==> !Touches(h[j], token)
    decreases |h|
  {
    var n := |h| - 1;
    if Touches(h[n], token) {
      k := n;
    } else {
      k := LastTouch(h[..n], token, i);
    }
  }

  lemma GoodIsLedger(h: seq<Event>, token: string, t: Instant)
    ensures Good(h, token, t) <==> Ledger(h, token).Some? && Fresh(Ledger(h, token).value, t)
  {
    if Good(h, token, t) {
      var i, k :| GoodBy(h, token, t, i, k);
      StandsLedger(h, token, i, k);
    }
    if Ledger(h, token).Some? && Fresh(Ledger(h, token).value, t) {
      var i, k := LedgerStands(h, token);
      assert GoodBy(h, token, t, i, k);
    }
  }

  // ----- the theorem -----

  /** After any run from a database without sessions, a token validates at a later instant exactly if the history says
      so. */
  lemma ValidatesIffGood(start: State, h: seq<Event>, end: State, token: string, t: Instant)
    requires start.sessions == map[] && StateOk(start) && History(start, h, end) && Now(h) <= t && token != ""
    ensures ValidateStep(end, token, t).1.Validated? <==> Good(h, token, t)
    ensures forall i, k :: GoodBy(h, token, t, i, k) ==> ValidateStep(end, token, t).1 == Validated(h[i].reply.user)
  {
    LedgerAgrees(start, h, end, token);
    AgreesLater(end, Ledger(h, token), token, Now(h), t);
    GoodIsLedger(h, token, t);
    forall i, k | GoodBy(h, token, t, i, k)
      ensures ValidateStep(end, token, t).1 == Validated(h[i].reply.user)
    {
      StandsLedger(h, token, i, k);
    }
  }

  /** Every event of a history happened in a state that the events before it led to. */
  lemma {:induction false} HistoryAt(start: State, h: seq<Event>, end: State, j: nat) returns (mid: State)
    requires History(start, h, end) && j < |h|
    ensures History(start, h[..j], mid) && Step(mid, h[j].op, h[j].at).1 == h[j].reply && Now(h[..j]) <= h[j].at
    decreases |h|
  {
    var n := |h| - 1;
    var before := LastEvent(start, h, end);
    if j == n {
      mid := before;
    } else {
      mid := HistoryAt(start, h[..n], before, j);
      assert h[..n][..j] == h[..j] && h[..n][j] == h[j];
    }
  }

  /** Between a token's issue and its last use, no two successive uses are more than twelve hours apart. */
  lemma GapsAreShort(start: State, h: seq<Event>, end: State, token: string, i: int, k: int, j1: int, j2: int)
    requires start.sessions == map[] && StateOk(start) && History(start, h, end) && token != ""
    requires Stands(h, token, i, k) && i <= j1 < j2 <= k && Touches(h[j1], token) && Touches(h[j2], token)
    requires forall j :: j1 < j < j2 ==> !Touches(h[j], token)
    ensures h[j2].at - Sec(h[j1].at) * SECOND <= IDLE_TIMEOUT
  {
    var mid := HistoryAt(start, h, end, j2);
    var front := h[..j2];
    ValidatesIffGood(start, front, mid, token, h[j2].at);
    var i', k' :| GoodBy(front, token, h[j2].at, i', k');
    assert front[i'] == h[i'] && front[k'] == h[k'] && front[j1] == h[j1] && front[i] == h[i];
    assert i' == i && k' == j1;
  }

  /** Neither Cleanup nor a rename changes any later answer about any token. */
  lemma CleanupAndRenameKeepAnswers(s: State, token: string, now: Instant, t: Instant, user: Id, name: string)
    requires now <= t
    ensures ValidateStep(CleanupStep(s, now).0, token, t).1 == ValidateStep(s, token, t).1
    ensures ValidateStep(ChangeUsernameStep(s, user, name).0, token, t).1 == ValidateStep(s, token, t).1
  {
    assert Sec(now) <= Sec(t);
  }

  /** Cleanup leaves no session that has expired and no failure older than a day, and every other session. */
  lemma {:induction false} CleanupPrunes(s: State, now: Instant)
    ensures var s' := CleanupStep(s, now).0;
            && (forall d :: d in s'.sessions <==> d in s.sessions && s.sessions[d].expires > Sec(now))
            && (forall d :: d in s'.sessions ==> s'.sessions[d] == s.sessions[d])
            && (forall f :: f in s'.failures ==> f.at > Sec(now) - 24 * 3600)
  {
    YoungerAre(s.failures, Sec(now) - DAY);
  }

  lemma {:induction false} YoungerAre(fs: seq<Failure>, than: Second)
    ensures forall f :: f in Younger(fs, than) ==> f.at > than
  {
    if fs != [] {
      YoungerAre(fs[1..], than);
    }
  }

  /** After a password change, exactly the new password logs the user in. */
  lemma OnlyNewPasswordLogsIn(s: State, user: Id, current: string, next: string, keepToken: string,
                              username: string, attempt: string, remote: string, token: string, now: Instant)
    requires UniqueNames(s.users) && user in s.users && !s.users[user].disabled
        && s.users[user].username == Normal(username)
    requires ChangePasswordStep(s, user, current, next, keepToken).1 == Done
    requires !Throttled(s.failures, Normal(username), remote, Sec(now)) && Digest(token) !in s.sessions
    ensures var s' := ChangePasswordStep(s, user, current, next, keepToken).0;
            LoginStep(s', username, attempt, remote, token, now).1
            == if attempt == next then LoggedIn(user) else Refused(BadCredentials)
  {
    var s' := ChangePasswordStep(s, user, current, next, keepToken).0;
    assert s'.users[user].username == Normal(username);
    assert Exists(s'.users, Normal(username));
    assert ByName(s'.users, Normal(username)) == user;
  }

  // ----- the last administrator -----

  ghost predicate HasAdmin(users: map<Id, User>) {
    exists id :: EnabledAdmin(users, id)
  }

  /** The writes operations make to the users table. Each is one statement or one transaction, so these are the steps
      that interleave when operations overlap; what was read before them may be out of date. */
  datatype UserWrite =
    | Insert(id: Id, row: User)
    | SetState(user: Id, role: Role, disabled: bool)
    | Delete(user: Id)
    | SetName(user: Id, name: string)
    | SetPassword(user: Id, password: Digest, mustChange: bool)

  function Write(users: map<Id, User>, w: UserWrite): map<Id, User> {
    match w
    case Insert(id, row) => if id in users then users else users[id := row]
    case SetState(user, role, disabled) => SetUserStateStep(State(users, 0, map[], []), user, role, disabled).0.users
    case Delete(user) => DeleteUserStep(State(users, 0, map[], []), user, false).0.users
    case SetName(user, name) =>
      if user in users then users[user := users[user].(username := name)] else users
    case SetPassword(user, password, mustChange) =>
      if user in users then users[user := users[user].(password := password, mustChange := mustChange)] else users
  }

  lemma OthersExist(users: map<Id, User>, id: Id)
    requires OtherAdmins(users, id) > 0
    ensures exists i :: i != id && EnabledAdmin(users, i)
  {
    var others := set i | i in users && EnabledAdmin(users, i) && i != id;
    var i :| i in others;
  }

  lemma WriteKeepsAdmin(users: map<Id, User>, w: UserWrite)
    requires HasAdmin(users)
    ensures HasAdmin(Write(users, w))
  {
    var after := Write(users, w);
    var id :| EnabledAdmin(users, id);
    if (w.SetState? || w.Delete?) && w.user == id && OtherAdmins(users, id) > 0 {
      OthersExist(users, id);
      var i :| i != id && EnabledAdmin(users, i);
      assert EnabledAdmin(after, i);
    } else {
      assert EnabledAdmin(after, id);
    }
  }

  function WriteAll(users: map<Id, User>, ws: seq<UserWrite>): map<Id, User>
    decreases |ws|
  {
    if ws == [] then users else WriteAll(Write(users, ws[0]), ws[1..])
  }

  /** At every transaction boundary, in any interleaving of operations, an administrator can still get in, once
      Bootstrap has run on a database that was empty or had one. */
  lemma {:induction false} AdminRemains(users: map<Id, User>, ws: seq<UserWrite>)
    requires HasAdmin(users)
    ensures HasAdmin(WriteAll(users, ws))
    decreases |ws|
  {
    if ws != [] {
      WriteKeepsAdmin(users, ws[0]);
      AdminRemains(Write(users, ws[0]), ws[1..]);
    }
  }

  lemma BootstrapLeavesAdmin(s: State)
    requires s.users == map[] || HasAdmin(s.users)
    ensures HasAdmin(BootstrapStep(s).0.users)
  {
    var after := BootstrapStep(s).0.users;
    if s.users == map[] {
      assert EnabledAdmin(after, s.nextId);
    } else {
      var id :| EnabledAdmin(s.users, id);
      assert EnabledAdmin(after, id);
    }
  }

  /** The operations are made of these writes, Bootstrap at every start of JARVIS included. */
  lemma OperationsAreWrites(s: State, op: Op, now: Instant)
    requires StateOk(s)
    ensures var s' := Step(s, op, now).0; s'.users == s.users || exists w :: s'.users == Write(s.users, w)
  {
    var s' := Step(s, op, now).0;
    match op
    case ChangePassword(user, _, next, _) =>
      assert s'.users == Write(s.users, SetPassword(user, Digest(next), false)) || s'.users == s.users;
    case ResetPassword(user, next) =>
      assert s'.users == Write(s.users, SetPassword(user, Digest(next), true)) || s'.users == s.users;
    case CreateUser(username, password, role) =>
      var row := User(Normal(username), Digest(password), role, false, true);
      assert s'.users == Write(s.users, Insert(s.nextId, row)) || s'.users == s.users;
    case SetUserState(user, role, disabled) => assert s'.users == Write(s.users, SetState(user, role, disabled));
    case DeleteUser(user, _) => assert s'.users == Write(s.users, Delete(user)) || s'.users == s.users;
    case ChangeUsername(user, username) =>
      assert s'.users == Write(s.users, SetName(user, Normal(username))) || s'.users == s.users;
    case Bootstrap => BootstrapIsWrite(s);
    case _ =>
  }

  lemma BootstrapIsWrite(s: State)
    requires StateOk(s)
    ensures var s' := BootstrapStep(s).0; s'.users == s.users || exists w :: s'.users == Write(s.users, w)
  {
    var s' := BootstrapStep(s).0;
    if s.users == map[] {
      var row := User(DEFAULT_ADMIN, Digest(DEFAULT_ADMIN), Admin, false, true);
      assert s'.users == Write(s.users, Insert(s.nextId, row));
    } else if Exists(s.users, DEFAULT_ADMIN) {
      var id := ByName(s.users, DEFAULT_ADMIN);
      assert s'.users == s.users || s'.users == Write(s.users, SetPassword(id, s.users[id].password, true));
    }
  }
}
