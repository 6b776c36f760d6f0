/** How every login is answered, and when every change of an account is accepted, by the history alone. */
module AuthLogins {
  import opened Common
  import opened Auth
  import opened AuthRuns
  import opened AuthAccounts

  // ----- failures that count -----

  predicate FailedLogin(e: Event) {
    e.op.Login? && e.reply in {Refused(BadCredentials), Refused(UserDisabled)}
  }

  predicate GotIn(e: Event, name: string) {
    e.op.Login? && Normal(e.op.username) == name && e.reply.LoggedIn?
  }

  /** Event j is a failed login that no later login of the same name made up for. */
  predicate Counts(h: seq<Event>, j: nat) {
    && j < |h| && FailedLogin(h[j])
    && forall k :: j < k < |h| ==> !GotIn(h[k], Normal(h[j].op.username))
  }

  function NameFailures(h: seq<Event>, name: string, since: Second): set<nat> {
    set j: nat | j < |h| && Counts(h, j) && Normal(h[j].op.username) == name && Sec(h[j].at) > since
  }

  function RemoteFailures(h: seq<Event>, remote: string, since: Second): set<nat> {
    set j: nat | j < |h| && Counts(h, j) && h[j].op.remote == remote && Sec(h[j].at) > since
  }

  /** Eight failures of the name, or twenty from the remote address, in the last fifteen minutes. */
  predicate LockedBy(h: seq<Event>, name: string, remote: string, now: Second) {
    |NameFailures(h, name, now - 900)| >= 8 || |RemoteFailures(h, remote, now - 900)| >= 20
  }

  // ----- the failures table agrees -----

  /** A failed login, and its place in the history. */
  datatype Miss = Miss(index: nat, name: string, remote: string, at: Second)

  function WithoutName(es: seq<Miss>, name: string): seq<Miss> {
    if es == [] then []
    else (if es[0].name == name then [] else [es[0]]) + WithoutName(es[1..], name)
  }

  /** The failed logins that count, in order. */
  function Listed(h: seq<Event>): seq<Miss> {
    if h == [] then []
    else
      var n, e, es := |h| - 1, h[|h| - 1], Listed(h[..|h| - 1]);
      if FailedLogin(e) then es + [Miss(n, Normal(e.op.username), e.op.remote, Sec(e.at))]
      else if e.op.Login? && e.reply.LoggedIn? then WithoutName(es, Normal(e.op.username))
      else es
  }

  function Rows(es: seq<Miss>): seq<Failure> {
    if es == [] then [] else [Failure(es[0].name, es[0].remote, es[0].at)] + Rows(es[1..])
  }

  lemma {:induction false} RowsAppend(es: seq<Miss>, e: Miss)
    ensures Rows(es + [e]) == Rows(es) + [Failure(e.name, e.remote, e.at)]
  {
    if es == [] {
      assert [] + [e] == [e] && [e][1..] == [];
    } else {
      assert (es + [e])[1..] == es[1..] + [e];
      RowsAppend(es[1..], e);
    }
  }

  lemma {:induction false} RowsWithout(es: seq<Miss>, name: string)
    ensures Rows(WithoutName(es, name)) == WithoutUser(Rows(es), name)
  {
    if es != [] {
      RowsWithout(es[1..], name);
      assert Rows(es)[1..] == Rows(es[1..]);
      if es[0].name != name {
        assert ([es[0]] + WithoutName(es[1..], name))[1..] == WithoutName(es[1..], name);
      } else {
        assert [] + WithoutName(es[1..], name) == WithoutName(es[1..], name);
      }
    }
  }

  lemma {:induction false} YoungerAppend(fs: seq<Failure>, f: Failure, x: Second)
    ensures Younger(fs + [f], x) == Younger(fs, x) + if f.at <= x then [] else [f]
  {
    if fs == [] {
      assert [] + [f] == [f] && [f][1..] == [];
    } else {
      YoungerAppend(fs[1..], f, x);
      var first := if fs[0].at <= x then [] else [fs[0]];
      assert (fs + [f])[1..] == fs[1..] + [f];
      assert Younger(fs + [f], x) == first + Younger(fs[1..] + [f], x);
      assert Younger(fs, x) == first + Younger(fs[1..], x);
    }
  }

  lemma {:induction false} YoungerWithout(fs: seq<Failure>, name: string, x: Second)
    ensures Younger(WithoutUser(fs, name), x) == WithoutUser(Younger(fs, x), name)
  {
    if fs != [] {
      YoungerWithout(fs[1..], name, x);
      var rest := WithoutUser(fs[1..], name);
      var young := Younger(fs[1..], x);
      assert ([fs[0]] + rest)[1..] == rest && [] + rest == rest;
      assert ([fs[0]] + young)[1..] == young && [] + young == young;
    }
  }

  lemma {:induction false} YoungerTwice(fs: seq<Failure>, than: Second, x: Second)
    requires than <= x
    ensures Younger(Younger(fs, than), x) == Younger(fs, x)
  {
    if fs != [] {
      YoungerTwice(fs[1..], than, x);
      var young := Younger(fs[1..], than);
      assert ([fs[0]] + young)[1..] == young && [] + young == young;
    }
  }

  /** The table holds what counts, as far as it is younger than `x`. */
  predicate SameFailures(s: State, es: seq<Miss>, x: Second) {
    Younger(s.failures, x) == Younger(Rows(es), x)
  }

  lemma FailuresStep(s: State, h: seq<Event>, op: Op, now: Instant, x: Second)
    requires SameFailures(s, Listed(h), x) && Sec(now) - DAY <= x
    ensures var (s', r) := Step(s, op, now); SameFailures(s', Listed(h + [Event(op, now, r)]), x)
  {
    assert (h + [Event(op, now, Step(s, op, now).1)])[..|h|] == h;
    if op.Login? {
      LoginKeepsFailures(s, h, op, now, x);
    } else if op.Cleanup? {
      YoungerTwice(s.failures, Sec(now) - DAY, x);
    } else {
      OthersKeepFailures(s, op, now);
    }
  }

  lemma OthersKeepFailures(s: State, op: Op, now: Instant)
    requires !op.Login? && !op.Cleanup?
    ensures Step(s, op, now).0.failures == s.failures
  {
  }

  lemma LoginKeepsFailures(s: State, h: seq<Event>, op: Op, now: Instant, x: Second)
    requires op.Login? && SameFailures(s, Listed(h), x)
    ensures var (s', r) := Step(s, op, now); SameFailures(s', Listed(h + [Event(op, now, r)]), x)
  {
    var e := Event(op, now, Step(s, op, now).1);
    var name := Normal(op.username);
    assert (h + [e])[..|h|] == h;
    if FailedLogin(e) {
      RowsAppend(Listed(h), Miss(|h|, name, op.remote, Sec(now)));
      YoungerAppend(s.failures, Failure(name, op.remote, Sec(now)), x);
      YoungerAppend(Rows(Listed(h)), Failure(name, op.remote, Sec(now)), x);
    } else if e.reply.LoggedIn? {
      RowsWithout(Listed(h), name);
      YoungerWithout(s.failures, name, x);
      YoungerWithout(Rows(Listed(h)), name, x);
    }
  }

  lemma SecondsPass(now: Instant, later: Instant)
    requires now <= later
    ensures Sec(now) <= Sec(later)
  {
  }

  /** A day after `x`, nothing of the history has happened yet. */
  predicate WithinDay(h: seq<Event>, x: Second) {
    forall i :: 0 <= i < |h| ==> Sec(h[i].at) - DAY <= x
  }

  lemma {:induction false} HistoryIsPast(h: seq<Event>, end: State)
    requires History(EMPTY, h, end)
    ensures forall i :: 0 <= i < |h| ==> h[i].at <= Now(h)
    decreases |h|
  {
    if h != [] {
      var mid := LastEvent(EMPTY, h, end);
      HistoryIsPast(h[..|h| - 1], mid);
      assert forall i :: 0 <= i < |h| - 1 ==> h[i] == h[..|h| - 1][i];
    }
  }

  lemma PastIsWithinDay(h: seq<Event>, now: Second)
    requires forall i :: 0 <= i < |h| ==> h[i].at <= Now(h)
    requires Sec(Now(h)) <= now
    ensures WithinDay(h, now - FAILURE_WINDOW)
  {
    forall i | 0 <= i < |h|
      ensures Sec(h[i].at) - DAY <= now - FAILURE_WINDOW
    {
      SecondsPass(h[i].at, Now(h));
    }
  }

  lemma {:induction false} FailuresAreKept(h: seq<Event>, end: State, x: Second)
    requires History(EMPTY, h, end) && WithinDay(h, x)
    ensures SameFailures(end, Listed(h), x)
    decreases |h|
  {
    if h != [] {
      var front, e := h[..|h| - 1], h[|h| - 1];
      var mid := LastEvent(EMPTY, h, end);
      FailuresAreKept(front, mid, x);
      FailuresStep(mid, front, e.op, e.at, x);
      assert front + [e] == h;
    }
  }

  // ----- what is listed counts -----

  predicate Increasing(es: seq<Miss>, bound: nat) {
    && (forall i :: 0 <= i < |es| ==> es[i].index < bound)
    && forall i, j :: 0 <= i < j < |es| ==> es[i].index < es[j].index
  }

  lemma {:induction false} WithoutNameHas(es: seq<Miss>, name: string, bound: nat)
    requires Increasing(es, bound)
    ensures forall e :: e in WithoutName(es, name) <==> e in es && e.name != name
    ensures Increasing(WithoutName(es, name), bound)
  {
    if es != [] {
      WithoutNameHas(es[1..], name, bound);
      var rest := WithoutName(es[1..], name);
      forall i | 0 <= i < |rest|
        ensures es[0].index < rest[i].index
      {
        assert rest[i] in es[1..];
      }
    }
  }

  function EntryAt(h: seq<Event>, j: nat): Miss
    requires j < |h| && h[j].op.Login?
  {
    Miss(j, Normal(h[j].op.username), h[j].op.remote, Sec(h[j].at))
  }

  predicate IsEntry(h: seq<Event>, e: Miss) {
    e.index < |h| && Counts(h, e.index) && e == EntryAt(h, e.index)
  }

  lemma CountsInFront(h: seq<Event>, j: nat)
    requires h != [] && j < |h| - 1
    ensures Counts(h, j) <==>
        Counts(h[..|h| - 1], j) && !GotIn(h[|h| - 1], Normal(h[j].op.username))
  {
    var front := h[..|h| - 1];
    assert forall k :: 0 <= k < |front| ==> front[k] == h[k];
  }

  ghost predicate AreEntries(h: seq<Event>, es: seq<Miss>) {
    Increasing(es, |h|) && forall e :: e in es <==> IsEntry(h, e)
  }

  lemma {:induction false} ListedCounts(h: seq<Event>)
    ensures AreEntries(h, Listed(h))
    decreases |h|
  {
    if h != [] {
      var e := h[|h| - 1];
      ListedCounts(h[..|h| - 1]);
      if e.op.Login? && e.reply.LoggedIn? {
        WithoutNameHas(Listed(h[..|h| - 1]), Normal(e.op.username), |h| - 1);
        SuccessCounts(h, Listed(h[..|h| - 1]));
      } else {
        FailureCounts(h, Listed(h[..|h| - 1]));
      }
    }
  }

  lemma EntryStays(h: seq<Event>, e: Miss)
    requires h != [] && e.index < |h| - 1
    ensures IsEntry(h, e) <==> IsEntry(h[..|h| - 1], e) && !GotIn(h[|h| - 1], e.name)
  {
    CountsInFront(h, e.index);
  }

  lemma SuccessCounts(h: seq<Event>, es: seq<Miss>)
    requires h != [] && h[|h| - 1].op.Login? && h[|h| - 1].reply.LoggedIn? && AreEntries(h[..|h| - 1], es)
    requires var name := Normal(h[|h| - 1].op.username);
             && Increasing(WithoutName(es, name), |h| - 1)
             && forall e :: e in WithoutName(es, name) <==> e in es && e.name != name
    ensures AreEntries(h, WithoutName(es, Normal(h[|h| - 1].op.username)))
  {
    forall e | e in es || IsEntry(h, e)
      ensures IsEntry(h, e) <==> e in es && e.name != Normal(h[|h| - 1].op.username)
    {
      if e.index < |h| - 1 {
        EntryStays(h, e);
      }
    }
  }

  lemma FailureCounts(h: seq<Event>, es: seq<Miss>)
    requires h != [] && !(h[|h| - 1].op.Login? && h[|h| - 1].reply.LoggedIn?) && AreEntries(h[..|h| - 1], es)
    ensures AreEntries(h, if FailedLogin(h[|h| - 1]) then es + [EntryAt(h, |h| - 1)] else es)
  {
    var n := |h| - 1;
    var es' := if FailedLogin(h[n]) then es + [EntryAt(h, n)] else es;
    forall e
      ensures e in es' <==> IsEntry(h, e)
    {
      if e.index < n {
        EntryStays(h, e);
      } else if e.index == n {
        assert e !in es;
      }
    }
  }

  function Indices(es: seq<Miss>, keep: Miss -> bool): set<nat> {
    set e | e in es && keep(e) :: e.index
  }

  lemma {:induction false} CountIsSize(es: seq<Miss>, bound: nat, name: string, remote: string, since: Second)
    requires Increasing(es, bound)
    ensures CountUser(Rows(es), name, since) == |Indices(es, (e: Miss) => e.name == name && e.at > since)|
    ensures CountRemote(Rows(es), remote, since) == |Indices(es, (e: Miss) => e.remote == remote && e.at > since)|
  {
    if es != [] {
      CountIsSize(es[1..], bound, name, remote, since);
      assert Rows(es)[1..] == Rows(es[1..]);
      IndicesOfCons(es, (e: Miss) => e.name == name && e.at > since);
      IndicesOfCons(es, (e: Miss) => e.remote == remote && e.at > since);
    } else {
      assert Indices(es, (e: Miss) => e.name == name && e.at > since) == {};
      assert Indices(es, (e: Miss) => e.remote == remote && e.at > since) == {};
    }
  }

  lemma IndicesOfCons(es: seq<Miss>, keep: Miss -> bool)
    requires es != [] && forall i, j :: 0 <= i < j < |es| ==> es[i].index < es[j].index
    ensures |Indices(es, keep)| == |Indices(es[1..], keep)| + if keep(es[0]) then 1 else 0
  {
    var rest := Indices(es[1..], keep);
    assert forall e :: e in es <==> e == es[0] || e in es[1..];
    assert Indices(es, keep) == rest + if keep(es[0]) then {es[0].index} else {};
    assert es[0].index !in rest;
  }

  lemma CountsAgree(h: seq<Event>, end: State, name: string, remote: string, since: Second)
    requires SameFailures(end, Listed(h), since)
    ensures CountUser(end.failures, name, since) == |NameFailures(h, name, since)|
    ensures CountRemote(end.failures, remote, since) == |RemoteFailures(h, remote, since)|
  {
    CountsOfYounger(end.failures, name, remote, since);
    CountsOfYounger(Rows(Listed(h)), name, remote, since);
    ListedCounts(h);
    CountIsSize(Listed(h), |h|, name, remote, since);
    IndicesAreFailures(h, name, remote, since);
  }

  /** The throttle locks exactly when the history says so. */
  lemma ThrottledIffLocked(h: seq<Event>, end: State, name: string, remote: string, now: Second)
    requires History(EMPTY, h, end) && Sec(Now(h)) <= now
    ensures Throttled(end.failures, name, remote, now) <==> LockedBy(h, name, remote, now)
  {
    HistoryIsPast(h, end);
    PastIsWithinDay(h, now);
    FailuresAreKept(h, end, now - FAILURE_WINDOW);
    CountsAgree(h, end, name, remote, now - FAILURE_WINDOW);
  }

  lemma IndicesAreFailures(h: seq<Event>, name: string, remote: string, since: Second)
    requires AreEntries(h, Listed(h))
    ensures Indices(Listed(h), (e: Miss) => e.name == name && e.at > since) == NameFailures(h, name, since)
    ensures Indices(Listed(h), (e: Miss) => e.remote == remote && e.at > since) == RemoteFailures(h, remote, since)
  {
    forall j: nat | j < |h| && Counts(h, j)
      ensures EntryAt(h, j) in Listed(h)
    {
      assert IsEntry(h, EntryAt(h, j));
    }
    assert forall e :: e in Listed(h) ==> e == EntryAt(h, e.index);
  }

  lemma {:induction false} CountsOfYounger(fs: seq<Failure>, name: string, remote: string, since: Second)
    ensures CountUser(fs, name, since) == CountUser(Younger(fs, since), name, since)
    ensures CountRemote(fs, remote, since) == CountRemote(Younger(fs, since), remote, since)
  {
    if fs != [] {
      CountsOfYounger(fs[1..], name, remote, since);
      var young := Younger(fs[1..], since);
      assert ([fs[0]] + young)[1..] == young && [] + young == young;
    }
  }

  // ----- logins -----

  /** Account u has this name and this password. */
  predicate Holds(accounts: Accounts, u: Id, name: string, password: string) {
    Has(accounts, u) && accounts[u].value.name == name && accounts[u].value.password == password
  }

  lemma {:induction false} NeverIssued(h: seq<Event>, token: string)
    requires forall j :: 0 <= j < |h| ==> !Issues(h[j], token)
    ensures Ledger(h, token) == None
    decreases |h|
  {
    if h != [] {
      NeverIssued(h[..|h| - 1], token);
    }
  }

  lemma FreshTokenIsFree(h: seq<Event>, end: State, token: string)
    requires History(EMPTY, h, end) && token != "" && forall j :: 0 <= j < |h| ==> !Issues(h[j], token)
    ensures Digest(token) !in end.sessions
  {
    LedgerAgrees(EMPTY, h, end, token);
    NeverIssued(h, token);
  }

  /** What a login answers that the throttle lets through. */
  ghost predicate AnsweredBy(accounts: Accounts, name: string, password: string, r: Reply) {
    if exists u: Id :: Holds(accounts, u, name, password) then
      forall u: Id :: Holds(accounts, u, name, password) ==>
        r == if accounts[u].value.disabled then Refused(UserDisabled) else LoggedIn(u)
    else r == Refused(BadCredentials)
  }

  lemma TableAnswers(s: State, accounts: Accounts, username: string, password: string, remote: string, token: string,
                     t: Instant)
    requires Same(s, accounts) && Digest(token) !in s.sessions
    requires !Throttled(s.failures, Normal(username), remote, Sec(t))
    ensures AnsweredBy(accounts, Normal(username), password, LoginStep(s, username, password, remote, token, t).1)
  {
    var name := Normal(username);
    if Exists(s.users, name) {
      var id := ByName(s.users, name);
      assert s.users[id] == RowFor(accounts[id].value);
      assert forall u: Id :: Holds(accounts, u, name, password) ==> u in s.users && u == id;
    } else {
      assert forall u: Id :: Holds(accounts, u, name, password) ==> u in s.users;
    }
  }

  /** Every answer a login can get, over every history of an installation: locked exactly by the failures that count;
      otherwise in exactly with the name and the password the account was last given, unless it is disabled. */
  lemma LoginAnswers(h: seq<Event>, end: State, username: string, password: string, remote: string, token: string,
                     t: Instant)
    requires History(EMPTY, h, end) && Now(h) <= t
    requires token != "" && forall j :: 0 <= j < |h| ==> !Issues(h[j], token)
    ensures var r := LoginStep(end, username, password, remote, token, t).1;
            if LockedBy(h, Normal(username), remote, Sec(t)) then r == Refused(AccountLocked)
            else AnsweredBy(AccountsBy(h), Normal(username), password, r)
  {
    SecondsPass(Now(h), t);
    ThrottledIffLocked(h, end, Normal(username), remote, Sec(t));
    FreshTokenIsFree(h, end, token);
    AccountsAreKept(h, end);
    if !Throttled(end.failures, Normal(username), remote, Sec(t)) {
      TableAnswers(end, AccountsBy(h), username, password, remote, token, t);
    }
  }

  lemma LastSetIsPassword(h: seq<Event>, u: Id, i: nat, password: string)
    requires Has(AccountsBy(h), u) && LastSets(h, i, u, password)
    ensures AccountsBy(h)[u].value.password == password
  {
    var k := PasswordIsLastSet(h, u);
    assert k == i;
  }

  /** Who gets in, in terms of the events alone: the enabled user of that name, with the password last set for it. */
  lemma LogsInExactly(h: seq<Event>, end: State, username: string, password: string, remote: string, token: string,
                      t: Instant, u: Id)
    requires History(EMPTY, h, end) && Now(h) <= t
    requires token != "" && forall j :: 0 <= j < |h| ==> !Issues(h[j], token)
    ensures LoginStep(end, username, password, remote, token, t).1 == LoggedIn(u)
       <==> && !LockedBy(h, Normal(username), remote, Sec(t)) && Has(AccountsBy(h), u)
            && AccountsBy(h)[u].value.name == Normal(username) && !AccountsBy(h)[u].value.disabled
            && exists i: nat :: LastSets(h, i, u, password)
  {
    LoginAnswers(h, end, username, password, remote, token, t);
    if Has(AccountsBy(h), u) {
      var k := PasswordIsLastSet(h, u);
      if i: nat :| LastSets(h, i, u, password) {
        LastSetIsPassword(h, u, i, password);
        assert Holds(AccountsBy(h), u, AccountsBy(h)[u].value.name, password);
      }
    }
  }

  // ----- changes of accounts -----

  predicate IsAdmin(accounts: Accounts, u: Id) {
    Has(accounts, u) && accounts[u].value.role == Admin && !accounts[u].value.disabled
  }

  ghost predicate OnlyAdmin(accounts: Accounts, u: Id) {
    IsAdmin(accounts, u) && forall v: Id :: IsAdmin(accounts, v) ==> v == u
  }

  ghost predicate Taken(accounts: Accounts, name: string) {
    exists u: Id :: Has(accounts, u) && accounts[u].value.name == name
  }

  /** What an operation on accounts asks for can be done. */
  ghost predicate Acceptable(accounts: Accounts, op: Op) {
    match op
    case ChangePassword(u, current, next, _) =>
      Has(accounts, u) && accounts[u].value.password == current != next && |next| >= 12
    case ResetPassword(u, next) => Has(accounts, u) && |next| >= 12
    case CreateUser(username, password, role) =>
      ValidUsername(Normal(username)) && !role.Unknown? && |password| >= 12 && !Taken(accounts, Normal(username))
    case SetUserState(u, role, disabled) =>
      Has(accounts, u) && !role.Unknown? && (OnlyAdmin(accounts, u) ==> role == Admin && !disabled)
    case DeleteUser(u, referenced) => Has(accounts, u) && !referenced && !OnlyAdmin(accounts, u)
    case ChangeUsername(u, username) =>
      && Has(accounts, u) && ValidUsername(Normal(username))
      && (Taken(accounts, Normal(username)) ==> accounts[u].value.name == Normal(username))
    case _ => true
  }

  lemma OthersCounted(s: State, accounts: Accounts, u: Id)
    requires Same(s, accounts)
    ensures EnabledAdmin(s.users, u) && OtherAdmins(s.users, u) == 0 <==> OnlyAdmin(accounts, u)
  {
    var others := set i | i in s.users && EnabledAdmin(s.users, i) && i != u;
    assert forall v: Id :: IsAdmin(accounts, v) <==> EnabledAdmin(s.users, v);
    if OnlyAdmin(accounts, u) {
      assert others == {};
    } else if v: Id :| IsAdmin(accounts, v) && v != u {
      assert v in others;
    }
  }

  lemma TakenExists(s: State, accounts: Accounts, name: string)
    requires Same(s, accounts)
    ensures Exists(s.users, name) <==> Taken(accounts, name)
  {
    if Exists(s.users, name) {
      var id := ByName(s.users, name);
      assert Has(accounts, id) && accounts[id].value.name == name;
    }
    if u: Id :| Has(accounts, u) && accounts[u].value.name == name {
      assert s.users[u].username == name;
    }
  }

  /** Every change of an account is accepted exactly if what the history made of the accounts allows it. */
  lemma AcceptedExactly(h: seq<Event>, end: State, op: Op, t: Instant)
    requires History(EMPTY, h, end)
    requires !op.Login? && !op.Validate?
    ensures Step(end, op, t).1 == Done <==> Acceptable(AccountsBy(h), op)
  {
    var accounts := AccountsBy(h);
    AccountsAreKept(h, end);
    match op
    case CreateUser(username, _, _) => TakenExists(end, accounts, Normal(username));
    case ChangeUsername(u, username) => TakenExists(end, accounts, Normal(username));
    case SetUserState(u, _, _) => OthersCounted(end, accounts, u);
    case DeleteUser(u, _) => OthersCounted(end, accounts, u);
    case _ =>
  }
}
