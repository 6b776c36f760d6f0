/** What a history says about accounts: who has which name, password, role and state. */
module AuthAccounts {
  import opened Common
  import opened Auth
  import opened AuthRuns

  const EMPTY := State(map[], 0, map[], [])

  // ----- the accounts a history has made -----

  /** What was asked for, in the clear. */
  datatype Account = Account(name: string, password: string, role: Role, disabled: bool, mustChange: bool)

  /** By the order of their creation; None once deleted. */
  type Accounts = seq<Option<Account>>

  predicate Has(accounts: Accounts, u: Id) {
    u < |accounts| && accounts[u].Some?
  }

  predicate IsEmpty(accounts: Accounts) {
    forall u :: 0 <= u < |accounts| ==> accounts[u].None?
  }

  function With(accounts: Accounts, u: Id, a: Option<Account>): Accounts {
    if Has(accounts, u) then accounts[u := a] else accounts
  }

  function Get(accounts: Accounts, u: Id): Account {
    if Has(accounts, u) then accounts[u].value else Account("", "", Viewer, true, false)
  }

  const FIRST := Account(DEFAULT_ADMIN, DEFAULT_ADMIN, Admin, false, true)

  /** The enabled account that still has the well-known name and password has to change it. */
  function Warned(a: Option<Account>): Option<Account> {
    if a.Some? && a.value.name == DEFAULT_ADMIN && a.value.password == DEFAULT_ADMIN && !a.value.disabled
    then Some(a.value.(mustChange := true)) else a
  }

  function Noted(accounts: Accounts, e: Event): Accounts {
    if !e.reply.Done? then accounts
    else
      match e.op
      case CreateUser(username, password, role) =>
        accounts + [Some(Account(Normal(username), password, role, false, true))]
      case ChangePassword(u, _, next, _) =>
        With(accounts, u, Some(Get(accounts, u).(password := next, mustChange := false)))
      case ResetPassword(u, next) => With(accounts, u, Some(Get(accounts, u).(password := next, mustChange := true)))
      case SetUserState(u, role, disabled) =>
        With(accounts, u, Some(Get(accounts, u).(role := role, disabled := disabled)))
      case ChangeUsername(u, username) => With(accounts, u, Some(Get(accounts, u).(name := Normal(username))))
      case DeleteUser(u, _) => With(accounts, u, None)
      case Bootstrap =>
        if IsEmpty(accounts) then accounts + [Some(FIRST)]
        else seq(|accounts|, u requires 0 <= u < |accounts| => Warned(accounts[u]))
      case _ => accounts
  }

  function AccountsBy(h: seq<Event>): Accounts {
    if h == [] then [] else Noted(AccountsBy(h[..|h| - 1]), h[|h| - 1])
  }

  // ----- the table agrees -----

  function RowFor(a: Account): User {
    User(a.name, Digest(a.password), a.role, a.disabled, a.mustChange)
  }

  ghost predicate Same(s: State, accounts: Accounts) {
    && s.nextId == |accounts|
    && UniqueNames(s.users)
    && (forall u :: u in s.users <==> Has(accounts, u))
    && (forall u :: u in s.users ==> s.users[u] == RowFor(accounts[u].value))
  }

  lemma SameStep(s: State, op: Op, now: Instant, accounts: Accounts)
    requires Same(s, accounts)
    ensures var (s', r) := Step(s, op, now); Same(s', Noted(accounts, Event(op, now, r)))
  {
    match op
    case Bootstrap => SameBootstrap(s, now, accounts);
    case CreateUser(username, password, role) => SameCreate(s, username, password, role, now, accounts);
    case ChangeUsername(user, username) => SameRename(s, user, username, now, accounts);
    case ChangePassword(user, _, _, _) => SameUpdate(s, op, user, now, accounts);
    case ResetPassword(user, _) => SameUpdate(s, op, user, now, accounts);
    case SetUserState(user, _, _) => SameUpdate(s, op, user, now, accounts);
    case DeleteUser(_, _) => SameDelete(s, op, now, accounts);
    case _ =>
  }

  /** An update of one row other than of its name. */
  lemma SameUpdate(s: State, op: Op, user: Id, now: Instant, accounts: Accounts)
    requires Same(s, accounts)
    requires (op.ChangePassword? || op.ResetPassword? || op.SetUserState?) && op.user == user
    ensures var (s', r) := Step(s, op, now); Same(s', Noted(accounts, Event(op, now, r)))
  {
    var (s', r) := Step(s, op, now);
    if r == Done {
      SameAfterUpdate(s, accounts, user, Noted(accounts, Event(op, now, r))[user].value);
      assert s'.users == s.users[user := s'.users[user]];
    }
  }

  lemma SameAfterUpdate(s: State, accounts: Accounts, user: Id, a: Account)
    requires Same(s, accounts) && Has(accounts, user) && a.name == accounts[user].value.name
    ensures Same(s.(users := s.users[user := RowFor(a)]), accounts[user := Some(a)])
  {
  }

  lemma SameDelete(s: State, op: Op, now: Instant, accounts: Accounts)
    requires Same(s, accounts) && op.DeleteUser?
    ensures var (s', r) := Step(s, op, now); Same(s', Noted(accounts, Event(op, now, r)))
  {
  }

  lemma SameCreate(s: State, username: string, password: string, role: Role, now: Instant, accounts: Accounts)
    requires Same(s, accounts)
    ensures var (s', r) := CreateUserStep(s, username, password, role);
            Same(s', Noted(accounts, Event(CreateUser(username, password, role), now, r)))
  {
  }

  lemma SameAfterRename(s: State, accounts: Accounts, user: Id, name: string)
    requires Same(s, accounts) && Has(accounts, user) && (Exists(s.users, name) ==> s.users[user].username == name)
    ensures Same(s.(users := s.users[user := s.users[user].(username := name)]),
                 accounts[user := Some(accounts[user].value.(name := name))])
  {
    assert forall v :: v in s.users && v != user ==> s.users[v].username != name;
  }

  lemma SameRename(s: State, user: Id, username: string, now: Instant, accounts: Accounts)
    requires Same(s, accounts)
    ensures var (s', r) := ChangeUsernameStep(s, user, username);
            Same(s', Noted(accounts, Event(ChangeUsername(user, username), now, r)))
  {
    if ChangeUsernameStep(s, user, username).1 == Done {
      SameAfterRename(s, accounts, user, Normal(username));
      assert s.users[user := s.users[user]] == s.users;
    }
  }

  lemma SameBootstrap(s: State, now: Instant, accounts: Accounts)
    requires Same(s, accounts)
    ensures var (s', r) := BootstrapStep(s); Same(s', Noted(accounts, Event(Bootstrap, now, r)))
  {
    if s.users == map[] {
      assert forall u :: 0 <= u < |accounts| ==> u !in s.users;
    } else {
      SameWarning(s, now, accounts);
    }
  }

  lemma WarnedRow(s: State, accounts: Accounts, u: Id)
    requires Same(s, accounts) && s.users != map[] && u in s.users
    ensures var users := BootstrapStep(s).0.users;
            users.Keys == s.users.Keys && users[u] == RowFor(Warned(accounts[u]).value)
  {
    assert s.users[u] == RowFor(accounts[u].value);
    if Exists(s.users, DEFAULT_ADMIN) {
      var id := ByName(s.users, DEFAULT_ADMIN);
      assert s.users[u].username == DEFAULT_ADMIN ==> u == id;
    } else {
      assert s.users[u].username != DEFAULT_ADMIN;
    }
  }

  lemma SameWarning(s: State, now: Instant, accounts: Accounts)
    requires Same(s, accounts) && s.users != map[]
    ensures var (s', r) := BootstrapStep(s); Same(s', Noted(accounts, Event(Bootstrap, now, r)))
  {
    var u :| u in s.users;
    assert accounts[u].Some?;
    WarnedRow(s, accounts, u);
    forall v | v in s.users
      ensures BootstrapStep(s).0.users[v] == RowFor(Warned(accounts[v]).value)
    {
      WarnedRow(s, accounts, v);
    }
    SameRows(s, BootstrapStep(s).0, accounts, Noted(accounts, Event(Bootstrap, now, Done)));
  }

  lemma SameRows(s: State, s': State, accounts: Accounts, accounts': Accounts)
    requires Same(s, accounts) && s'.users.Keys == s.users.Keys && s'.nextId == s.nextId
    requires |accounts'| == |accounts| && forall v :: 0 <= v < |accounts| ==> accounts'[v] == Warned(accounts[v])
    requires forall v :: v in s.users ==> s'.users[v] == RowFor(Warned(accounts[v]).value)
    ensures Same(s', accounts')
  {
    assert forall v :: v in s.users ==> s'.users[v].username == s.users[v].username;
  }

  /** At every point of a history the users table holds exactly the accounts the history has made. */
  lemma {:induction false} AccountsAreKept(h: seq<Event>, end: State)
    requires History(EMPTY, h, end)
    ensures Same(end, AccountsBy(h))
    decreases |h|
  {
    if h != [] {
      var front, e := h[..|h| - 1], h[|h| - 1];
      var mid := LastEvent(EMPTY, h, end);
      AccountsAreKept(front, mid);
      SameStep(mid, e.op, e.at, AccountsBy(front));
    }
  }

  // ----- a password is the one last set -----

  /** The password the event gives to account u, which it may have made. */
  function NewPassword(accounts: Accounts, e: Event, u: Id): Option<string> {
    if !e.reply.Done? then None
    else
      match e.op
      case CreateUser(_, password, _) => if u == |accounts| then Some(password) else None
      case Bootstrap => if u == |accounts| && IsEmpty(accounts) then Some(DEFAULT_ADMIN) else None
      case ResetPassword(v, next) => if u == v then Some(next) else None
      case ChangePassword(v, _, next, _) => if u == v then Some(next) else None
      case _ => None
  }

  /** What event i set the password of u to. */
  function SetAt(h: seq<Event>, i: nat, u: Id): Option<string>
    requires i < |h|
  {
    NewPassword(AccountsBy(h[..i]), h[i], u)
  }

  ghost predicate LastSets(h: seq<Event>, i: nat, u: Id, password: string) {
    && i < |h| && SetAt(h, i, u) == Some(password)
    && forall j: nat :: i < j < |h| ==> SetAt(h, j, u) == None
  }

  lemma SetInFront(h: seq<Event>, i: nat, u: Id)
    requires i < |h| - 1
    ensures SetAt(h, i, u) == SetAt(h[..|h| - 1], i, u)
  {
    assert h[..|h| - 1][..i] == h[..i];
  }

  lemma PasswordAfter(accounts: Accounts, e: Event, u: Id)
    requires Has(Noted(accounts, e), u)
    ensures var p := Noted(accounts, e)[u].value.password;
            if NewPassword(accounts, e, u).Some? then NewPassword(accounts, e, u) == Some(p)
            else Has(accounts, u) && accounts[u].value.password == p
  {
  }

  /** An account's password is the one it was last given, by whatever operation that was. */
  lemma {:induction false} PasswordIsLastSet(h: seq<Event>, u: Id) returns (i: nat)
    requires Has(AccountsBy(h), u)
    ensures LastSets(h, i, u, AccountsBy(h)[u].value.password)
    decreases |h|
  {
    var n := |h| - 1;
    var front := h[..n];
    PasswordAfter(AccountsBy(front), h[n], u);
    if SetAt(h, n, u).Some? {
      i := n;
    } else {
      i := PasswordIsLastSet(front, u);
      SetInFront(h, i, u);
      forall j: nat | i < j < |h|
        ensures SetAt(h, j, u) == None
      {
        if j < n {
          SetInFront(h, j, u);
        }
      }
    }
  }
}
