/** Accounts, sessions and login throttling: the tables and what one operation does to them. */
module Auth {
  import opened Common

  // ----- tables -----

  type Id = nat
  type Instant = nat   // nanoseconds
  type Second = int    // what datetime('now') stores

  const SECOND: nat := 1_000_000_000
  const IDLE_TIMEOUT: nat := 12 * 3600 * SECOND
  const MAX_LIFETIME: Second := 7 * 24 * 3600
  const MAX_FAILURES_PER_USER := 8
  const MAX_FAILURES_PER_REMOTE := 20
  const FAILURE_WINDOW: Second := 15 * 60
  const DAY: Second := 24 * 3600
  const MIN_PASSWORD_LENGTH := 12
  const DEFAULT_ADMIN := "admin"

  function Sec(t: Instant): Second {
    t / SECOND
  }

  /** A hash of a password or token; only equality of hashes is ever used. */
  datatype Digest = Digest(of: string)

  /** A role as a request spells it; only the first three are valid. */
  datatype Role = Admin | Operator | Viewer | Unknown(name: string)

  datatype User = User(username: string, password: Digest, role: Role, disabled: bool, mustChange: bool)

  datatype Session = Session(user: Id, expires: Second, lastSeen: Second)

  datatype Failure = Failure(username: string, remote: string, at: Second)

  datatype State = State(users: map<Id, User>, nextId: Id, sessions: map<Digest, Session>, failures: seq<Failure>)

  datatype Error =
    | NoSession | BadCredentials | AccountLocked | UserDisabled | UserExists | UserNotFound
    | LastAdmin | PasswordReused | InvalidInput | StoreFailed

  datatype Reply = LoggedIn(user: Id) | Validated(user: Id) | Done | Refused(error: Error)

  datatype Op =
    | Login(username: string, password: string, remote: string, token: string)
    | Validate(token: string)
    | Logout(token: string)
    | ChangePassword(user: Id, current: string, next: string, keepToken: string)
    | ResetPassword(user: Id, next: string)
    | CreateUser(username: string, password: string, role: Role)
    | SetUserState(user: Id, role: Role, disabled: bool)
    | DeleteUser(user: Id, referenced: bool)  // by an upload or a profile the user made
    | ChangeUsername(user: Id, username: string)
    | Bootstrap
    | Cleanup

  // ----- queries -----

  ghost predicate Exists(users: map<Id, User>, name: string) {
    exists id :: id in users && users[id].username == name
  }

  ghost function ByName(users: map<Id, User>, name: string): (id: Id)
    requires Exists(users, name)
    ensures id in users && users[id].username == name
  {
    var id :| id in users && users[id].username == name;
    id
  }

  ghost predicate UniqueNames(users: map<Id, User>) {
    forall i, j :: i in users && j in users && users[i].username == users[j].username ==> i == j
  }

  predicate EnabledAdmin(users: map<Id, User>, id: Id) {
    id in users && users[id].role == Admin && !users[id].disabled
  }

  /** SELECT COUNT(*) ... role = 'admin' AND disabled = 0 AND id <> ? */
  function OtherAdmins(users: map<Id, User>, id: Id): nat {
    |set i | i in users && EnabledAdmin(users, i) && i != id|
  }

  function CountUser(failures: seq<Failure>, username: string, since: Second): nat {
    if failures == [] then 0
    else
      var rest := CountUser(failures[1..], username, since);
      if failures[0].username == username && failures[0].at > since then 1 + rest else rest
  }

  function CountRemote(failures: seq<Failure>, remote: string, since: Second): nat {
    if failures == [] then 0
    else
      var rest := CountRemote(failures[1..], remote, since);
      if failures[0].remote == remote && failures[0].at > since then 1 + rest else rest
  }

  /** checkThrottle */
  predicate Throttled(failures: seq<Failure>, username: string, remote: string, now: Second) {
    || CountUser(failures, username, now - FAILURE_WINDOW) >= MAX_FAILURES_PER_USER
    || CountRemote(failures, remote, now - FAILURE_WINDOW) >= MAX_FAILURES_PER_REMOTE
  }

  function WithoutUser(failures: seq<Failure>, username: string): seq<Failure> {
    if failures == [] then []
    else (if failures[0].username == username then [] else [failures[0]]) + WithoutUser(failures[1..], username)
  }

  function Younger(failures: seq<Failure>, than: Second): seq<Failure> {
    if failures == [] then []
    else (if failures[0].at <= than then [] else [failures[0]]) + Younger(failures[1..], than)
  }

  function SessionsWithoutUser(sessions: map<Digest, Session>, user: Id): map<Digest, Session> {
    map d | d in sessions && sessions[d].user != user :: sessions[d]
  }

  /** ValidateUsername, after trimming and lower-casing */
  predicate ValidUsername(name: string) {
    && 2 <= |name| <= 32
    && forall i :: 0 <= i < |name| ==>
         'a' <= name[i] <= 'z' || '0' <= name[i] <= '9' || name[i] in {'.', '-', '_'}
  }

  function Normal(name: string): string {
    TrimSpace(Lower(name))
  }

  // ----- operations -----

  function WithFailure(s: State, username: string, remote: string, now: Second): State {
    s.(failures := s.failures + [Failure(username, remote, now)])
  }

  ghost function LoginStep(s: State, username: string, password: string, remote: string, token: string, now: Instant)
    : (State, Reply)
  {
    var name := Normal(username);
    if Throttled(s.failures, name, remote, Sec(now)) then (s, Refused(AccountLocked))
    else if !Exists(s.users, name) then (WithFailure(s, name, remote, Sec(now)), Refused(BadCredentials))
    else
      var id := ByName(s.users, name);
      if s.users[id].password != Digest(password) then (WithFailure(s, name, remote, Sec(now)), Refused(BadCredentials))
      else if s.users[id].disabled then (WithFailure(s, name, remote, Sec(now)), Refused(UserDisabled))
      else if Digest(token) in s.sessions then (s, Refused(StoreFailed))
      else (s.(sessions := s.sessions[Digest(token) := Session(id, Sec(now) + MAX_LIFETIME, Sec(now))],
               failures := WithoutUser(s.failures, name)), LoggedIn(id))
  }

  function ValidateStep(s: State, token: string, now: Instant): (State, Reply) {
    var d := Digest(token);
    if token == "" || d !in s.sessions || s.sessions[d].user !in s.users || s.sessions[d].expires <= Sec(now) then
      (s, Refused(NoSession))
    else if s.users[s.sessions[d].user].disabled then
      (s.(sessions := s.sessions - {d}), Refused(UserDisabled))
    else if now - s.sessions[d].lastSeen * SECOND > IDLE_TIMEOUT then
      (s.(sessions := s.sessions - {d}), Refused(NoSession))
    else
      (s.(sessions := s.sessions[d := s.sessions[d].(lastSeen := Sec(now))]), Validated(s.sessions[d].user))
  }

  function LogoutStep(s: State, token: string): (State, Reply) {
    (if token == "" then s else s.(sessions := s.sessions - {Digest(token)}), Done)
  }

  function ChangePasswordStep(s: State, user: Id, current: string, next: string, keepToken: string): (State, Reply) {
    if user !in s.users then (s, Refused(UserNotFound))
    else if s.users[user].password != Digest(current) then (s, Refused(BadCredentials))
    else if current == next then (s, Refused(PasswordReused))
    else if |next| < MIN_PASSWORD_LENGTH then (s, Refused(InvalidInput))
    else
      (s.(users := s.users[user := s.users[user].(password := Digest(next), mustChange := false)],
          sessions := map d | d in s.sessions && (s.sessions[d].user != user || d == Digest(keepToken))
                          :: s.sessions[d]),
       Done)
  }

  function ResetPasswordStep(s: State, user: Id, next: string): (State, Reply) {
    if |next| < MIN_PASSWORD_LENGTH then (s, Refused(InvalidInput))
    else if user !in s.users then (s, Refused(UserNotFound))
    else
      (s.(users := s.users[user := s.users[user].(password := Digest(next), mustChange := true)],
          sessions := SessionsWithoutUser(s.sessions, user)), Done)
  }

  ghost function CreateUserStep(s: State, username: string, password: string, role: Role): (State, Reply) {
    var name := Normal(username);
    if !ValidUsername(name) || role.Unknown? || |password| < MIN_PASSWORD_LENGTH then (s, Refused(InvalidInput))
    else if Exists(s.users, name) then (s, Refused(UserExists))
    else
      (s.(users := s.users[s.nextId := User(name, Digest(password), role, false, true)],
          nextId := s.nextId + 1), Done)
  }

  function SetUserStateStep(s: State, user: Id, role: Role, disabled: bool): (State, Reply) {
    if role.Unknown? then (s, Refused(InvalidInput))
    else if user !in s.users then (s, Refused(UserNotFound))
    else if EnabledAdmin(s.users, user) && (role != Admin || disabled) && OtherAdmins(s.users, user) == 0 then
      (s, Refused(LastAdmin))
    else
      (s.(users := s.users[user := s.users[user].(role := role, disabled := disabled)],
          sessions := if disabled then SessionsWithoutUser(s.sessions, user) else s.sessions), Done)
  }

  /** Deleting a user deletes its sessions: ON DELETE CASCADE. Uploads and profiles that name the user forbid it. */
  function DeleteUserStep(s: State, user: Id, referenced: bool): (State, Reply) {
    if user !in s.users then (s, Refused(UserNotFound))
    else if EnabledAdmin(s.users, user) && OtherAdmins(s.users, user) == 0 then (s, Refused(LastAdmin))
    else if referenced then (s, Refused(StoreFailed))
    else (s.(users := s.users - {user}, sessions := SessionsWithoutUser(s.sessions, user)), Done)
  }

  ghost function ChangeUsernameStep(s: State, user: Id, username: string): (State, Reply) {
    var name := Normal(username);
    if !ValidUsername(name) then (s, Refused(InvalidInput))
    else if user !in s.users then (s, Refused(UserNotFound))
    else if s.users[user].username == name then (s, Done)
    else if Exists(s.users, name) then (s, Refused(UserExists))
    else (s.(users := s.users[user := s.users[user].(username := name)]), Done)
  }

  /** The first administrator, or must_change for one that still has the well-known password. */
  ghost function BootstrapStep(s: State): (State, Reply) {
    if s.users == map[] then
      (s.(users := s.users[s.nextId := User(DEFAULT_ADMIN, Digest(DEFAULT_ADMIN), Admin, false, true)],
          nextId := s.nextId + 1), Done)
    else if Exists(s.users, DEFAULT_ADMIN) then
      var id := ByName(s.users, DEFAULT_ADMIN);
      if !s.users[id].disabled && s.users[id].password == Digest(DEFAULT_ADMIN)
      then (s.(users := s.users[id := s.users[id].(mustChange := true)]), Done)
      else (s, Done)
    else (s, Done)
  }

  function CleanupStep(s: State, now: Instant): (State, Reply) {
    (s.(sessions := map d | d in s.sessions && s.sessions[d].expires > Sec(now) :: s.sessions[d],
        failures := Younger(s.failures, Sec(now) - DAY)), Done)
  }

  ghost function Step(s: State, op: Op, now: Instant): (State, Reply) {
    match op
    case Login(username, password, remote, token) => LoginStep(s, username, password, remote, token, now)
    case Validate(token) => ValidateStep(s, token, now)
    case Logout(token) => LogoutStep(s, token)
    case ChangePassword(user, current, next, keepToken) => ChangePasswordStep(s, user, current, next, keepToken)
    case ResetPassword(user, next) => ResetPasswordStep(s, user, next)
    case CreateUser(username, password, role) => CreateUserStep(s, username, password, role)
    case SetUserState(user, role, disabled) => SetUserStateStep(s, user, role, disabled)
    case DeleteUser(user, referenced) => DeleteUserStep(s, user, referenced)
    case ChangeUsername(user, username) => ChangeUsernameStep(s, user, username)
    case Bootstrap => BootstrapStep(s)
    case Cleanup => CleanupStep(s, now)
  }

  // ----- the service object -----

  class Service {
    var users: map<Id, User>
    var nextId: Id
    var sessions: map<Digest, Session>
    var failures: seq<Failure>

    ghost function View(): State
      reads this
    {
      State(users, nextId, sessions, failures)
    }

    /** The UNIQUE constraint on usernames and the AUTOINCREMENT key. */
    ghost predicate Valid()
      reads this
    {
      UniqueNames(users) && forall id :: id in users ==> id < nextId
    }

    constructor ()
      ensures Valid() && View() == State(map[], 0, map[], [])
    {
      users, nextId, sessions, failures := map[], 0, map[], [];
    }

    /** SELECT ... WHERE username = ? */
    method FindUser(name: string) returns (found: bool, id: Id)
      requires Valid()
      ensures found == Exists(users, name)
      ensures found ==> id == ByName(users, name)
    {
      if u :| u in users && users[u].username == name {
        return true, u;
      }
      return false, 0;
    }

    method CheckThrottle(name: string, remote: string, now: Instant) returns (locked: bool)
      ensures locked == Throttled(failures, name, remote, Sec(now))
    {
      var byUser, byRemote := 0, 0;
      var since := Sec(now) - FAILURE_WINDOW;
      for i := 0 to |failures|
        invariant byUser + CountUser(failures[i..], name, since) == CountUser(failures, name, since)
        invariant byRemote + CountRemote(failures[i..], remote, since) == CountRemote(failures, remote, since)
      {
        if failures[i].username == name && failures[i].at > since { byUser := byUser + 1; }
        if failures[i].remote == remote && failures[i].at > since { byRemote := byRemote + 1; }
      }
      locked := byUser >= MAX_FAILURES_PER_USER || byRemote >= MAX_FAILURES_PER_REMOTE;
    }

    method RecordFailure(name: string, remote: string, now: Instant)
      modifies this`failures
      ensures View() == WithFailure(old(View()), name, remote, Sec(now))
    {
      failures := failures + [Failure(name, remote, Sec(now))];
    }

    method Login(username: string, password: string, remote: string, token: string, now: Instant) returns (r: Reply)
      requires Valid()
      modifies this
      ensures Valid() && (View(), r) == LoginStep(old(View()), username, password, remote, token, now)
    {
      var name := Normal(username);
      var locked := CheckThrottle(name, remote, now);
      if locked {
        return Refused(AccountLocked);
      }
      var found, id := FindUser(name);
      if !found {
        RecordFailure(name, remote, now);
        return Refused(BadCredentials);
      }
      if users[id].password != Digest(password) {
        RecordFailure(name, remote, now);
        return Refused(BadCredentials);
      }
      if users[id].disabled {
        RecordFailure(name, remote, now);
        return Refused(UserDisabled);
      }
      if Digest(token) in sessions {
        return Refused(StoreFailed);
      }
      sessions := sessions[Digest(token) := Session(id, Sec(now) + MAX_LIFETIME, Sec(now))];
      failures := WithoutUser(failures, name);
      return LoggedIn(id);
    }

    method Validate(token: string, now: Instant) returns (r: Reply)
      modifies this`sessions
      ensures (View(), r) == ValidateStep(old(View()), token, now)
    {
      if token == "" {
        return Refused(NoSession);
      }
      var d := Digest(token);
      if d !in sessions || sessions[d].user !in users || sessions[d].expires <= Sec(now) {
        return Refused(NoSession);
      }
      if users[sessions[d].user].disabled {
        sessions := sessions - {d};
        return Refused(UserDisabled);
      }
      if now - sessions[d].lastSeen * SECOND > IDLE_TIMEOUT {
        sessions := sessions - {d};
        return Refused(NoSession);
      }
      r := Validated(sessions[d].user);
      sessions := sessions[d := sessions[d].(lastSeen := Sec(now))];
    }

    method Logout(token: string)
      modifies this`sessions
      ensures View() == LogoutStep(old(View()), token).0
    {
      if token != "" {
        sessions := sessions - {Digest(token)};
      }
    }

    method ChangePassword(user: Id, current: string, next: string, keepToken: string) returns (r: Reply)
      requires Valid()
      modifies this
      ensures Valid() && (View(), r) == ChangePasswordStep(old(View()), user, current, next, keepToken)
    {
      if user !in users {
        return Refused(UserNotFound);
      }
      if users[user].password != Digest(current) {
        return Refused(BadCredentials);
      }
      if current == next {
        return Refused(PasswordReused);
      }
      if |next| < MIN_PASSWORD_LENGTH {
        return Refused(InvalidInput);
      }
      users := users[user := users[user].(password := Digest(next), mustChange := false)];
      sessions := map d | d in sessions && (sessions[d].user != user || d == Digest(keepToken)) :: sessions[d];
      return Done;
    }

    method ResetPassword(user: Id, next: string) returns (r: Reply)
      requires Valid()
      modifies this
      ensures Valid() && (View(), r) == ResetPasswordStep(old(View()), user, next)
    {
      if |next| < MIN_PASSWORD_LENGTH {
        return Refused(InvalidInput);
      }
      if user !in users {
        return Refused(UserNotFound);
      }
      users := users[user := users[user].(password := Digest(next), mustChange := true)];
      sessions := SessionsWithoutUser(sessions, user);
      return Done;
    }

    method CreateUser(username: string, password: string, role: Role) returns (r: Reply)
      requires Valid()
      modifies this
      ensures Valid() && (View(), r) == CreateUserStep(old(View()), username, password, role)
    {
      var name := Normal(username);
      if !ValidUsername(name) || role.Unknown? || |password| < MIN_PASSWORD_LENGTH {
        return Refused(InvalidInput);
      }
      var found, _ := FindUser(name);
      if found {
        return Refused(UserExists);
      }
      users := users[nextId := User(name, Digest(password), role, false, true)];
      nextId := nextId + 1;
      return Done;
    }

    method SetUserState(user: Id, role: Role, disabled: bool) returns (r: Reply)
      requires Valid()
      modifies this
      ensures Valid() && (View(), r) == SetUserStateStep(old(View()), user, role, disabled)
    {
      if role.Unknown? {
        return Refused(InvalidInput);
      }
      if user !in users {
        return Refused(UserNotFound);
      }
      var losingAdmin := users[user].role == Admin && !users[user].disabled && (role != Admin || disabled);
      if losingAdmin {
        var others := OtherAdmins(users, user);
        if others == 0 {
          return Refused(LastAdmin);
        }
      }
      users := users[user := users[user].(role := role, disabled := disabled)];
      if disabled {
        sessions := SessionsWithoutUser(sessions, user);
      }
      return Done;
    }

    method DeleteUser(user: Id, referenced: bool) returns (r: Reply)
      requires Valid()
      modifies this
      ensures Valid() && (View(), r) == DeleteUserStep(old(View()), user, referenced)
    {
      if user !in users {
        return Refused(UserNotFound);
      }
      if users[user].role == Admin && !users[user].disabled {
        var others := OtherAdmins(users, user);
        if others == 0 {
          return Refused(LastAdmin);
        }
      }
      if referenced {
        return Refused(StoreFailed);
      }
      users := users - {user};
      sessions := SessionsWithoutUser(sessions, user);
      return Done;
    }

    method ChangeUsername(user: Id, username: string) returns (r: Reply)
      requires Valid()
      modifies this
      ensures Valid() && (View(), r) == ChangeUsernameStep(old(View()), user, username)
    {
      var name := Normal(username);
      if !ValidUsername(name) {
        return Refused(InvalidInput);
      }
      if user !in users {
        return Refused(UserNotFound);
      }
      if users[user].username == name {
        return Done;
      }
      var found, _ := FindUser(name);
      if found {
        return Refused(UserExists);
      }
      users := users[user := users[user].(username := name)];
      return Done;
    }

    method Bootstrap()
      requires Valid()
      modifies this
      ensures Valid() && View() == BootstrapStep(old(View())).0
    {
      if users == map[] {
        users := users[nextId := User(DEFAULT_ADMIN, Digest(DEFAULT_ADMIN), Admin, false, true)];
        nextId := nextId + 1;
        return;
      }
      var found, id := FindUser(DEFAULT_ADMIN);
      if found && !users[id].disabled && users[id].password == Digest(DEFAULT_ADMIN) {
        users := users[id := users[id].(mustChange := true)];
      }
    }

    method Cleanup(now: Instant)
      modifies this
      ensures View() == CleanupStep(old(View()), now).0
    {
      sessions := map d | d in sessions && sessions[d].expires > Sec(now) :: sessions[d];
      failures := Younger(failures, Sec(now) - DAY);
    }
  }
}
