/** Users and sessions (app/services/auth.py). Password hashing is a function of password and salt; salts,
    tokens and the current time are arguments of the calls that draw them. */
module Auth {
  import opened Wrappers

  datatype Role = Admin | Viewer

  datatype Stored = Stored(salt: string, digest: string)

  datatype User = User(password: Stored, role: Role)

  datatype Session = Session(username: string, role: Role, expires: int)

  datatype State = State(users: map<string, User>, sessions: map<string, Session>)

  const TOKEN_TTL := 24 * 3600

  /** The calls of the service; a role text that names no role is None. */
  datatype Op =
    | CreateUser(name: string, password: string, newRole: Option<Role>, salt: string)
    | ChangePassword(name: string, oldPassword: string, newPassword: string, salt: string)
    | UpdateRole(name: string, newRole: Option<Role>, current: string)
    | ResetPassword(name: string, newPassword: string, salt: string)
    | DeleteUser(name: string, current: string)
    | EnsureAdmin(name: string, password: string, salt: string)
    | Login(name: string, password: string, token: string, now: int)
    | Logout(token: string)
    | Resolve(token: string, now: int)

  datatype Result =
    | Done | Created | PasswordUpdated | LoggedIn(session: Session) | Resolved(session: Session)
    | InvalidRole | UserExists | UserNotFound | WrongPassword | SelfRoleChange | SelfDelete | LastAdmin
    | WeakPassword | TargetNotAdmin | AdminNotFound | InvalidCredentials | Unauthorized | DatabaseUnavailable

  // ----- What the calls do -----------------------------------------------------------------------

  function Admins(users: map<string, User>): set<string> { set u | u in users && users[u].role == Admin }

  function AdminCount(users: map<string, User>): nat { |Admins(users)| }

  /** DELETE ... WHERE username = name. */
  function Without(sessions: map<string, Session>, name: string): map<string, Session> {
    map k | k in sessions && sessions[k].username != name :: sessions[k]
  }

  type Digest = (string, string) -> string

  function Hashed(digest: Digest, password: string, salt: string): Stored { Stored(salt, digest(password, salt)) }

  predicate Verifies(digest: Digest, password: string, stored: Stored) {
    digest(password, stored.salt) == stored.digest
  }

  function Apply(digest: Digest, s: State, op: Op): (State, Result) {
    match op
    case CreateUser(name, password, role, salt) =>
      if role.None? then (s, InvalidRole)
      else if name in s.users then (s, UserExists)
      else (s.(users := s.users[name := User(Hashed(digest, password, salt), role.value)]), Done)
    case ChangePassword(name, oldPassword, newPassword, salt) =>
      if name !in s.users then (s, UserNotFound)
      else if !Verifies(digest, oldPassword, s.users[name].password) then (s, WrongPassword)
      else (s.(users := s.users[name := s.users[name].(password := Hashed(digest, newPassword, salt))]), Done)
    case UpdateRole(name, role, current) =>
      if role.None? then (s, InvalidRole)
      else if name == current then (s, SelfRoleChange)
      else if name !in s.users then (s, UserNotFound)
      else if s.users[name].role == Admin && role.value != Admin && AdminCount(s.users) <= 1 then (s, LastAdmin)
      else (State(s.users[name := s.users[name].(role := role.value)], Without(s.sessions, name)), Done)
    case ResetPassword(name, newPassword, salt) =>
      if name !in s.users then (s, UserNotFound)
      else (State(s.users[name := s.users[name].(password := Hashed(digest, newPassword, salt))],
                  Without(s.sessions, name)), Done)
    case DeleteUser(name, current) =>
      if name == current then (s, SelfDelete)
      else if name !in s.users then (s, UserNotFound)
      else if s.users[name].role == Admin && AdminCount(s.users) <= 1 then (s, LastAdmin)
      else (State(s.users - {name}, Without(s.sessions, name)), Done)
    case EnsureAdmin(name, password, salt) =>
      if |password| < 8 then (s, WeakPassword)
      else if name in s.users then
        if s.users[name].role != Admin then (s, TargetNotAdmin)
        else (State(s.users[name := s.users[name].(password := Hashed(digest, password, salt))],
                    Without(s.sessions, name)), PasswordUpdated)
      else if AdminCount(s.users) > 0 then (s, AdminNotFound)
      else (s.(users := s.users[name := User(Hashed(digest, password, salt), Admin)]), Created)
    case Login(name, password, token, now) =>
      if name !in s.users || !Verifies(digest, password, s.users[name].password) then (s, InvalidCredentials)
      else if token in s.sessions then (s, DatabaseUnavailable)
      else
        var session := Session(name, s.users[name].role, now + TOKEN_TTL);
        (s.(sessions := s.sessions[token := session]), LoggedIn(session))
    case Logout(token) => (s.(sessions := s.sessions - {token}), Done)
    case Resolve(token, now) =>
      if token == "" || token !in s.sessions then (s, Unauthorized)
      else if s.sessions[token].expires < now then (s.(sessions := s.sessions - {token}), Unauthorized)
      else (s, Resolved(s.sessions[token]))
  }

  // ----- Invariants ------------------------------------------------------------------------------

  /** Each session names an existing user and carries that user's current role. */
  ghost predicate SessionsCurrent(s: State) {
    forall k :: k in s.sessions ==>
      s.sessions[k].username in s.users && s.sessions[k].role == s.users[s.sessions[k].username].role
  }

  ghost predicate HasAdmin(s: State) { exists u :: u in s.users && s.users[u].role == Admin }

  lemma {:induction false} CountMeansAdmin(users: map<string, User>)
    ensures AdminCount(users) > 0 <==> exists u :: u in users && users[u].role == Admin
  {
    if AdminCount(users) > 0 {
      var u :| u in Admins(users);
    }
    if exists u :: u in users && users[u].role == Admin {
      var u :| u in users && users[u].role == Admin;
      assert u in Admins(users);
    }
  }

  lemma {:induction false} AnotherAdmin(users: map<string, User>, name: string) returns (other: string)
    requires AdminCount(users) > 1
    ensures other in users && other != name && users[other].role == Admin
  {
    var rest := Admins(users) - {name};
    assert Admins(users) == rest + (Admins(users) * {name});
    assert |Admins(users) * {name}| <= 1 by { assert Admins(users) * {name} == {name} || Admins(users) * {name} == {}; }
    assert rest != {};
    other :| other in rest;
  }

  lemma {:induction false} ApplyKeepsSessions(digest: Digest, s: State, op: Op)
    requires SessionsCurrent(s)
    ensures SessionsCurrent(Apply(digest, s, op).0)
  {
    hide AdminCount;
    hide Hashed;
    hide Verifies;
  }

  lemma {:induction false} ApplyKeepsAdmin(digest: Digest, s: State, op: Op)
    requires HasAdmin(s)
    ensures HasAdmin(Apply(digest, s, op).0)
  {
    var t := Apply(digest, s, op).0;
    CountMeansAdmin(s.users);
    if t.users != s.users {
      var name := op.name;
      if AdminCount(s.users) > 1 {
        var other := AnotherAdmin(s.users, name);
        hide AdminCount; hide Without; hide Hashed; hide Verifies;
        assert other in t.users && t.users[other].role == Admin;
      } else {
        hide AdminCount; hide Without; hide Hashed; hide Verifies;
        var u :| u in s.users && s.users[u].role == Admin;
        assert u in t.users && t.users[u].role == Admin;
      }
    }
  }

  // ----- Which calls end a session ---------------------------------------------------------------

  /** A call that ends every session of a user: role change, password reset, deletion, and renewing the
      default administrator. */
  predicate Revokes(digest: Digest, s: State, op: Op, name: string) {
    match op
    case UpdateRole(n, _, _) => n == name && Apply(digest, s, op).1 == Done
    case ResetPassword(n, _, _) => n == name && Apply(digest, s, op).1 == Done
    case DeleteUser(n, _) => n == name && Apply(digest, s, op).1 == Done
    case EnsureAdmin(n, _, _) => n == name && Apply(digest, s, op).1 == PasswordUpdated
    case _ => false
  }

  /** A session ends exactly by a revoking call on its user, by its own logout, or by being looked up after
      it expired. In particular it survives a password change by the user. */
  lemma {:induction false} SessionEnds(digest: Digest, s: State, op: Op, token: string)
    requires token in s.sessions
    ensures token !in Apply(digest, s, op).0.sessions <==>
      || Revokes(digest, s, op, s.sessions[token].username)
      || op == Logout(token)
      || (op.Resolve? && op.token == token && token != "" && s.sessions[token].expires < op.now)
    ensures token in Apply(digest, s, op).0.sessions ==> Apply(digest, s, op).0.sessions[token] == s.sessions[token]
  {
    hide AdminCount; hide Hashed; hide Verifies;
  }

  /** Such a survival: after a login and a change of the password the session still resolves. */
  lemma {:induction false} SurvivesPasswordChange(digest: Digest, salt: string, newSalt: string)
    ensures
      var created := Apply(digest, State(map[], map[]), CreateUser("u", "old", Some(Viewer), salt)).0;
      var entered := Apply(digest, created, Login("u", "old", "token", 0)).0;
      var (changed, r) := Apply(digest, entered, ChangePassword("u", "old", "new", newSalt));
      r == Done && Apply(digest, changed, Resolve("token", 1)).1.Resolved?
  {
    hide AdminCount; hide Without;
  }

  lemma {:induction false} SessionStarts(digest: Digest, s: State, op: Op, token: string)
    requires token !in s.sessions && token in Apply(digest, s, op).0.sessions
    ensures op.Login? && op.token == token && Apply(digest, s, op).1 == LoggedIn(Apply(digest, s, op).0.sessions[token])
    ensures Apply(digest, s, op).0.sessions[token].username == op.name
  {
    hide AdminCount; hide Hashed; hide Verifies;
  }

  // ----- Runs ------------------------------------------------------------------------------------

  ghost predicate IsRun(digest: Digest, states: seq<State>, ops: seq<Op>) {
    |states| == |ops| + 1 && forall i :: 0 <= i < |ops| ==> states[i + 1] == Apply(digest, states[i], ops[i]).0
  }

  /** Over any run, every session stays current (the empty tables have none); and once there is an administrator there
      always is one. */
  lemma {:induction false} RunsKeep(digest: Digest, states: seq<State>, ops: seq<Op>, i: nat, j: nat)
    requires IsRun(digest, states, ops) && SessionsCurrent(states[0]) && i <= j < |states|
    ensures SessionsCurrent(states[j])
    ensures HasAdmin(states[i]) ==> HasAdmin(states[j])
    decreases j
  {
    hide Apply; hide HasAdmin;
    if j > 0 {
      RunsKeep(digest, states, ops, Min(i, j - 1), j - 1);
      hide SessionsCurrent;
      ApplyKeepsSessions(digest, states[j - 1], ops[j - 1]);
      if HasAdmin(states[j - 1]) { ApplyKeepsAdmin(digest, states[j - 1], ops[j - 1]); }
    }
  }

  /** A session of a user that is seen after a role change, a password reset or a deletion of that user was
      started by a login after it. */
  lemma {:induction false} NoSessionSurvives(digest: Digest, states: seq<State>, ops: seq<Op>, i: nat, j: nat,
                                             token: string)
    requires IsRun(digest, states, ops) && i < j < |states|
    requires token in states[j].sessions && Revokes(digest, states[i], ops[i], states[j].sessions[token].username)
    ensures exists k ::
      i < k < j && IsStart(digest, states, ops, k, token) && states[k + 1].sessions[token] == states[j].sessions[token]
    decreases j
  {
    var s, op := states[j - 1], ops[j - 1];
    assert states[j] == Apply(digest, s, op).0;
    assert states[i + 1] == Apply(digest, states[i], ops[i]).0;
    hide Apply; hide Revokes;
    assert i < j - 1;
    if token in s.sessions {
      SessionEnds(digest, s, op, token);
      NoSessionSurvives(digest, states, ops, i, j - 1, token);
    } else {
      assert IsStart(digest, states, ops, j - 1, token) by { SessionStarts(digest, s, op, token); }
    }
  }

  ghost predicate IsStart(digest: Digest, states: seq<State>, ops: seq<Op>, k: nat, token: string) {
    |states| == |ops| + 1 && k < |ops| && ops[k].Login? && ops[k].token == token && token !in states[k].sessions
    && token in states[k + 1].sessions && states[k + 1].sessions[token].username == ops[k].name
  }

  /** A session that resolves belongs to a user who has the session's role at that moment. */
  lemma {:induction false} ResolvedIsCurrent(digest: Digest, states: seq<State>, ops: seq<Op>, i: nat)
    requires IsRun(digest, states, ops) && SessionsCurrent(states[0]) && i < |ops|
    requires ops[i].Resolve? && Apply(digest, states[i], ops[i]).1.Resolved?
    ensures var session := Apply(digest, states[i], ops[i]).1.session;
      session.username in states[i].users && states[i].users[session.username].role == session.role
        && ops[i].now <= session.expires
  {
    RunsKeep(digest, states, ops, i, i);
  }

  // ----- The service -----------------------------------------------------------------------------

  class AuthStore {
    const digest: Digest
    var users: map<string, User>
    var sessions: map<string, Session>

    ghost function Current(): State
      reads this
    {
      State(users, sessions)
    }

    /** Users and sessions fit together. */
    ghost predicate Valid()
      reads this
    {
      SessionsCurrent(Current())
    }

    constructor (digest: Digest)
      ensures Valid() && Current() == State(map[], map[]) && this.digest == digest
    {
      this.digest, users, sessions := digest, map[], map[];
    }

    method CountAdmins() returns (count: nat)
      ensures count == AdminCount(users)
    {
      count := |set u | u in users && users[u].role == Admin|;
    }

    method DeleteSessionsOf(name: string)
      modifies this`sessions
      ensures sessions == Without(old(sessions), name)
    {
      sessions := map k | k in sessions && sessions[k].username != name :: sessions[k];
    }

    method CreateUser(name: string, password: string, role: Option<Role>, salt: string) returns (r: Result)
      modifies this
      ensures (Current(), r) == Apply(digest, old(Current()), Op.CreateUser(name, password, role, salt))
      ensures old(Valid()) ==> Valid()
    {
      ghost var op := Op.CreateUser(name, password, role, salt);
      if old(Valid()) { ApplyKeepsSessions(digest, Current(), op); }
      if role.None? { return InvalidRole; }
      if name in users { return UserExists; }
      users := users[name := User(Hashed(digest, password, salt), role.value)];
      r := Done;
    }

    method ChangePassword(name: string, oldPassword: string, newPassword: string, salt: string) returns (r: Result)
      modifies this
      ensures (Current(), r) == Apply(digest, old(Current()), Op.ChangePassword(name, oldPassword, newPassword, salt))
      ensures old(Valid()) ==> Valid()
    {
      if old(Valid()) {
        ApplyKeepsSessions(digest, Current(), Op.ChangePassword(name, oldPassword, newPassword, salt));
      }
      if name !in users { return UserNotFound; }
      if !Verifies(digest, oldPassword, users[name].password) { return WrongPassword; }
      users := users[name := users[name].(password := Hashed(digest, newPassword, salt))];
      r := Done;
    }

    method UpdateUserRole(name: string, role: Option<Role>, current: string) returns (r: Result)
      modifies this
      ensures (Current(), r) == Apply(digest, old(Current()), UpdateRole(name, role, current))
      ensures old(Valid()) ==> Valid()
    {
      if old(Valid()) { ApplyKeepsSessions(digest, Current(), UpdateRole(name, role, current)); }
      hide AdminCount; hide Without; hide SessionsCurrent;
      if role.None? { return InvalidRole; }
      if name == current { return SelfRoleChange; }
      if name !in users { return UserNotFound; }
      var admins := CountAdmins();
      if users[name].role == Admin && role.value != Admin && admins <= 1 { return LastAdmin; }
      users := users[name := users[name].(role := role.value)];
      DeleteSessionsOf(name);
      r := Done;
    }

    method ResetUserPassword(name: string, newPassword: string, salt: string) returns (r: Result)
      modifies this
      ensures (Current(), r) == Apply(digest, old(Current()), ResetPassword(name, newPassword, salt))
      ensures old(Valid()) ==> Valid()
    {
      if old(Valid()) { ApplyKeepsSessions(digest, Current(), ResetPassword(name, newPassword, salt)); }
      hide Without; hide SessionsCurrent;
      if name !in users { return UserNotFound; }
      users := users[name := users[name].(password := Hashed(digest, newPassword, salt))];
      DeleteSessionsOf(name);
      r := Done;
    }

    method RemoveUser(name: string, current: string) returns (r: Result)
      modifies this
      ensures (Current(), r) == Apply(digest, old(Current()), DeleteUser(name, current))
      ensures old(Valid()) ==> Valid()
    {
      if old(Valid()) { ApplyKeepsSessions(digest, Current(), DeleteUser(name, current)); }
      hide AdminCount; hide Without; hide SessionsCurrent;
      if name == current { return SelfDelete; }
      if name !in users { return UserNotFound; }
      if users[name].role == Admin {
        var admins := CountAdmins();
        if admins <= 1 { return LastAdmin; }
      }
      DeleteSessionsOf(name);
      users := users - {name};
      r := Done;
    }

    method EnsureDefaultAdmin(name: string, password: string, salt: string) returns (r: Result)
      modifies this
      ensures (Current(), r) == Apply(digest, old(Current()), EnsureAdmin(name, password, salt))
      ensures old(Valid()) ==> Valid()
    {
      if old(Valid()) { ApplyKeepsSessions(digest, Current(), EnsureAdmin(name, password, salt)); }
      hide AdminCount; hide Without; hide SessionsCurrent;
      if |password| < 8 { return WeakPassword; }
      if name in users {
        if users[name].role != Admin { return TargetNotAdmin; }
        users := users[name := users[name].(password := Hashed(digest, password, salt))];
        DeleteSessionsOf(name);
        return PasswordUpdated;
      }
      var admins := CountAdmins();
      if admins > 0 { return AdminNotFound; }
      users := users[name := User(Hashed(digest, password, salt), Admin)];
      r := Created;
    }

    method Login(name: string, password: string, token: string, now: int) returns (r: Result)
      modifies this
      ensures (Current(), r) == Apply(digest, old(Current()), Op.Login(name, password, token, now))
      ensures old(Valid()) ==> Valid()
    {
      if old(Valid()) { ApplyKeepsSessions(digest, Current(), Op.Login(name, password, token, now)); }
      if name !in users || !Verifies(digest, password, users[name].password) { return InvalidCredentials; }
      if token in sessions { return DatabaseUnavailable; }
      var session := Session(name, users[name].role, now + TOKEN_TTL);
      sessions := sessions[token := session];
      r := LoggedIn(session);
    }

    method Logout(token: string)
      modifies this
      ensures Current() == Apply(digest, old(Current()), Op.Logout(token)).0
      ensures old(Valid()) ==> Valid()
    {
      if old(Valid()) { ApplyKeepsSessions(digest, Current(), Op.Logout(token)); }
      if token in sessions { sessions := sessions - {token}; }
      assert token !in old(sessions) ==> old(sessions) - {token} == old(sessions);
    }

    /** _resolve_session. */
    method ResolveSession(token: string, now: int) returns (r: Result)
      modifies this
      ensures (Current(), r) == Apply(digest, old(Current()), Resolve(token, now))
      ensures old(Valid()) ==> Valid()
    {
      if old(Valid()) { ApplyKeepsSessions(digest, Current(), Resolve(token, now)); }
      if token == "" || token !in sessions { return Unauthorized; }
      var record := sessions[token];
      if record.expires < now {
        sessions := sessions - {token};
        return Unauthorized;
      }
      r := Resolved(record);
    }
  }
}
