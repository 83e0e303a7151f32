/**
 Accounts, roles and sessions (packages/server/src/modules/identity/service.ts with
 packages/database/src/modules/identity/repository.ts). Every transaction that writes takes one
 advisory lock first, so it is one step; what a call reads before its transaction is a step of its own.
 */
module Identity {
  import opened Common

  type UserId = nat
  type SessionId = nat
  type RoleId = string
  type Secret = nat

  datatype User = User(account: string, hash: string, enabled: bool, roles: set<RoleId>)
  datatype Role = Role(active: bool, permissions: set<string>)
  datatype Session = Session(user: UserId, secret: Secret, expiresAt: int, revokedAt: Option<int>)
  datatype Token = Token(id: SessionId, secret: Secret)

  datatype Db = Db(users: map<UserId, User>, roles: map<RoleId, Role>, sessions: map<SessionId, Session>)

  datatype Error =
    | Unauthenticated | Forbidden | InvalidCredentials | AccountExists | InvalidReference | UserNotFound
    | RoleExists | RoleNotFound | LastAdministrator | CurrentPasswordRequired | CredentialsChanged | BootstrapRefused

  /** A transaction commits a new database or is rolled back with an error. */
  datatype Reply = Ok(db: Db) | Failed(error: Error)

  function After(db: Db, r: Reply): Db {
    if r.Ok? then r.db else db
  }

  // ---------------------------------------------------------------- who is calling

  predicate Granted(db: Db, user: User, permission: string) {
    exists r | r in user.roles :: r in db.roles && db.roles[r].active && permission in db.roles[r].permissions
  }

  predicate IsLive(x: Session, now: int) {
    x.revokedAt.None? && x.expiresAt > now
  }

  /** sessionActor. */
  function SessionActor(db: Db, token: Token, now: int): Option<UserId> {
    if token.id !in db.sessions then None
    else
      var x := db.sessions[token.id];
      if !IsLive(x, now) || x.secret != token.secret then None
      else if x.user in db.users && db.users[x.user].enabled then Some(x.user)
      else None
  }

  datatype Caller = Allowed(id: UserId) | Refused(error: Error)

  /** requireWritePermission. */
  function Writer(db: Db, token: Token, permission: string, now: int): Caller {
    match SessionActor(db, token, now)
    case None => Refused(Unauthenticated)
    case Some(u) => if u in db.users && Granted(db, db.users[u], permission) then Allowed(u) else Refused(Forbidden)
  }

  /** A live session with that id and secret belongs to this user, who is enabled. */
  predicate Acts(db: Db, token: Token, now: int, u: UserId) {
    && token.id in db.sessions
    && db.sessions[token.id].secret == token.secret
    && db.sessions[token.id].user == u
    && db.sessions[token.id].revokedAt == None
    && now < db.sessions[token.id].expiresAt
    && u in db.users
    && db.users[u].enabled
  }

  /** An active role of this user carries the permission. */
  ghost predicate Holds(db: Db, u: UserId, permission: string) {
    && u in db.users
    && exists r | r in db.users[u].roles && r in db.roles :: db.roles[r].active && permission in db.roles[r].permissions
  }

  /** The user is enabled, has this account and had this hash stored when it was read. */
  predicate Owns(db: Db, u: UserId, account: string, hash: string) {
    u in db.users && db.users[u].account == account && db.users[u].enabled && db.users[u].hash == hash
  }

  ghost function FindAccount(users: map<UserId, User>, account: string): Option<UserId> {
    if u :| u in users && users[u].account == account then Some(u) else None
  }

  /** The unique index on the account column. */
  ghost predicate AccountsUnique(users: map<UserId, User>) {
    forall u, v | u in users && v in users && users[u].account == users[v].account :: u == v
  }

  // ---------------------------------------------------------------- the transactions

  predicate Administers(db: Db, u: UserId) {
    u in db.users && db.users[u].enabled && Granted(db, db.users[u], "admin.read") &&
        Granted(db, db.users[u], "admin.write")
  }

  predicate HasAdministrator(db: Db) {
    exists u | u in db.users :: Administers(db, u)
  }

  function Revoked(x: Session, at: int): Session {
    if x.revokedAt.None? && x.expiresAt > at then x.(revokedAt := Some(at)) else x
  }

  /** revokeUserSessions, in a transaction that started at that time. */
  function RevokeUser(db: Db, u: UserId, at: int): Db {
    db.(sessions := map k | k in db.sessions ::
        if db.sessions[k].user == u then Revoked(db.sessions[k], at) else db.sessions[k])
  }

  function SetPassword(db: Db, u: UserId, hash: string): Db
    requires u in db.users
  {
    db.(users := db.users[u := db.users[u].(hash := hash)])
  }

  /** replacePassword. */
  function ReplacePassword(db: Db, u: UserId, hash: string, at: int): Db
    requires u in db.users
  {
    RevokeUser(SetPassword(db, u, hash), u, at)
  }

  /** What a replaced password leaves: one hash changed, every session of the user ended, all else as it was. */
  ghost predicate PasswordReplaced(before: Db, after: Db, u: UserId, hash: string, at: int) {
    && u in before.users
    && after.users == before.users[u := before.users[u].(hash := hash)]
    && after.roles == before.roles
    && after.sessions.Keys == before.sessions.Keys
    && (forall k, t | k in after.sessions && before.sessions[k].user == u && at <= t :: !IsLive(after.sessions[k], t))
    && (forall k | k in after.sessions && before.sessions[k].user != u :: after.sessions[k] == before.sessions[k])
  }

  /** What a login has read and verified before its transaction. */
  datatype Attempt = Attempt(account: string, user: UserId, hash: string)

  /** login's first read: an enabled account whose password matches the stored hash. */
  ghost function ReadAttempt(db: Db, account: string, matches: bool): Option<Attempt> {
    match FindAccount(db.users, account)
    case None => None
    case Some(u) =>
      if u in db.users && db.users[u].enabled && matches then Some(Attempt(account, u, db.users[u].hash)) else None
  }

  /** The transaction of login. */
  ghost function SaveLogin(db: Db, l: Attempt, sid: SessionId, secret: Secret, expiresAt: int): Reply {
    match FindAccount(db.users, l.account)
    case None => Failed(InvalidCredentials)
    case Some(u) =>
      if u !in db.users || !db.users[u].enabled || db.users[u].hash != l.hash then Failed(InvalidCredentials)
      else Ok(db.(sessions := db.sessions[sid := Session(l.user, secret, expiresAt, None)]))
  }

  /** The transaction of logout. */
  function Logout(db: Db, token: Token, at: int): Db {
    if token.id !in db.sessions || db.sessions[token.id].secret != token.secret then db
    else db.(sessions := db.sessions[token.id := Revoked(db.sessions[token.id], at)])
  }

  function Choose<T>(o: Option<T>, otherwise: T): T {
    if o.Some? then o.value else otherwise
  }

  /** updateUser, in so far as it matters here. */
  function EditUser(db: Db, u: UserId, enabled: Option<bool>, roles: Option<set<RoleId>>): Db
    requires u in db.users
  {
    var user := db.users[u];
    db.(users := db.users[u := user.(enabled := Choose(enabled, user.enabled), roles := Choose(roles, user.roles))])
  }

  /** updateManagedUser. */
  function UpdateUser(db: Db, token: Token, u: UserId, enabled: Option<bool>, roles: Option<set<RoleId>>, at: int,
      now: int): Reply
  {
    match Writer(db, token, "admin.write", now)
    case Refused(e) => Failed(e)
    case Allowed(_) =>
      if u !in db.users then Failed(UserNotFound)
      else if roles.Some? && !(roles.value <= db.roles.Keys) then Failed(InvalidReference)
      else
        var edited := EditUser(db, u, enabled, roles);
        var db' := if edited.users[u].enabled then edited else RevokeUser(edited, u, at);
        if HasAdministrator(db') then Ok(db') else Failed(LastAdministrator)
  }

  /** The transaction of changePassword; user and hash were read before it. */
  function ChangePassword(db: Db, token: Token, user: UserId, hash: string, newHash: string, at: int, now: int): Reply {
    match SessionActor(db, token, now)
    case None => Failed(Unauthenticated)
    case Some(u) =>
      if u != user then Failed(Unauthenticated)
      else if u !in db.users || db.users[u].hash != hash then Failed(CredentialsChanged)
      else Ok(ReplacePassword(db, u, newHash, at))
  }

  /** The transaction of resetManagedUserPassword; hash was read before it. */
  function ResetPassword(db: Db, token: Token, user: UserId, hash: string, newHash: string, at: int, now: int): Reply {
    match Writer(db, token, "admin.write", now)
    case Refused(e) => Failed(e)
    case Allowed(u) =>
      if u == user then Failed(CurrentPasswordRequired)
      else if user !in db.users then Failed(UserNotFound)
      else if db.users[user].hash != hash then Failed(CredentialsChanged)
      else Ok(ReplacePassword(db, user, newHash, at))
  }

  /** createManagedUser with a fresh id. */
  ghost function CreateUser(db: Db, token: Token, id: UserId, user: User, now: int): Reply {
    match Writer(db, token, "admin.write", now)
    case Refused(e) => Failed(e)
    case Allowed(_) =>
      if FindAccount(db.users, user.account).Some? then Failed(AccountExists)
      else if !(user.roles <= db.roles.Keys) then Failed(InvalidReference)
      else Ok(db.(users := db.users[id := user]))
  }

  /** createManagedRole. */
  function CreateRole(db: Db, token: Token, id: RoleId, role: Role, now: int): Reply {
    match Writer(db, token, "admin.write", now)
    case Refused(e) => Failed(e)
    case Allowed(_) => if id in db.roles then Failed(RoleExists) else Ok(db.(roles := db.roles[id := role]))
  }

  /** updateManagedRole. */
  function UpdateRole(db: Db, token: Token, id: RoleId, active: Option<bool>, permissions: Option<set<string>>,
      now: int): Reply
  {
    match Writer(db, token, "admin.write", now)
    case Refused(e) => Failed(e)
    case Allowed(_) =>
      if id !in db.roles then Failed(RoleNotFound)
      else
        var role := Role(Choose(active, db.roles[id].active), Choose(permissions, db.roles[id].permissions));
        var db' := db.(roles := db.roles[id := role]);
        if HasAdministrator(db') then Ok(db') else Failed(LastAdministrator)
  }

  const BOOTSTRAP_PERMISSIONS := {"system.read", "admin.read", "admin.write", "file.upload"}

  predicate IsLegacy(hash: string) {
    |hash| >= 6 && hash[..6] == "plain:"
  }

  /** bootstrapAdministrator: the first user of an empty database, or a legacy administrator recovered. */
  ghost function Bootstrap(db: Db, account: string, hash: string, id: UserId, recover: bool, matched: Option<string>,
      at: int): Reply
  {
    match FindAccount(db.users, account)
    case Some(u) =>
      if u !in db.users then Failed(BootstrapRefused) else
      var user := db.users[u];
      var admin := exists r | r in user.roles ::
          r in db.roles && db.roles[r].active && {"admin.read", "admin.write"} <= db.roles[r].permissions;
      if recover && IsLegacy(user.hash) && !user.enabled && admin then
        Ok(RevokeUser(db.(users := db.users[u := user.(hash := hash, enabled := true)]), u, at))
      else if user.enabled && admin && matched == Some(user.hash) then Ok(db)
      else Failed(BootstrapRefused)
    case None =>
      if db.users != map[] then Failed(BootstrapRefused)
      else Ok(db.(roles := db.roles["role_admin" := Role(true, BOOTSTRAP_PERMISSIONS)],
                  users := db.users[id := User(account, hash, true, {"role_admin"})]))
  }

  predicate Purgeable(x: Session, before: int, at: int) {
    var ended := if x.revokedAt.Some? then Min(x.expiresAt, x.revokedAt.value) else x.expiresAt;
    ended < before && ended < at
  }

  // ---------------------------------------------------------------- runs

  /** A password change before its transaction: the session's user, then the hash its password matched. */
  datatype Change = Change(token: Token, user: UserId, hash: Option<string>)

  datatype Reset = Reset(user: UserId, hash: string)

  /**
   The database, the clock, the calls under way, and for every session ever saved the stored hash its
   password was verified against.
   */
  datatype Sys = Sys(
    db: Db,
    clock: int,
    logins: map<nat, Attempt>,
    changes: map<nat, Change>,
    resets: map<nat, Reset>,
    proof: map<SessionId, string>)

  datatype Action =
    | Tick(to: int)
    | LoginRead(call: nat, account: string, matches: bool)
    | LoginCommit(call: nat, sid: SessionId, secret: Secret, expiresAt: int)
    | DoLogout(token: Token, at: int)
    | ChangeStart(call: nat, token: Token)
    | ChangeRead(call: nat, matches: bool)
    | ChangeCommit(call: nat, newHash: string, at: int)
    | ResetRead(call: nat, target: UserId)
    | ResetCommit(call: nat, token: Token, newHash: string, at: int)
    | DoUpdateUser(token: Token, target: UserId, enabled: Option<bool>, roles: Option<set<RoleId>>, at: int)
    | DoCreateUser(token: Token, id: UserId, user: User)
    | DoCreateRole(token: Token, role: RoleId, value: Role)
    | DoUpdateRole(token: Token, role: RoleId, active: Option<bool>, permissions: Option<set<string>>)
    | DoBootstrap(account: string, hash: string, id: UserId, recover: bool, matched: Option<string>, at: int)
    | Purge(sessions: set<SessionId>, before: int, at: int)

  /** Ids are fresh, the clock never goes back, and a transaction started before now. */
  ghost predicate Enabled(s: Sys, a: Action) {
    match a
    case Tick(to) => s.clock <= to
    case LoginCommit(call, sid, _, _) => call in s.logins && sid !in s.proof
    case DoLogout(_, at) => at <= s.clock
    case ChangeRead(call, _) => call in s.changes
    case ChangeCommit(call, _, at) => call in s.changes && s.changes[call].hash.Some? && at <= s.clock
    case ResetCommit(call, _, _, at) => call in s.resets && at <= s.clock
    case DoUpdateUser(_, _, _, _, at) => at <= s.clock
    case DoCreateUser(_, id, _) => id !in s.db.users
    case DoBootstrap(_, _, id, _, _, at) => id !in s.db.users && at <= s.clock
    case Purge(sessions, before, at) =>
      at <= s.clock && forall k | k in sessions :: k in s.db.sessions && Purgeable(s.db.sessions[k], before, at)
    case _ => true
  }

  /** The reply of the transaction an action commits, if it is one. */
  ghost function Transaction(s: Sys, a: Action): Reply
    requires Enabled(s, a)
  {
    match a
    case LoginCommit(call, sid, secret, expiresAt) => SaveLogin(s.db, s.logins[call], sid, secret, expiresAt)
    case DoLogout(token, at) => Ok(Logout(s.db, token, at))
    case ChangeCommit(call, newHash, at) =>
      var c := s.changes[call];
      ChangePassword(s.db, c.token, c.user, c.hash.value, newHash, at, s.clock)
    case ResetCommit(call, token, newHash, at) =>
      ResetPassword(s.db, token, s.resets[call].user, s.resets[call].hash, newHash, at, s.clock)
    case DoUpdateUser(token, target, enabled, roles, at) => UpdateUser(s.db, token, target, enabled, roles, at, s.clock)
    case DoCreateUser(token, id, user) => CreateUser(s.db, token, id, user, s.clock)
    case DoCreateRole(token, role, value) => CreateRole(s.db, token, role, value, s.clock)
    case DoUpdateRole(token, role, active, permissions) => UpdateRole(s.db, token, role, active, permissions, s.clock)
    case DoBootstrap(account, hash, id, recover, matched, at) =>
        Bootstrap(s.db, account, hash, id, recover, matched, at)
    case Purge(sessions, _, _) => Ok(s.db.(sessions := s.db.sessions - sessions))
    case _ => Ok(s.db)
  }

  ghost function ReadLogin(s: Sys, call: nat, account: string, matches: bool): map<nat, Attempt> {
    match ReadAttempt(s.db, account, matches)
    case None => s.logins - {call}
    case Some(attempt) => s.logins[call := attempt]
  }

  ghost function ReadChange(s: Sys, a: Action): map<nat, Change> {
    match a
    case ChangeStart(call, token) =>
      (match SessionActor(s.db, token, s.clock)
       case None => s.changes - {call}
       case Some(u) => s.changes[call := Change(token, u, None)])
    case ChangeRead(call, matches) =>
      if call in s.changes && s.changes[call].user in s.db.users && matches
      then s.changes[call := s.changes[call].(hash := Some(s.db.users[s.changes[call].user].hash))]
      else s.changes - {call}
    case _ => s.changes
  }

  ghost function Next(s: Sys, a: Action): Sys
    requires Enabled(s, a)
  {
    var r := Transaction(s, a);
    Sys(
      After(s.db, r),
      if a.Tick? then a.to else s.clock,
      if a.LoginRead? then ReadLogin(s, a.call, a.account, a.matches) else if a.LoginCommit? then s.logins - {a.call}
          else s.logins,
      ReadChange(s, a),
      if a.ResetRead? && a.target in s.db.users then s.resets[a.call := Reset(a.target, s.db.users[a.target].hash)]
          else s.resets,
      if a.LoginCommit? && r.Ok? then s.proof[a.sid := s.logins[a.call].hash] else s.proof)
  }

  ghost predicate Step(s: Sys, a: Action, s': Sys) {
    Enabled(s, a) && s' == Next(s, a)
  }

  ghost predicate IsStart(s: Sys) {
    s.db.users == map[] && s.db.sessions == map[] && s.logins == map[] && s.changes == map[] && s.resets == map[] &&
        s.proof == map[]
  }

  ghost predicate IsRun(states: seq<Sys>, actions: seq<Action>) {
    && |states| == |actions| + 1
    && IsStart(states[0])
    && forall i | 0 <= i < |actions| :: Step(states[i], actions[i], states[i + 1])
  }

  // ---------------------------------------------------------------- live sessions

  predicate Live(s: Sys, sid: SessionId) {
    sid in s.db.sessions && IsLive(s.db.sessions[sid], s.clock)
  }

  /** The session belongs to an enabled user and was opened with the password that user has now. */
  predicate Current(s: Sys, sid: SessionId) {
    && sid in s.db.sessions
    && sid in s.proof
    && var u := s.db.sessions[sid].user;
       u in s.db.users && s.db.users[u].enabled && s.db.users[u].hash == s.proof[sid]
  }

  ghost predicate LoginsOk(s: Sys) {
    forall l | l in s.logins :: s.logins[l].user in s.db.users &&
        s.db.users[s.logins[l].user].account == s.logins[l].account
  }

  ghost predicate SessionsOk(s: Sys) {
    forall k | k in s.db.sessions :: k in s.proof && (Live(s, k) ==> Current(s, k))
  }

  ghost predicate Inv(s: Sys) {
    AccountsUnique(s.db.users) && LoginsOk(s) && SessionsOk(s)
  }

  lemma FoundAccount(users: map<UserId, User>, u: UserId)
    requires AccountsUnique(users) && u in users
    ensures FindAccount(users, users[u].account) == Some(u)
  {
  }

  /** What no transaction does to a user: remove it or change its account. */
  lemma AccountsStay(s: Sys, a: Action, u: UserId)
    requires Inv(s) && Enabled(s, a) && u in s.db.users
    ensures var db' := After(s.db, Transaction(s, a)); u in db'.users && db'.users[u].account == s.db.users[u].account
  {
    hide SessionsOk, LoginsOk, AccountsUnique, Granted, HasAdministrator;
  }

  lemma StepKeepsAccounts(s: Sys, a: Action, s': Sys)
    requires Inv(s) && Step(s, a, s')
    ensures AccountsUnique(s'.db.users)
  {
    hide SessionsOk, LoginsOk, Granted, HasAdministrator;
    forall u, v | u in s'.db.users && v in s'.db.users && s'.db.users[u].account == s'.db.users[v].account
      ensures u == v
    {
      if u in s.db.users { AccountsStay(s, a, u); FoundAccount(s.db.users, u); }
      if v in s.db.users { AccountsStay(s, a, v); FoundAccount(s.db.users, v); }
    }
  }

  lemma StepKeepsLogins(s: Sys, a: Action, s': Sys)
    requires Inv(s) && Step(s, a, s')
    ensures LoginsOk(s')
  {
    hide SessionsOk, Transaction, Granted, HasAdministrator;
    forall l | l in s'.logins
      ensures s'.logins[l].user in s'.db.users && s'.db.users[s'.logins[l].user].account == s'.logins[l].account
    {
      AccountsStay(s, a, s'.logins[l].user);
    }
  }

  /** The transaction ends every session of the one user it changes. */
  lemma RevokingKeepsSession(s: Sys, s': Sys, u: UserId, at: int, k: SessionId)
    requires SessionsOk(s) && s'.clock == s.clock && at <= s.clock && s'.proof == s.proof
    requires s'.db.sessions == RevokeUser(s.db, u, at).sessions && k in s'.db.sessions
    requires forall v | v in s.db.users && v != u :: v in s'.db.users && s'.db.users[v] == s.db.users[v]
    ensures k in s'.proof && (Live(s', k) ==> Current(s', k))
  {
  }

  /** No enabled user is disabled or gets another password, no session is opened or brought back. */
  lemma QuietKeepsSession(s: Sys, s': Sys, k: SessionId)
    requires SessionsOk(s) && s.clock <= s'.clock && s'.proof == s.proof && k in s'.db.sessions
    requires k in s.db.sessions && s'.db.sessions[k].user == s.db.sessions[k].user
    requires IsLive(s'.db.sessions[k], s.clock) ==> IsLive(s.db.sessions[k], s.clock)
    requires forall v | v in s.db.users && s.db.users[v].enabled ::
               v in s'.db.users && s'.db.users[v].enabled && s'.db.users[v].hash == s.db.users[v].hash
    ensures k in s'.proof && (Live(s', k) ==> Current(s', k))
  {
  }

  lemma PasswordKeepsSession(s: Sys, a: Action, s': Sys, k: SessionId)
    requires Inv(s) && Step(s, a, s') && (a.ChangeCommit? || a.ResetCommit?) && k in s'.db.sessions
    ensures k in s'.proof && (Live(s', k) ==> Current(s', k))
  {
    hide Granted, SessionActor, RevokeUser, Live, Current, SessionsOk, LoginsOk;
    if Transaction(s, a).Ok? {
      var u := if a.ChangeCommit? then s.changes[a.call].user else s.resets[a.call].user;
      assert s'.db == ReplacePassword(s.db, u, a.newHash, a.at);
      RevokeReadsSessions(s.db, SetPassword(s.db, u, a.newHash), u, a.at);
      RevokingKeepsSession(s, s', u, a.at, k);
    } else {
      QuietKeepsSession(s, s', k);
    }
  }

  lemma RevokeReadsSessions(db: Db, db': Db, u: UserId, at: int)
    requires db.sessions == db'.sessions
    ensures RevokeUser(db', u, at).sessions == RevokeUser(db, u, at).sessions
    ensures RevokeUser(db', u, at).users == db'.users && RevokeUser(db', u, at).roles == db'.roles
  {
  }

  lemma UpdateKeepsSession(s: Sys, a: Action, s': Sys, k: SessionId)
    requires Inv(s) && Step(s, a, s') && a.DoUpdateUser? && k in s'.db.sessions
    ensures k in s'.proof && (Live(s', k) ==> Current(s', k))
  {
    hide Granted, SessionActor, HasAdministrator, RevokeUser, Live, Current, SessionsOk, LoginsOk;
    if a.target in s.db.users {
      var edited := EditUser(s.db, a.target, a.enabled, a.roles);
      RevokeReadsSessions(s.db, edited, a.target, a.at);
      if Transaction(s, a).Ok? && !edited.users[a.target].enabled {
        RevokingKeepsSession(s, s', a.target, a.at, k);
      } else {
        QuietKeepsSession(s, s', k);
      }
    } else {
      QuietKeepsSession(s, s', k);
    }
  }

  lemma BootstrapKeepsSession(s: Sys, a: Action, s': Sys, k: SessionId)
    requires Inv(s) && Step(s, a, s') && a.DoBootstrap? && k in s'.db.sessions
    ensures k in s'.proof && (Live(s', k) ==> Current(s', k))
  {
    hide RevokeUser, Live, Current, SessionsOk, LoginsOk, FindAccount;
    var found := FindAccount(s.db.users, a.account);
    if found.Some? && found.value in s.db.users && Transaction(s, a) != Ok(s.db) && Transaction(s, a).Ok? {
      var recovered := s.db.users[found.value].(hash := a.hash, enabled := true);
      RevokeReadsSessions(s.db, s.db.(users := s.db.users[found.value := recovered]), found.value, a.at);
      RevokingKeepsSession(s, s', found.value, a.at, k);
    } else {
      QuietKeepsSession(s, s', k);
    }
  }

  lemma LoginKeepsSession(s: Sys, a: Action, s': Sys, k: SessionId)
    requires Inv(s) && Step(s, a, s') && a.LoginCommit? && k in s'.db.sessions
    ensures k in s'.proof && (Live(s', k) ==> Current(s', k))
  {
    FoundAccount(s.db.users, s.logins[a.call].user);
  }

  lemma OthersKeepSession(s: Sys, a: Action, s': Sys, k: SessionId)
    requires Inv(s) && Step(s, a, s') && k in s'.db.sessions
    requires !a.ChangeCommit? && !a.ResetCommit? && !a.DoUpdateUser? && !a.DoBootstrap? && !a.LoginCommit?
    ensures k in s'.proof && (Live(s', k) ==> Current(s', k))
  {
    hide Granted, SessionActor, HasAdministrator, Live, Current, SessionsOk, LoginsOk, FindAccount;
    QuietKeepsSession(s, s', k);
  }

  lemma StepKeepsSession(s: Sys, a: Action, s': Sys, k: SessionId)
    requires Inv(s) && Step(s, a, s') && k in s'.db.sessions
    ensures k in s'.proof && (Live(s', k) ==> Current(s', k))
  {
    hide Inv, Step, Live, Current;
    match a
    case LoginCommit(_, _, _, _) => LoginKeepsSession(s, a, s', k);
    case ChangeCommit(_, _, _) => PasswordKeepsSession(s, a, s', k);
    case ResetCommit(_, _, _, _) => PasswordKeepsSession(s, a, s', k);
    case DoUpdateUser(_, _, _, _, _) => UpdateKeepsSession(s, a, s', k);
    case DoBootstrap(_, _, _, _, _, _) => BootstrapKeepsSession(s, a, s', k);
    case _ => OthersKeepSession(s, a, s', k);
  }

  lemma StepKeeps(s: Sys, a: Action, s': Sys)
    requires Inv(s) && Step(s, a, s')
    ensures Inv(s')
  {
    hide Step, AccountsUnique, LoginsOk;
    StepKeepsAccounts(s, a, s');
    StepKeepsLogins(s, a, s');
    forall k | k in s'.db.sessions
      ensures k in s'.proof && (Live(s', k) ==> Current(s', k))
    {
      StepKeepsSession(s, a, s', k);
    }
  }

  lemma {:induction false} RunKeeps(states: seq<Sys>, actions: seq<Action>, i: nat)
    requires IsRun(states, actions) && i < |states|
    ensures Inv(states[i])
  {
    hide Step;
    if i > 0 {
      hide Inv;
      RunKeeps(states, actions, i - 1);
      StepKeeps(states[i - 1], actions[i - 1], states[i]);
    }
  }

  /** In every reachable state a live session's user is enabled and still has the password it was opened with. */
  lemma LiveSessionsAreCurrent(states: seq<Sys>, actions: seq<Action>, i: nat, sid: SessionId)
    requires IsRun(states, actions) && i < |states| && Live(states[i], sid)
    ensures Current(states[i], sid)
  {
    hide Step;
    RunKeeps(states, actions, i);
  }

  /**
   A token is accepted exactly when its session is live and its secret matches: that the user exists, is
   enabled and still has the password of the session follows.
   */
  lemma AcceptedExactlyWhenLive(states: seq<Sys>, actions: seq<Action>, i: nat, token: Token)
    requires IsRun(states, actions) && i < |states|
    ensures var s := states[i];
            var actor := SessionActor(s.db, token, s.clock);
            && (actor.Some? <==> Live(s, token.id) && s.db.sessions[token.id].secret == token.secret)
            && (actor.Some? ==> Current(s, token.id) && actor.value == s.db.sessions[token.id].user)
  {
    hide Step;
    RunKeeps(states, actions, i);
  }

  lemma DeadStays(s: Sys, a: Action, s': Sys, sid: SessionId)
    requires Step(s, a, s') && sid in s.proof && !Live(s, sid)
    ensures sid in s'.proof && !Live(s', sid)
  {
    hide Granted, HasAdministrator;
  }

  /** A session that has ended never becomes live again, and its id is never given to another. */
  lemma {:induction false} DeadForever(states: seq<Sys>, actions: seq<Action>, i: nat, j: nat, sid: SessionId)
    requires IsRun(states, actions) && i <= j < |states|
    requires sid in states[i].proof && !Live(states[i], sid)
    ensures sid in states[j].proof && !Live(states[j], sid)
    decreases j
  {
    hide Step;
    if i < j {
      DeadForever(states, actions, i, j - 1, sid);
      DeadStays(states[j - 1], actions[j - 1], states[j], sid);
    }
  }

  lemma SessionStays(s: Sys, a: Action, s': Sys, sid: SessionId)
    requires Inv(s) && Step(s, a, s') && sid in s.proof
    ensures sid in s'.proof && s'.proof[sid] == s.proof[sid]
    ensures sid in s'.db.sessions ==> sid in s.db.sessions && s'.db.sessions[sid].user == s.db.sessions[sid].user
  {
    hide Granted, HasAdministrator;
  }

  lemma {:induction false} SessionKeepsItsUser(states: seq<Sys>, actions: seq<Action>, i: nat, j: nat, sid: SessionId)
    requires IsRun(states, actions) && i <= j < |states| && sid in states[i].db.sessions && sid in states[i].proof
    ensures sid in states[j].proof && states[j].proof[sid] == states[i].proof[sid]
    ensures sid in states[j].db.sessions ==> states[j].db.sessions[sid].user == states[i].db.sessions[sid].user
    decreases j
  {
    hide Step;
    if i < j {
      hide Inv;
      SessionKeepsItsUser(states, actions, i, j - 1, sid);
      RunKeeps(states, actions, j - 1);
      SessionStays(states[j - 1], actions[j - 1], states[j], sid);
    }
  }

  /**
   No session outlives a moment at which its user was disabled or had another password than the one the
   session was opened with: enabling the user again, or storing the old hash again, does not revive it.
   */
  lemma NothingRevives(states: seq<Sys>, actions: seq<Action>, i: nat, k: nat, j: nat, sid: SessionId, u: UserId)
    requires IsRun(states, actions) && i <= k <= j < |states|
    requires sid in states[i].db.sessions && states[i].db.sessions[sid].user == u && sid in states[i].proof
    requires u in states[k].db.users
    requires !states[k].db.users[u].enabled || states[k].db.users[u].hash != states[i].proof[sid]
    ensures !Live(states[j], sid)
  {
    hide Step;
    SessionKeepsItsUser(states, actions, i, k, sid);
    RunKeeps(states, actions, k);
    DeadForever(states, actions, k, j, sid);
  }

  // ---------------------------------------------------------------- administrators

  lemma AdministersStill(db: Db, db': Db, u: UserId)
    requires Administers(db, u) && u in db'.users && db'.users[u].enabled && db'.users[u].roles == db.users[u].roles
    requires forall r | r in db.roles :: r in db'.roles && db'.roles[r] == db.roles[r]
    ensures HasAdministrator(db')
  {
    assert Granted(db', db'.users[u], "admin.read") && Granted(db', db'.users[u], "admin.write");
    assert Administers(db', u);
  }

  lemma AdministratorStays(s: Sys, a: Action, s': Sys)
    requires Inv(s) && Step(s, a, s') && HasAdministrator(s.db)
    ensures HasAdministrator(s'.db)
  {
    hide Granted, AccountsUnique, LoginsOk, SessionsOk;
    if !a.DoUpdateUser? && !a.DoUpdateRole? {
      var u :| u in s.db.users && Administers(s.db, u);
      assert s.db.users[u].enabled;
      hide Administers, HasAdministrator;
      AdministersStill(s.db, s'.db, u);
    }
  }

  /** From the first administrator on there always is one who can manage users and roles. */
  lemma {:induction false} AdministratorRemains(states: seq<Sys>, actions: seq<Action>, i: nat, j: nat)
    requires IsRun(states, actions) && i <= j < |states| && HasAdministrator(states[i].db)
    ensures HasAdministrator(states[j].db)
    decreases j
  {
    hide Step;
    if i < j {
      hide Inv, HasAdministrator;
      AdministratorRemains(states, actions, i, j - 1);
      RunKeeps(states, actions, j - 1);
      AdministratorStays(states[j - 1], actions[j - 1], states[j]);
    }
  }

  // ---------------------------------------------------------------- the service

  /** What a call reports and leaves behind is what its transaction replies. */
  ghost predicate Settles(r: Reply, before: Db, after: Db, error: Option<Error>) {
    after == After(before, r) && error == if r.Ok? then None else Some(r.error)
  }

  class Service {
    var users: map<UserId, User>
    var roles: map<RoleId, Role>
    var sessions: map<SessionId, Session>

    function View(): Db
      reads this
    {
      Db(users, roles, sessions)
    }

    method UserByAccount(account: string) returns (u: Option<UserId>)
      requires AccountsUnique(users)
      ensures u == FindAccount(users, account)
    {
      if k :| k in users && users[k].account == account {
        u := Some(k);
      } else {
        u := None;
      }
    }

    method Actor(token: Token, now: int) returns (u: Option<UserId>)
      ensures u == SessionActor(View(), token, now)
    {
      if token.id !in sessions {
        return None;
      }
      var session := sessions[token.id];
      if session.revokedAt.Some? || session.expiresAt <= now || session.secret != token.secret {
        return None;
      }
      u := if session.user in users && users[session.user].enabled then Some(session.user) else None;
    }

    method RequireWrite(token: Token, permission: string, now: int) returns (c: Caller)
      ensures c == Writer(View(), token, permission, now)
      ensures c.Allowed? ==> Acts(View(), token, now, c.id) && Holds(View(), c.id, permission)
      ensures c == Refused(Forbidden) ==> exists u :: Acts(View(), token, now, u) && !Holds(View(), u, permission)
      ensures c == Refused(Unauthenticated) ==> forall u :: !Acts(View(), token, now, u)
      ensures c.Refused? ==> c.error.Forbidden? || c.error.Unauthenticated?
    {
      var actor := Actor(token, now);
      if actor.None? {
        return Refused(Unauthenticated);
      }
      assert Acts(View(), token, now, actor.value);
      assert Granted(View(), users[actor.value], permission) <==> Holds(View(), actor.value, permission);
      c := if Granted(View(), users[actor.value], permission) then Allowed(actor.value) else Refused(Forbidden);
    }

    /** login up to its transaction; matches is the verdict on the password. */
    method BeginLogin(account: string, matches: bool) returns (attempt: Option<Attempt>)
      requires AccountsUnique(users)
      ensures attempt == ReadAttempt(View(), account, matches)
      ensures attempt.Some? <==> matches && exists u | u in users :: users[u].account == account && users[u].enabled
      ensures attempt.Some? ==> attempt.value.account == account
      ensures attempt.Some? ==> Owns(View(), attempt.value.user, account, attempt.value.hash)
    {
      var found := UserByAccount(account);
      if found.None? || !users[found.value].enabled || !matches {
        return None;
      }
      attempt := Some(Attempt(account, found.value, users[found.value].hash));
    }

    /** The transaction of login. */
    method FinishLogin(attempt: Attempt, sid: SessionId, secret: Secret, expiresAt: int) returns (error: Option<Error>)
      requires AccountsUnique(users)
      modifies this`sessions
      ensures Settles(SaveLogin(old(View()), attempt, sid, secret, expiresAt), old(View()), View(), error)
      ensures error == None || error == Some(InvalidCredentials)
      ensures error.None? <==> exists u | u in users :: Owns(old(View()), u, attempt.account, attempt.hash)
      ensures sessions == if error.Some? then old(sessions)
                          else old(sessions)[sid := Session(attempt.user, secret, expiresAt, None)]
    {
      var current := UserByAccount(attempt.account);
      if current.None? || !users[current.value].enabled || users[current.value].hash != attempt.hash {
        return Some(InvalidCredentials);
      }
      sessions := sessions[sid := Session(attempt.user, secret, expiresAt, None)];
      error := None;
    }

    method RevokeSession(sid: SessionId, at: int)
      requires sid in sessions
      modifies this`sessions
      ensures sessions == old(sessions)[sid := Revoked(old(sessions)[sid], at)]
      ensures forall t | at <= t :: !IsLive(sessions[sid], t)
      ensures !IsLive(old(sessions)[sid], at) ==> sessions == old(sessions)
    {
      var session := sessions[sid];
      if session.revokedAt.None? && session.expiresAt > at {
        session := session.(revokedAt := Some(at));
      }
      sessions := sessions[sid := session];
    }

    method RevokeUserSessions(u: UserId, at: int)
      modifies this`sessions
      ensures View() == RevokeUser(old(View()), u, at)
      ensures sessions.Keys == old(sessions).Keys
      ensures forall k, t | k in sessions && sessions[k].user == u && at <= t :: !IsLive(sessions[k], t)
      ensures forall k | k in sessions && (sessions[k].user != u || !IsLive(old(sessions)[k], at)) ::
                sessions[k] == old(sessions)[k]
    {
      sessions := map k | k in sessions ::
        if sessions[k].user == u && sessions[k].revokedAt.None? && sessions[k].expiresAt > at
        then sessions[k].(revokedAt := Some(at)) else sessions[k];
    }

    method SignOut(token: Token, at: int)
      modifies this`sessions
      ensures View() == Logout(old(View()), token, at)
      ensures forall t, u | at <= t :: !Acts(View(), token, t, u)
      ensures sessions.Keys == old(sessions).Keys
      ensures forall k | k in sessions && Token(k, sessions[k].secret) != token :: sessions[k] == old(sessions)[k]
    {
      if token.id in sessions && sessions[token.id].secret == token.secret {
        RevokeSession(token.id, at);
      }
    }

    method SetPasswordAndRevoke(u: UserId, hash: string, at: int)
      requires u in users
      modifies this`users, this`sessions
      ensures View() == ReplacePassword(old(View()), u, hash, at)
      ensures users.Keys == old(users).Keys && users[u].hash == hash
      ensures forall v | v in users && v != u :: users[v] == old(users)[v]
      ensures forall k, t | k in sessions && sessions[k].user == u && at <= t :: !IsLive(sessions[k], t)
      ensures forall k | k in sessions && sessions[k].user != u :: k in old(sessions) && sessions[k] == old(sessions)[k]
    {
      users := users[u := users[u].(hash := hash)];
      RevokeUserSessions(u, at);
    }

    /** The transaction of changePassword. */
    method FinishChange(token: Token, user: UserId, hash: string, newHash: string, at: int, now: int)
        returns (error: Option<Error>)
      modifies this`users, this`sessions
      ensures Settles(ChangePassword(old(View()), token, user, hash, newHash, at, now), old(View()), View(), error)
      ensures error == Some(Unauthenticated) <==> !Acts(old(View()), token, now, user)
      ensures error.None? <==> Acts(old(View()), token, now, user) && old(users)[user].hash == hash
      ensures error.None? ==> PasswordReplaced(old(View()), View(), user, newHash, at)
      ensures error.Some? ==> View() == old(View())
    {
      var actor := Actor(token, now);
      if actor.None? || actor.value != user {
        return Some(Unauthenticated);
      }
      if users[user].hash != hash {
        return Some(CredentialsChanged);
      }
      SetPasswordAndRevoke(user, newHash, at);
      error := None;
    }

    /** The transaction of resetManagedUserPassword. */
    method FinishReset(token: Token, user: UserId, hash: string, newHash: string, at: int, now: int)
        returns (error: Option<Error>)
      modifies this`users, this`sessions
      ensures Settles(ResetPassword(old(View()), token, user, hash, newHash, at, now), old(View()), View(), error)
      ensures error.None? <==> exists u | u != user ::
                && Acts(old(View()), token, now, u) && Holds(old(View()), u, "admin.write")
                && user in old(users) && old(users)[user].hash == hash
      ensures error.None? ==> PasswordReplaced(old(View()), View(), user, newHash, at)
      ensures error.Some? ==> View() == old(View())
    {
      var actor := RequireWrite(token, "admin.write", now);
      if actor.Refused? {
        return Some(actor.error);
      }
      if actor.id == user {
        return Some(CurrentPasswordRequired);
      }
      if user !in users {
        return Some(UserNotFound);
      }
      if users[user].hash != hash {
        return Some(CredentialsChanged);
      }
      SetPasswordAndRevoke(user, newHash, at);
      error := None;
    }

    /** updateManagedUser: the updates are undone when no administrator would remain. */
    method UpdateManagedUser(token: Token, u: UserId, enabled: Option<bool>, newRoles: Option<set<RoleId>>, at: int,
        now: int)
      returns (error: Option<Error>)
      modifies this`users, this`sessions
      ensures Settles(UpdateUser(old(View()), token, u, enabled, newRoles, at, now), old(View()), View(), error)
      ensures error.None? ==> exists a :: Acts(old(View()), token, now, a) && Holds(old(View()), a, "admin.write")
      ensures error.None? ==> HasAdministrator(View()) && u in old(users)
      ensures error.None? ==> users == old(users)[u := old(users)[u].(enabled := Choose(enabled, old(users)[u].enabled),
                                                                     roles := Choose(newRoles, old(users)[u].roles))]
      ensures error.None? && newRoles.Some? ==> newRoles.value <= roles.Keys
      ensures error.None? && !users[u].enabled ==>
                forall k, t | k in sessions && sessions[k].user == u && at <= t :: !IsLive(sessions[k], t)
      ensures error.Some? ==> View() == old(View())
    {
      hide HasAdministrator, Granted;
      var actor := RequireWrite(token, "admin.write", now);
      if actor.Refused? {
        return Some(actor.error);
      }
      if u !in users {
        return Some(UserNotFound);
      }
      var savedUsers, savedSessions := users, sessions;
      var user := users[u];
      if enabled.Some? {
        user := user.(enabled := enabled.value);
      }
      if newRoles.Some? {
        if !(newRoles.value <= roles.Keys) {
          return Some(InvalidReference);
        }
        user := user.(roles := newRoles.value);
      }
      users := users[u := user];
      if !user.enabled {
        RevokeUserSessions(u, at);
      }
      if !HasAdministrator(View()) {
        users, sessions := savedUsers, savedSessions;
        return Some(LastAdministrator);
      }
      error := None;
    }

    /** updateManagedRole: the update is undone when no administrator would remain. */
    method UpdateManagedRole(token: Token, id: RoleId, active: Option<bool>, permissions: Option<set<string>>, now: int)
      returns (error: Option<Error>)
      modifies this`roles
      ensures Settles(UpdateRole(old(View()), token, id, active, permissions, now), old(View()), View(), error)
      ensures error.None? ==> exists a :: Acts(old(View()), token, now, a) && Holds(old(View()), a, "admin.write")
      ensures error.None? ==> HasAdministrator(View()) && id in old(roles)
      ensures error.None? ==> roles == old(roles)[id := Role(Choose(active, old(roles)[id].active),
                                                             Choose(permissions, old(roles)[id].permissions))]
      ensures error.Some? ==> View() == old(View())
    {
      hide HasAdministrator, Granted;
      var actor := RequireWrite(token, "admin.write", now);
      if actor.Refused? {
        return Some(actor.error);
      }
      if id !in roles {
        return Some(RoleNotFound);
      }
      var saved := roles;
      roles := roles[id := Role(Choose(active, roles[id].active), Choose(permissions, roles[id].permissions))];
      if !HasAdministrator(View()) {
        roles := saved;
        return Some(LastAdministrator);
      }
      error := None;
    }
  }
}
