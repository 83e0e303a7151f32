/**
 Who may do what, told by the rows alone (packages/server/src/modules/identity/service.ts): which password
 opens a session, what ends one, who is accepted with a token and who changes accounts and roles.
 */
module Authority {
  import opened Common
  import opened Identity

  // ---------------------------------------------------------------- the checks in the rows' fields

  /** sessionActor accepts a token for a user exactly when that user acts with it. */
  lemma ActorInRowFields(db: Db, token: Token, now: int, u: UserId)
    ensures SessionActor(db, token, now) == Some(u) <==> Acts(db, token, now, u)
  {
  }

  /** requireWritePermission allows exactly an acting user who holds the permission, and says what is missing. */
  lemma WriterInRowFields(db: Db, token: Token, permission: string, now: int)
    ensures forall u :: Writer(db, token, permission, now) == Allowed(u) <==>
                        Acts(db, token, now, u) && Holds(db, u, permission)
    ensures Writer(db, token, permission, now) == Refused(Unauthenticated) <==> forall u :: !Acts(db, token, now, u)
    ensures Writer(db, token, permission, now) == Refused(Forbidden) <==>
            exists u :: Acts(db, token, now, u) && !Holds(db, u, permission)
  {
    var actor := SessionActor(db, token, now);
    if actor.Some? {
      assert Acts(db, token, now, actor.value);
      assert Granted(db, db.users[actor.value], permission) <==> Holds(db, actor.value, permission);
    }
  }

  /** assertAdministratorRemains asks for an enabled user who holds both permissions. */
  lemma AdministratorInRowFields(db: Db)
    ensures HasAdministrator(db) <==> exists u | u in db.users ::
              db.users[u].enabled && Holds(db, u, "admin.read") && Holds(db, u, "admin.write")
  {
    forall u | u in db.users
      ensures Administers(db, u) <==>
              db.users[u].enabled && Holds(db, u, "admin.read") && Holds(db, u, "admin.write")
    {
      assert Granted(db, db.users[u], "admin.read") <==> Holds(db, u, "admin.read");
      assert Granted(db, db.users[u], "admin.write") <==> Holds(db, u, "admin.write");
    }
  }

  ghost predicate MayAdminister(db: Db, token: Token, now: int) {
    exists u :: Acts(db, token, now, u) && Holds(db, u, "admin.write")
  }

  lemma WriterMayAdminister(db: Db, token: Token, now: int)
    ensures Writer(db, token, "admin.write", now).Allowed? <==> MayAdminister(db, token, now)
  {
    hide Acts, Holds, Writer;
    WriterInRowFields(db, token, "admin.write", now);
    var w := Writer(db, token, "admin.write", now);
    if w.Allowed? {
      assert w == Allowed(w.id);
    }
  }

  /** updateManagedUser goes through exactly for a holder of the permission who leaves an administrator. */
  lemma UserUpdateSucceedsExactlyWhen(db: Db, token: Token, u: UserId, enabled: Option<bool>,
      roles: Option<set<RoleId>>, at: int, now: int)
    ensures UpdateUser(db, token, u, enabled, roles, at, now).Ok? <==>
            && MayAdminister(db, token, now)
            && u in db.users
            && (roles.Some? ==> roles.value <= db.roles.Keys)
            && HasAdministrator(EditUser(db, u, enabled, roles))
  {
    hide Writer, MayAdminister, Administers;
    WriterMayAdminister(db, token, now);
    if u in db.users {
      var edited := EditUser(db, u, enabled, roles);
      var revoked := RevokeUser(edited, u, at);
      forall v | v in edited.users ensures Administers(edited, v) == Administers(revoked, v) {
        SessionsDoNotAdminister(edited, revoked, v);
      }
    }
  }

  lemma SessionsDoNotAdminister(db: Db, db': Db, u: UserId)
    requires db.users == db'.users && db.roles == db'.roles
    ensures Administers(db, u) == Administers(db', u)
  {
  }

  /** updateManagedRole likewise. */
  lemma RoleUpdateSucceedsExactlyWhen(db: Db, token: Token, id: RoleId, active: Option<bool>,
      permissions: Option<set<string>>, now: int)
    ensures UpdateRole(db, token, id, active, permissions, now).Ok? <==>
            && MayAdminister(db, token, now)
            && id in db.roles
            && HasAdministrator(db.(roles := db.roles[id := Role(Choose(active, db.roles[id].active),
                                                                Choose(permissions, db.roles[id].permissions))]))
  {
    hide Writer, MayAdminister, HasAdministrator;
    WriterMayAdminister(db, token, now);
  }

  /** createManagedUser. */
  lemma UserCreationSucceedsExactlyWhen(db: Db, token: Token, id: UserId, user: User, now: int)
    ensures CreateUser(db, token, id, user, now).Ok? <==>
            && MayAdminister(db, token, now)
            && (forall u | u in db.users :: db.users[u].account != user.account)
            && user.roles <= db.roles.Keys
  {
    hide Writer, MayAdminister;
    WriterMayAdminister(db, token, now);
  }

  /** bootstrapAdministrator on an empty database leaves one administrator, who is the only user. */
  lemma FirstAdministrator(db: Db, account: string, hash: string, id: UserId, recover: bool, matched: Option<string>,
      at: int)
    requires db.users == map[]
    ensures var r := Bootstrap(db, account, hash, id, recover, matched, at);
            && r.Ok? && HasAdministrator(r.db) && r.db.users.Keys == {id} && Owns(r.db, id, account, hash)
            && r.db.sessions == db.sessions
  {
    var r := Bootstrap(db, account, hash, id, recover, matched, at);
    assert r.Ok? && r.db.roles["role_admin"] == Role(true, BOOTSTRAP_PERMISSIONS);
    assert Granted(r.db, r.db.users[id], "admin.read") && Granted(r.db, r.db.users[id], "admin.write");
    assert Administers(r.db, id);
  }

  // ---------------------------------------------------------------- a session is opened by a password

  /** At that step of the run the login read this attempt's hash and the password matched it. */
  ghost predicate LoginVerified(states: seq<Sys>, actions: seq<Action>, j: nat, call: nat, l: Attempt) {
    && j < |actions| < |states|
    && actions[j] == LoginRead(call, l.account, true)
    && Owns(states[j].db, l.user, l.account, l.hash)
  }

  lemma {:induction false} LoginWasVerified(states: seq<Sys>, actions: seq<Action>, i: nat, call: nat)
    requires IsRun(states, actions) && i < |states| && call in states[i].logins
    ensures exists j | 0 <= j < i :: LoginVerified(states, actions, j, call, states[i].logins[call])
  {
    if i > 0 {
      var s, a := states[i - 1], actions[i - 1];
      assert Step(s, a, states[i]);
      if a.LoginRead? && a.call == call {
        assert LoginVerified(states, actions, i - 1, call, states[i].logins[call]);
      } else {
        assert call in s.logins && s.logins[call] == states[i].logins[call];
        LoginWasVerified(states, actions, i - 1, call);
      }
    }
  }

  /**
   The session was saved by the transaction of a login whose password matched the hash read before it, while
   its user still was enabled with that hash.
   */
  ghost predicate OpenedByPassword(states: seq<Sys>, actions: seq<Action>, j: nat, k: nat, sid: SessionId, l: Attempt) {
    && j < k < |actions| < |states|
    && actions[k].LoginCommit? && actions[k].sid == sid
    && LoginVerified(states, actions, j, actions[k].call, l)
    && Owns(states[k].db, l.user, l.account, l.hash)
    && sid in states[k + 1].db.sessions
    && states[k + 1].db.sessions[sid] == Session(l.user, actions[k].secret, actions[k].expiresAt, None)
  }

  lemma CommitOpens(s: Sys, a: Action, s': Sys)
    requires Inv(s) && Step(s, a, s') && a.LoginCommit? && a.sid in s'.proof
    ensures a.call in s.logins
    ensures var l := s.logins[a.call];
            && Owns(s.db, l.user, l.account, l.hash)
            && s'.proof[a.sid] == l.hash
            && a.sid in s'.db.sessions
            && s'.db.sessions[a.sid] == Session(l.user, a.secret, a.expiresAt, None)
  {
    hide SessionsOk;
    FoundAccount(s.db.users, s.logins[a.call].user);
  }

  /** Every session there ever was is in proof, opened by the right password of an enabled account. */
  lemma {:induction false} SessionWasOpenedByPassword(states: seq<Sys>, actions: seq<Action>, i: nat, sid: SessionId)
    requires IsRun(states, actions) && i < |states| && (sid in states[i].proof || sid in states[i].db.sessions)
    ensures sid in states[i].proof
    ensures exists j, k, l | 0 <= j < k < i ::
              OpenedByPassword(states, actions, j, k, sid, l) && l.hash == states[i].proof[sid]
  {
    RunKeeps(states, actions, i);
    assert i > 0;
    var s, a, s' := states[i - 1], actions[i - 1], states[i];
    assert Step(s, a, s');
    RunKeeps(states, actions, i - 1);
    if sid in s.proof {
      hide Inv;
      assert s'.proof[sid] == s.proof[sid];
      SessionWasOpenedByPassword(states, actions, i - 1, sid);
    } else {
      assert a.LoginCommit? && a.sid == sid;
      CommitOpens(s, a, s');
      LoginWasVerified(states, actions, i - 1, a.call);
      var j :| 0 <= j < i - 1 && LoginVerified(states, actions, j, a.call, s.logins[a.call]);
      assert OpenedByPassword(states, actions, j, i - 1, sid, s.logins[a.call]);
    }
  }

  /** A read of the right password followed at once by its transaction opens the session. */
  lemma RightPasswordOpens(s: Sys, s1: Sys, s2: Sys, call: nat, u: UserId, sid: SessionId, secret: Secret,
      expiresAt: int)
    requires Inv(s) && sid !in s.proof && u in s.db.users && s.db.users[u].enabled
    requires Step(s, LoginRead(call, s.db.users[u].account, true), s1)
    requires Step(s1, LoginCommit(call, sid, secret, expiresAt), s2)
    ensures forall now | now < expiresAt :: Acts(s2.db, Token(sid, secret), now, u)
  {
    hide SessionsOk, LoginsOk;
    FoundAccount(s.db.users, u);
  }

  // ---------------------------------------------------------------- what ends a session

  /** What an action does that ends this session: nothing else ends it. */
  ghost predicate Ends(s: Sys, a: Action, sid: SessionId)
    requires sid in s.db.sessions
  {
    var x := s.db.sessions[sid];
    match a
    case Tick(to) => x.expiresAt <= to
    case DoLogout(token, _) => token == Token(sid, x.secret)
    case ChangeCommit(call, _, _) =>
      && call in s.changes && s.changes[call].user == x.user && x.user in s.db.users
      && s.changes[call].hash == Some(s.db.users[x.user].hash)
      && Acts(s.db, s.changes[call].token, s.clock, x.user)
    case ResetCommit(call, token, _, _) =>
      && call in s.resets && s.resets[call].user == x.user && x.user in s.db.users
      && s.resets[call].hash == s.db.users[x.user].hash
      && exists u | u != x.user :: Acts(s.db, token, s.clock, u) && Holds(s.db, u, "admin.write")
    case DoUpdateUser(token, target, enabled, roles, _) =>
      && target == x.user && enabled == Some(false) && x.user in s.db.users
      && MayAdminister(s.db, token, s.clock) && (roles.Some? ==> roles.value <= s.db.roles.Keys)
      && HasAdministrator(EditUser(s.db, target, enabled, roles))
    case _ => false
  }

  /** A live session is ended by exactly these actions: no other one, and none of them leaves it alive. */
  lemma SessionEndsExactlyBy(s: Sys, a: Action, s': Sys, sid: SessionId)
    requires Inv(s) && Step(s, a, s') && Live(s, sid)
    ensures Live(s', sid) <==> !Ends(s, a, sid)
    ensures Live(s', sid) ==> s'.db.sessions[sid] == s.db.sessions[sid]
  {
    hide Inv, Step, Live, Ends;
    if a.DoUpdateUser? {
      UpdateEndsExactly(s, a, s', sid);
    } else if a.ResetCommit? {
      ResetEndsExactly(s, a, s', sid);
    } else {
      OthersEndExactly(s, a, s', sid);
    }
  }

  lemma UpdateEndsExactly(s: Sys, a: Action, s': Sys, sid: SessionId)
    requires Inv(s) && Step(s, a, s') && Live(s, sid) && a.DoUpdateUser?
    ensures Live(s', sid) <==> !Ends(s, a, sid)
    ensures Live(s', sid) ==> s'.db.sessions[sid] == s.db.sessions[sid]
  {
    hide Holds, Granted, HasAdministrator, MayAdminister, AccountsUnique, LoginsOk;
    UserUpdateSucceedsExactlyWhen(s.db, a.token, a.target, a.enabled, a.roles, a.at, s.clock);
  }

  lemma ResetEndsExactly(s: Sys, a: Action, s': Sys, sid: SessionId)
    requires Inv(s) && Step(s, a, s') && Live(s, sid) && a.ResetCommit?
    ensures Live(s', sid) <==> !Ends(s, a, sid)
    ensures Live(s', sid) ==> s'.db.sessions[sid] == s.db.sessions[sid]
  {
    hide Holds, Granted, HasAdministrator, MayAdminister, AccountsUnique, LoginsOk, SessionsOk;
    WriterInRowFields(s.db, a.token, "admin.write", s.clock);
  }

  lemma OthersEndExactly(s: Sys, a: Action, s': Sys, sid: SessionId)
    requires Inv(s) && Step(s, a, s') && Live(s, sid) && !a.DoUpdateUser? && !a.ResetCommit?
    ensures Live(s', sid) <==> !Ends(s, a, sid)
    ensures Live(s', sid) ==> s'.db.sessions[sid] == s.db.sessions[sid]
  {
    hide Holds, Granted, HasAdministrator, MayAdminister, AccountsUnique, LoginsOk;
  }

  /** A live session stays live, with the row it has, exactly until an action ends it. */
  lemma {:induction false} SessionLastsUntilEnded(states: seq<Sys>, actions: seq<Action>, i: nat, j: nat,
      sid: SessionId)
    requires IsRun(states, actions) && i <= j < |states| && Live(states[i], sid)
    ensures sid in states[j].proof
    ensures Live(states[j], sid) <==>
            forall k | i <= k < j :: Live(states[k], sid) ==> !Ends(states[k], actions[k], sid)
    ensures Live(states[j], sid) ==> states[j].db.sessions[sid] == states[i].db.sessions[sid]
    decreases j
  {
    hide Step, Ends;
    if i < j {
      hide Live;
      SessionLastsUntilEnded(states, actions, i, j - 1, sid);
      RunKeeps(states, actions, j - 1);
      var s, a, s' := states[j - 1], actions[j - 1], states[j];
      hide Inv;
      SessionStays(s, a, s', sid);
      if Live(s, sid) {
        SessionEndsExactlyBy(s, a, s', sid);
      } else {
        DeadStays(s, a, s', sid);
      }
    } else {
      RunKeeps(states, actions, i);
    }
  }

  /** A token once accepted is accepted for the same user exactly until its session is ended. */
  lemma TokenIsAcceptedUntilEnded(states: seq<Sys>, actions: seq<Action>, i: nat, j: nat, token: Token, u: UserId)
    requires IsRun(states, actions) && i <= j < |states| && Acts(states[i].db, token, states[i].clock, u)
    ensures SessionActor(states[j].db, token, states[j].clock) == Some(u) <==>
            forall k | i <= k < j :: Live(states[k], token.id) ==> !Ends(states[k], actions[k], token.id)
  {
    hide Step, Ends;
    SessionLastsUntilEnded(states, actions, i, j, token.id);
    RunKeeps(states, actions, j);
  }

  // ---------------------------------------------------------------- who changes what

  /** Who may leave account v as it is in s': its own password, an administrator, or the bootstrap. */
  ghost predicate AccountAuthority(s: Sys, a: Action, s': Sys, v: UserId)
    requires v in s'.db.users
  {
    match a
    case ChangeCommit(call, newHash, _) =>
      && v in s.db.users && call in s.changes && Acts(s.db, s.changes[call].token, s.clock, v)
      && s.changes[call].user == v && s.changes[call].hash == Some(s.db.users[v].hash)
      && s'.db.users[v] == s.db.users[v].(hash := newHash)
    case ResetCommit(call, token, newHash, _) =>
      && v in s.db.users && call in s.resets && s.resets[call] == Reset(v, s.db.users[v].hash)
      && (exists u | u != v :: Acts(s.db, token, s.clock, u) && Holds(s.db, u, "admin.write"))
      && s'.db.users[v] == s.db.users[v].(hash := newHash)
    case DoUpdateUser(token, target, enabled, roles, _) =>
      && v == target && v in s.db.users && MayAdminister(s.db, token, s.clock)
      && s'.db.users[v] == User(s.db.users[v].account, s.db.users[v].hash, Choose(enabled, s.db.users[v].enabled),
                                Choose(roles, s.db.users[v].roles))
    case DoCreateUser(token, id, user) =>
      v == id && v !in s.db.users && MayAdminister(s.db, token, s.clock) && s'.db.users[v] == user
    case DoBootstrap(account, hash, id, recover, _, _) =>
      && Owns(s'.db, v, account, hash)
      && if v in s.db.users then recover && IsLegacy(s.db.users[v].hash) && !s.db.users[v].enabled
         else v == id && s.db.users == map[]
    case _ => false
  }

  /** No account is ever removed, and every change of one is authorised. */
  lemma AccountsChangeByAuthority(s: Sys, a: Action, s': Sys, v: UserId)
    requires Inv(s) && Step(s, a, s') && (v in s.db.users || v in s'.db.users)
    ensures v in s'.db.users
    ensures (v in s.db.users && s.db.users[v] == s'.db.users[v]) || AccountAuthority(s, a, s', v)
  {
    hide Holds, Granted, HasAdministrator, MayAdminister, AccountsUnique, LoginsOk, SessionsOk;
    if a.DoUpdateUser? || a.DoCreateUser? {
      WriterMayAdminister(s.db, a.token, s.clock);
      hide Writer, SessionActor;
    } else if a.ResetCommit? {
      WriterInRowFields(s.db, a.token, "admin.write", s.clock);
      hide Writer, SessionActor;
    } else {
      hide Writer;
    }
  }

  /** Who may leave a role as it is in s': an administrator, or the bootstrap of an empty database. */
  ghost predicate RoleAuthority(s: Sys, a: Action, s': Sys, id: RoleId)
    requires id in s'.db.roles
  {
    match a
    case DoCreateRole(token, role, value) =>
      id == role && id !in s.db.roles && MayAdminister(s.db, token, s.clock) && s'.db.roles[id] == value
    case DoUpdateRole(token, role, active, permissions) =>
      && id == role && id in s.db.roles && MayAdminister(s.db, token, s.clock)
      && s'.db.roles[id] == Role(Choose(active, s.db.roles[id].active),
                                 Choose(permissions, s.db.roles[id].permissions))
    case DoBootstrap(_, _, _, _, _, _) => id == "role_admin" && s.db.users == map[]
    case _ => false
  }

  /** No role is ever removed, and every change of one is authorised. */
  lemma RolesChangeByAuthority(s: Sys, a: Action, s': Sys, id: RoleId)
    requires Inv(s) && Step(s, a, s') && (id in s.db.roles || id in s'.db.roles)
    ensures id in s'.db.roles
    ensures (id in s.db.roles && s.db.roles[id] == s'.db.roles[id]) || RoleAuthority(s, a, s', id)
  {
    hide Holds, Granted, HasAdministrator, MayAdminister, AccountsUnique, LoginsOk, SessionsOk;
    match a
    case DoUpdateRole(token, _, _, _) => WriterMayAdminister(s.db, token, s.clock);
    case DoCreateRole(token, _, _) => WriterMayAdminister(s.db, token, s.clock);
    case _ =>
  }

  /** The change of a password is begun with an accepted token, and then the present password is verified. */
  ghost predicate ChangeVerified(states: seq<Sys>, actions: seq<Action>, i: nat, j: nat, call: nat, c: Change) {
    && i < j < |actions| < |states|
    && actions[i] == ChangeStart(call, c.token)
    && Acts(states[i].db, c.token, states[i].clock, c.user)
    && actions[j] == ChangeRead(call, true)
    && c.user in states[j].db.users
    && c.hash == Some(states[j].db.users[c.user].hash)
  }

  lemma {:induction false} ChangeWasStarted(states: seq<Sys>, actions: seq<Action>, i: nat, call: nat)
    requires IsRun(states, actions) && i < |states| && call in states[i].changes
    ensures var c := states[i].changes[call];
            exists j | 0 <= j < i ::
              actions[j] == ChangeStart(call, c.token) && Acts(states[j].db, c.token, states[j].clock, c.user)
  {
    if i > 0 {
      var s, a := states[i - 1], actions[i - 1];
      assert Step(s, a, states[i]);
      if a == ChangeStart(call, states[i].changes[call].token) {
        assert Acts(s.db, a.token, s.clock, states[i].changes[call].user);
      } else {
        assert call in s.changes;
        ChangeWasStarted(states, actions, i - 1, call);
      }
    }
  }

  lemma {:induction false} ChangeWasVerified(states: seq<Sys>, actions: seq<Action>, n: nat, call: nat)
    requires IsRun(states, actions) && n < |states|
    requires call in states[n].changes && states[n].changes[call].hash.Some?
    ensures exists i, j | 0 <= i < j < n :: ChangeVerified(states, actions, i, j, call, states[n].changes[call])
  {
    if n > 0 {
      var s, a, c := states[n - 1], actions[n - 1], states[n].changes[call];
      assert Step(s, a, states[n]);
      if a == ChangeRead(call, true) {
        ChangeWasStarted(states, actions, n - 1, call);
        var i :| 0 <= i < n - 1 && actions[i] == ChangeStart(call, c.token) &&
            Acts(states[i].db, c.token, states[i].clock, c.user);
        assert ChangeVerified(states, actions, i, n - 1, call, c);
      } else {
        assert call in s.changes && s.changes[call] == c;
        ChangeWasVerified(states, actions, n - 1, call);
      }
    }
  }
}
