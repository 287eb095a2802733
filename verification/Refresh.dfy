// Sessions and rotating refresh tokens (the idea of section 10.4 of RFC 6749): whole calls, and a
// refresh split into its checks and its transaction.
module Refresh {
  import opened Common

  datatype UserStatus = Active | Suspended | Deleted | Inactive

  datatype Session = Session(user: Id, expires: Option<Time>, revoked: Option<Time>)
  datatype Row = Row(session: Id, expires: Time, revoked: Option<Time>)
  datatype PasswordReset = PasswordReset(user: Id, expires: Time, used: Option<Time>)

  // Refresh and reset rows are found by the hash of their token, so that is their key.
  datatype State = State(users: map<Id, UserStatus>, sessions: map<Id, Session>, rows: map<string, Row>, resets: map<string, PasswordReset>)

  datatype AuthError = InvalidToken | SessionRevoked | TokenUsed | InvalidCredentials | AccountRefused

  const RESET_TTL: Time := 3600   // seconds

  // The token hash and the configured lifetime of sessions and refresh tokens.
  datatype Config = Config(hash: string -> string, ttl: Time)

  // ---------- conditional stamps ----------

  function RevokeRow(rows: map<string, Row>, h: string, now: Time): map<string, Row> {
    if h in rows && rows[h].revoked.None? then rows[h := rows[h].(revoked := Some(now))] else rows
  }

  function RevokeSession(sessions: map<Id, Session>, id: Id, now: Time): map<Id, Session> {
    if id in sessions && sessions[id].revoked.None? then sessions[id := sessions[id].(revoked := Some(now))] else sessions
  }

  function RevokeSessionRows(rows: map<string, Row>, session: Id, now: Time): map<string, Row> {
    map h | h in rows :: if rows[h].session == session && rows[h].revoked.None? then rows[h].(revoked := Some(now)) else rows[h]
  }

  function RevokeUserSessions(sessions: map<Id, Session>, user: Id, now: Time): map<Id, Session> {
    map id | id in sessions ::
      if sessions[id].user == user && sessions[id].revoked.None? then sessions[id].(revoked := Some(now)) else sessions[id]
  }

  function RevokeUserRows(rows: map<string, Row>, sessions: map<Id, Session>, user: Id, now: Time): map<string, Row> {
    map h | h in rows ::
      if rows[h].revoked.None? && rows[h].session in sessions && sessions[rows[h].session].user == user
      then rows[h].(revoked := Some(now)) else rows[h]
  }

  function UseResets(resets: map<string, PasswordReset>, user: Id, now: Time): map<string, PasswordReset> {
    map h | h in resets :: if resets[h].user == user && resets[h].used.None? then resets[h].(used := Some(now)) else resets[h]
  }

  // ---------- calls ----------

  // Password and verification are checked elsewhere; the account's status is checked here.
  function Login(cfg: Config, s: State, user: Id, credentialsOk: bool, session: Id, raw: string, now: Time)
    : (State, Reply<string, AuthError>)
  {
    if user !in s.users || !credentialsOk then (s, Err(InvalidCredentials))
    else if s.users[user] != Active then (s, Err(AccountRefused))
    else
      (s.(sessions := s.sessions[session := Session(user, Some(now + cfg.ttl), None)],
          rows := s.rows[cfg.hash(raw) := Row(session, now + cfg.ttl, None)]),
       Ok(raw))
  }

  // What a refresh checks before its transaction, on a row not yet revoked.
  function Checks(s: State, was: Row, now: Time): Option<AuthError> {
    if now > was.expires then Some(InvalidToken)
    else if was.session !in s.sessions then Some(InvalidToken)
    else
      var sess := s.sessions[was.session];
      if sess.revoked.Some? then Some(SessionRevoked)
      else if sess.expires.Some? && now > sess.expires.value then Some(InvalidToken)
      else if sess.user !in s.users || s.users[sess.user] != Active then Some(InvalidToken)
      else None
  }

  // The transaction: the old row's stamp is conditional, the new row's insert is not.
  function Rotate(cfg: Config, s: State, h: string, session: Id, next: string, now: Time): State {
    s.(rows := RevokeRow(s.rows, h, now)[cfg.hash(next) := Row(session, now + cfg.ttl, None)])
  }

  function RefreshCall(cfg: Config, s: State, raw: string, next: string, now: Time): (State, Reply<string, AuthError>) {
    var h := cfg.hash(raw);
    if h !in s.rows then (s, Err(InvalidToken))
    else
      var was := s.rows[h];
      if was.revoked.Some? then
        (s.(sessions := RevokeSession(s.sessions, was.session, now), rows := RevokeSessionRows(s.rows, was.session, now)),
         Err(InvalidToken))
      else if Checks(s, was, now).Some? then (s, Err(Checks(s, was, now).value))
      else (Rotate(cfg, s, h, was.session, next, now), Ok(next))
  }

  function Logout(s: State, session: Id, now: Time): State {
    s.(sessions := RevokeSession(s.sessions, session, now), rows := RevokeSessionRows(s.rows, session, now))
  }

  function ForgotPassword(cfg: Config, s: State, user: Id, raw: string, now: Time): State {
    if user !in s.users then s
    else s.(resets := UseResets(s.resets, user, now)[cfg.hash(raw) := PasswordReset(user, now + RESET_TTL, None)])
  }

  function ResetPassword(cfg: Config, s: State, raw: string, now: Time): (State, Reply<(), AuthError>) {
    var h := cfg.hash(raw);
    if h !in s.resets then (s, Err(InvalidToken))
    else
      var p := s.resets[h];
      if p.used.Some? then (s, Err(TokenUsed))
      else if now > p.expires then (s, Err(InvalidToken))
      else
        (s.(sessions := RevokeUserSessions(s.sessions, p.user, now),
            rows := RevokeUserRows(s.rows, s.sessions, p.user, now),
            resets := UseResets(s.resets[h := p.(used := Some(now))], p.user, now)),
         Ok(()))
  }

  // ---------- runs of whole calls ----------

  datatype Op =
    | OpUser(user: Id, status: UserStatus)   // registration or a status change
    | OpLogin(user: Id, credentialsOk: bool, session: Id, raw: string, now: Time)
    | OpRefresh(raw: string, next: string, now: Time)
    | OpLogout(session: Id, now: Time)
    | OpForgot(user: Id, raw: string, now: Time)
    | OpReset(raw: string, now: Time)

  // Ids and tokens a call draws are new.
  predicate Drawn(cfg: Config, s: State, op: Op) {
    && (op.OpLogin? ==> op.session !in s.sessions && cfg.hash(op.raw) !in s.rows)
    && (op.OpRefresh? ==> cfg.hash(op.next) !in s.rows)
    && (op.OpForgot? ==> cfg.hash(op.raw) !in s.resets)
  }

  function Apply(cfg: Config, s: State, op: Op): State {
    if !Drawn(cfg, s, op) then s
    else match op {
      case OpUser(user, status) => s.(users := s.users[user := status])
      case OpLogin(user, ok, session, raw, now) => Login(cfg, s, user, ok, session, raw, now).0
      case OpRefresh(raw, next, now) => RefreshCall(cfg, s, raw, next, now).0
      case OpLogout(session, now) => Logout(s, session, now)
      case OpForgot(user, raw, now) => ForgotPassword(cfg, s, user, raw, now)
      case OpReset(raw, now) => ResetPassword(cfg, s, raw, now).0
    }
  }

  const EMPTY := State(map[], map[], map[], map[])

  function Run(cfg: Config, s: State, ops: seq<Op>): State {
    if ops == [] then s else Apply(cfg, Run(cfg, s, ops[..|ops| - 1]), ops[|ops| - 1])
  }

  // ---------- families ----------

  predicate LiveRow(s: State, h: string, session: Id) {
    h in s.rows && s.rows[h].session == session && s.rows[h].revoked.None?
  }

  ghost predicate RowsHaveSessions(s: State) {
    forall h :: h in s.rows ==> s.rows[h].session in s.sessions
  }

  ghost predicate AtMostOneLive(s: State) {
    forall h, h' :: h in s.rows && LiveRow(s, h', s.rows[h].session) && s.rows[h].revoked.None? ==> h == h'
  }

  // A session is revoked exactly when it has no unrevoked row.
  ghost predicate LiveIffRow(s: State) {
    forall id :: id in s.sessions ==> (s.sessions[id].revoked.None? <==> exists h :: LiveRow(s, h, id))
  }

  // Every session has at most one unrevoked row; exactly one while it is not revoked, then none.
  ghost predicate Inv(s: State) {
    RowsHaveSessions(s) && AtMostOneLive(s) && LiveIffRow(s)
  }

  lemma LoginKeeps(cfg: Config, s: State, user: Id, ok: bool, session: Id, raw: string, now: Time)
    requires Inv(s) && session !in s.sessions && cfg.hash(raw) !in s.rows
    ensures Inv(Login(cfg, s, user, ok, session, raw, now).0)
  {
    var s' := Login(cfg, s, user, ok, session, raw, now).0;
    if s' != s {
      assert LiveRow(s', cfg.hash(raw), session);
      forall id | id in s.sessions ensures (exists h :: LiveRow(s', h, id)) <==> (exists h :: LiveRow(s, h, id)) {
        if h :| LiveRow(s, h, id) { assert LiveRow(s', h, id); }
        if h :| LiveRow(s', h, id) { assert LiveRow(s, h, id); }
      }
    }
  }

  // The exact condition: a rotation whose checks were made earlier keeps the families right if and
  // only if its old row is still unrevoked at the commit.
  lemma RotateKeepsIff(cfg: Config, s: State, h: string, session: Id, next: string, now: Time)
    requires Inv(s) && h in s.rows && s.rows[h].session == session && cfg.hash(next) !in s.rows
    ensures Inv(Rotate(cfg, s, h, session, next, now)) <==> s.rows[h].revoked.None?
  {
    var s' := Rotate(cfg, s, h, session, next, now);
    var n := cfg.hash(next);
    assert LiveRow(s', n, session);
    if s.rows[h].revoked.None? {
      assert LiveRow(s, h, session);
      forall id | id in s.sessions && id != session ensures (exists k :: LiveRow(s', k, id)) <==> (exists k :: LiveRow(s, k, id)) {
        if k :| LiveRow(s, k, id) { assert LiveRow(s', k, id); }
        if k :| LiveRow(s', k, id) { assert LiveRow(s, k, id); }
      }
    } else if s.sessions[session].revoked.None? {
      var k :| LiveRow(s, k, session);
      assert LiveRow(s', k, session) && k != n;
      assert !AtMostOneLive(s');
    } else {
      assert !LiveIffRow(s');
    }
  }

  // Revoking some sessions with all their rows.
  ghost predicate RevokesWhole(s: State, s': State, gone: iset<Id>) {
    && s'.sessions.Keys == s.sessions.Keys && s'.rows.Keys == s.rows.Keys
    && (forall id :: id in s.sessions ==>
          s'.sessions[id].user == s.sessions[id].user
          && (s'.sessions[id].revoked.None? <==> s.sessions[id].revoked.None? && id !in gone))
    && (forall h :: h in s.rows ==>
          s'.rows[h].session == s.rows[h].session
          && (s'.rows[h].revoked.None? <==> s.rows[h].revoked.None? && s.rows[h].session !in gone))
  }

  lemma RevokeKeeps(s: State, s': State, gone: iset<Id>)
    requires Inv(s) && RevokesWhole(s, s', gone)
    ensures Inv(s')
  {
    forall id | id in s'.sessions ensures s'.sessions[id].revoked.None? <==> exists h :: LiveRow(s', h, id) {
      if s'.sessions[id].revoked.None? {
        var h :| LiveRow(s, h, id);
        assert LiveRow(s', h, id);
      }
      if h :| LiveRow(s', h, id) {
        assert LiveRow(s, h, id);
      }
    }
  }

  lemma LogoutRevokes(s: State, session: Id, now: Time)
    ensures RevokesWhole(s, Logout(s, session, now), iset{session})
  {
  }

  lemma ResetRevokes(cfg: Config, s: State, raw: string, now: Time)
    requires RowsHaveSessions(s) && ResetPassword(cfg, s, raw, now).1.Ok?
    ensures RevokesWhole(s, ResetPassword(cfg, s, raw, now).0,
                         iset id | id in s.sessions && s.sessions[id].user == s.resets[cfg.hash(raw)].user)
  {
  }

  lemma RefreshKeeps(cfg: Config, s: State, raw: string, next: string, now: Time)
    requires Inv(s) && cfg.hash(next) !in s.rows
    ensures Inv(RefreshCall(cfg, s, raw, next, now).0)
  {
    var h := cfg.hash(raw);
    if h in s.rows {
      if s.rows[h].revoked.Some? {
        LogoutRevokes(s, s.rows[h].session, now);
        RevokeKeeps(s, Logout(s, s.rows[h].session, now), iset{s.rows[h].session});
      } else {
        RotateKeepsIff(cfg, s, h, s.rows[h].session, next, now);
      }
    }
  }

  lemma SameTables(s: State, s': State)
    requires Inv(s) && s'.sessions == s.sessions && s'.rows == s.rows
    ensures Inv(s')
  {
    forall id, h ensures LiveRow(s', h, id) <==> LiveRow(s, h, id) {
    }
  }

  lemma {:induction false} ApplyKeeps(cfg: Config, s: State, op: Op)
    requires Inv(s)
    ensures Inv(Apply(cfg, s, op))
  {
    if Drawn(cfg, s, op) {
      match op {
        case OpUser(_, _) => SameTables(s, Apply(cfg, s, op));
        case OpLogin(user, ok, session, raw, now) => LoginKeeps(cfg, s, user, ok, session, raw, now);
        case OpRefresh(raw, next, now) => RefreshKeeps(cfg, s, raw, next, now);
        case OpLogout(session, now) =>
          LogoutRevokes(s, session, now);
          RevokeKeeps(s, Logout(s, session, now), iset{session});
        case OpForgot(_, _, _) => SameTables(s, Apply(cfg, s, op));
        case OpReset(raw, now) =>
          if ResetPassword(cfg, s, raw, now).1.Ok? {
            ResetRevokes(cfg, s, raw, now);
            RevokeKeeps(s, ResetPassword(cfg, s, raw, now).0,
                        iset id | id in s.sessions && s.sessions[id].user == s.resets[cfg.hash(raw)].user);
          }
      }
    }
  }

  lemma {:induction false} EveryRunKeepsInv(cfg: Config, ops: seq<Op>)
    ensures Inv(Run(cfg, EMPTY, ops))
  {
    if ops != [] {
      EveryRunKeepsInv(cfg, ops[..|ops| - 1]);
      ApplyKeeps(cfg, Run(cfg, EMPTY, ops[..|ops| - 1]), ops[|ops| - 1]);
    }
  }

  // ---------- what one call means ----------

  // The row is not revoked and in time, and so is its session, of an active account.
  predicate Refreshable(cfg: Config, s: State, raw: string, now: Time) {
    var h := cfg.hash(raw);
    && h in s.rows && s.rows[h].revoked.None? && now <= s.rows[h].expires
    && s.rows[h].session in s.sessions
    && var sess := s.sessions[s.rows[h].session];
       && sess.revoked.None? && (sess.expires.Some? ==> now <= sess.expires.value)
       && sess.user in s.users && s.users[sess.user] == Active
  }

  predicate InTime(s: State, session: Id, later: Time) {
    session in s.sessions && (s.sessions[session].expires.Some? ==> later <= s.sessions[session].expires.value)
  }

  // A refresh goes through exactly when its token is refreshable. The new token then refreshes for as
  // long as the configured lifetime and the session's own, and not an instant longer.
  ghost predicate RefreshAnswers(cfg: Config, s: State, s': State, r: Reply<string, AuthError>, raw: string, next: string, now: Time) {
    var h := cfg.hash(raw);
    && (r.Ok? <==> Refreshable(cfg, s, raw, now))
    && (r.Ok? ==> r.value == next)
    && (r == Err(SessionRevoked) <==>
          && h in s.rows && s.rows[h].revoked.None? && now <= s.rows[h].expires && s.rows[h].session in s.sessions
          && s.sessions[s.rows[h].session].revoked.Some?)
    && (r.Err? ==> r.error in {SessionRevoked, InvalidToken})
    && (r.Err? && !(h in s.rows && s.rows[h].revoked.Some?) ==> s' == s)
    && (r.Ok? && cfg.hash(next) !in s.rows ==>
          && s'.sessions == s.sessions && s'.users == s.users && s'.resets == s.resets
          && s'.rows.Keys == s.rows.Keys + {cfg.hash(next)}
          && (forall k :: k in s.rows && k != h ==> s'.rows[k] == s.rows[k])
          && s'.rows[h] == s.rows[h].(revoked := Some(now))
          && forall later: Time, more: string ::
               if later <= now + cfg.ttl && InTime(s, s.rows[h].session, later)
               then RefreshCall(cfg, s', next, more, later).1 == Ok(more)
               else RefreshCall(cfg, s', next, more, later) == (s', Err(InvalidToken)))
  }

  lemma RefreshMeans(cfg: Config, s: State, raw: string, next: string, now: Time)
    ensures var (s', r) := RefreshCall(cfg, s, raw, next, now);
            RefreshAnswers(cfg, s, s', r, raw, next, now)
  {
  }

  // A reset goes through exactly while its token is open and in time, and uses up the user's others too.
  ghost predicate ResetAnswers(cfg: Config, s: State, s': State, r: Reply<(), AuthError>, raw: string, now: Time) {
    var h := cfg.hash(raw);
    && (r.Ok? <==> h in s.resets && s.resets[h].used.None? && now <= s.resets[h].expires)
    && (r == Err(TokenUsed) <==> h in s.resets && s.resets[h].used.Some?)
    && (r.Err? ==> s' == s && r.error in {TokenUsed, InvalidToken})
    && (r.Ok? ==>
          && s'.resets.Keys == s.resets.Keys
          && forall k :: k in s.resets ==>
               s'.resets[k] == if s.resets[k].user == s.resets[h].user && s.resets[k].used.None?
                               then s.resets[k].(used := Some(now)) else s.resets[k])
  }

  lemma ResetMeans(cfg: Config, s: State, raw: string, now: Time)
    ensures var (s', r) := ResetPassword(cfg, s, raw, now); ResetAnswers(cfg, s, s', r, raw, now)
  {
    hide RevokeUserSessions, RevokeUserRows;
  }

  // ---------- password resets ----------

  // A user has at most one reset token not used up.
  ghost predicate OneReset(s: State) {
    forall h, k :: h in s.resets && k in s.resets && s.resets[h].used.None? && s.resets[k].used.None?
                   && s.resets[h].user == s.resets[k].user ==>
      h == k
  }

  lemma {:induction false} EveryRunOneReset(cfg: Config, ops: seq<Op>)
    ensures OneReset(Run(cfg, EMPTY, ops))
  {
    if ops != [] {
      EveryRunOneReset(cfg, ops[..|ops| - 1]);
      ResetsKept(cfg, Run(cfg, EMPTY, ops[..|ops| - 1]), ops[|ops| - 1]);
    }
  }

  lemma ResetsKept(cfg: Config, s: State, op: Op)
    requires OneReset(s)
    ensures OneReset(Apply(cfg, s, op))
  {
  }

  predicate UsedUp(s: State, h: string) {
    h in s.resets && s.resets[h].used.Some?
  }

  lemma ResetStaysUsed(cfg: Config, s: State, op: Op, h: string)
    requires UsedUp(s, h)
    ensures UsedUp(Apply(cfg, s, op), h)
  {
  }

  // A reset token works once: whatever happens later, presenting it again is refused as used, and so
  // is every other token its user held.
  lemma {:induction false} ResetOnce(cfg: Config, s: State, raw: string, now: Time, later: seq<Op>, other: string, at: Time)
    requires ResetPassword(cfg, s, raw, now).1.Ok?
    requires cfg.hash(other) in s.resets && s.resets[cfg.hash(other)].user == s.resets[cfg.hash(raw)].user
    ensures var s' := Run(cfg, ResetPassword(cfg, s, raw, now).0, later);
            UsedUp(s', cfg.hash(other)) && ResetPassword(cfg, s', other, at) == (s', Err(TokenUsed))
  {
    var s1 := ResetPassword(cfg, s, raw, now).0;
    assert UsedUp(s1, cfg.hash(other));
    if later != [] {
      ResetOnce(cfg, s, raw, now, later[..|later| - 1], other, at);
      ResetStaysUsed(cfg, Run(cfg, s1, later[..|later| - 1]), later[|later| - 1], cfg.hash(other));
    }
  }

  // ---------- one success per token ----------

  predicate Succeeds(cfg: Config, s: State, op: Op, h: string) {
    op.OpRefresh? && cfg.hash(op.raw) == h && Drawn(cfg, s, op) && RefreshCall(cfg, s, op.raw, op.next, op.now).1.Ok?
  }

  function Successes(cfg: Config, ops: seq<Op>, h: string): nat {
    if ops == [] then 0
    else
      var n := |ops| - 1;
      Successes(cfg, ops[..n], h) + if Succeeds(cfg, Run(cfg, EMPTY, ops[..n]), ops[n], h) then 1 else 0
  }

  // A row stays, in its session, and once revoked stays revoked.
  lemma RowsStay(cfg: Config, s: State, op: Op, h: string)
    requires h in s.rows
    ensures var s' := Apply(cfg, s, op);
            h in s'.rows && s'.rows[h].session == s.rows[h].session && (s.rows[h].revoked.Some? ==> s'.rows[h].revoked.Some?)
  {
  }

  lemma {:induction false} AtMostOneSuccess(cfg: Config, ops: seq<Op>, h: string)
    ensures Successes(cfg, ops, h) <= 1
    ensures Successes(cfg, ops, h) == 1 ==>
              h in Run(cfg, EMPTY, ops).rows && Run(cfg, EMPTY, ops).rows[h].revoked.Some?
  {
    if ops != [] {
      var n := |ops| - 1;
      AtMostOneSuccess(cfg, ops[..n], h);
      var s := Run(cfg, EMPTY, ops[..n]);
      if h in s.rows {
        RowsStay(cfg, s, ops[n], h);
      }
    }
  }

  // ---------- dead sessions ----------

  ghost predicate Dead(s: State, session: Id) {
    session in s.sessions && s.sessions[session].revoked.Some? && forall h :: !LiveRow(s, h, session)
  }

  lemma ApplyDead(cfg: Config, s: State, op: Op, session: Id)
    requires Dead(s, session)
    ensures Dead(Apply(cfg, s, op), session)
  {
    var s' := Apply(cfg, s, op);
    forall h ensures !LiveRow(s', h, session) {
      assert !LiveRow(s, h, session);
      if op.OpRefresh? && cfg.hash(op.raw) in s.rows {
        assert !LiveRow(s, cfg.hash(op.raw), session);
      }
    }
  }

  // Nothing that happens later brings a dead session back, and no refresh on it ever succeeds.
  lemma {:induction false} DeadForever(cfg: Config, s: State, ops: seq<Op>, session: Id, raw: string, next: string, now: Time)
    requires Dead(s, session)
    ensures Dead(Run(cfg, s, ops), session)
    ensures var s' := Run(cfg, s, ops);
            cfg.hash(raw) in s'.rows && s'.rows[cfg.hash(raw)].session == session ==>
              RefreshCall(cfg, s', raw, next, now).1.Err?
  {
    if ops != [] {
      DeadForever(cfg, s, ops[..|ops| - 1], session, raw, next, now);
      ApplyDead(cfg, Run(cfg, s, ops[..|ops| - 1]), ops[|ops| - 1], session);
    }
    assert !LiveRow(Run(cfg, s, ops), cfg.hash(raw), session);
  }

  // What kills: presenting a token already rotated (or otherwise revoked), logging out, resetting
  // the password.
  lemma KillsSession(cfg: Config, s: State, op: Op, session: Id)
    requires Inv(s) && session in s.sessions && Drawn(cfg, s, op)
    requires || (op.OpRefresh? && cfg.hash(op.raw) in s.rows && s.rows[cfg.hash(op.raw)].session == session
                 && s.rows[cfg.hash(op.raw)].revoked.Some?)
             || (op.OpLogout? && op.session == session)
             || (op.OpReset? && ResetPassword(cfg, s, op.raw, op.now).1.Ok?
                 && s.resets[cfg.hash(op.raw)].user == s.sessions[session].user)
    ensures Dead(Apply(cfg, s, op), session)
  {
    var s' := Apply(cfg, s, op);
    if op.OpReset? {
      ResetRevokes(cfg, s, op.raw, op.now);
    } else {
      LogoutRevokes(s, session, op.now);
    }
    forall h ensures !LiveRow(s', h, session) {
    }
  }

  // A rotated token, presented at any later time, ends the session for good.
  lemma ReuseKills(cfg: Config, ops: seq<Op>, later: seq<Op>, raw: string, next: string, now: Time)
    requires Successes(cfg, ops, cfg.hash(raw)) == 1
    requires cfg.hash(next) !in Run(cfg, EMPTY, ops).rows
    ensures var s := Run(cfg, EMPTY, ops);
            && cfg.hash(raw) in s.rows
            && var session := s.rows[cfg.hash(raw)].session;
            Dead(Run(cfg, Apply(cfg, s, OpRefresh(raw, next, now)), later), session)
  {
    var s := Run(cfg, EMPTY, ops);
    AtMostOneSuccess(cfg, ops, cfg.hash(raw));
    EveryRunKeepsInv(cfg, ops);
    var session := s.rows[cfg.hash(raw)].session;
    KillsSession(cfg, s, OpRefresh(raw, next, now), session);
    DeadForever(cfg, Apply(cfg, s, OpRefresh(raw, next, now)), later, session, raw, next, now);
  }
}
