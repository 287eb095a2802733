// The auth service: rows updated in place, each call proved to do what Refresh and Otp say.
module AuthService {
  import opened Common
  import opened Refresh
  import Otp

  // A sign-in's token refreshes for exactly as long as the configured lifetime, while nothing happens to it.
  lemma LoginMeans(cfg: Config, s: State, user: Id, ok: bool, session: Id, raw: string, now: Time)
    ensures var (s', r) := Login(cfg, s, user, ok, session, raw, now);
            && (r.Ok? ==>
                  forall next: string, later: Time ::
                    if later <= now + cfg.ttl then RefreshCall(cfg, s', raw, next, later).1 == Ok(next)
                    else RefreshCall(cfg, s', raw, next, later) == (s', Err(InvalidToken)))
            && (r.Ok? <==> user in s.users && ok && s.users[user] == Active)
            && (r == Err(AccountRefused) <==> user in s.users && ok && s.users[user] != Active)
            && (r.Err? ==> s' == s && r.error in {AccountRefused, InvalidCredentials})
            && (Inv(s) && session !in s.sessions && cfg.hash(raw) !in s.rows ==> Inv(s'))
  {
    if Inv(s) && session !in s.sessions && cfg.hash(raw) !in s.rows {
      LoginKeeps(cfg, s, user, ok, session, raw, now);
    }
  }

  class AuthDesk {
    var users: map<Id, UserStatus>
    var sessions: map<Id, Session>
    var rows: map<string, Row>
    var resets: map<string, PasswordReset>
    const cfg: Config

    function View(): State
      reads this
    {
      State(users, sessions, rows, resets)
    }

    constructor (cfg: Config)
      ensures View() == EMPTY && this.cfg == cfg
    {
      this.cfg := cfg;
      users, sessions, rows, resets := map[], map[], map[], map[];
    }

    method SignIn(user: Id, credentialsOk: bool, session: Id, raw: string, now: Time) returns (r: Reply<string, AuthError>)
      modifies this`sessions, this`rows
      ensures (View(), r) == Login(cfg, old(View()), user, credentialsOk, session, raw, now)
      ensures r.Ok? ==>
                forall next: string, later: Time ::
                  if later <= now + cfg.ttl then RefreshCall(cfg, View(), raw, next, later).1 == Ok(next)
                  else RefreshCall(cfg, View(), raw, next, later) == (View(), Err(InvalidToken))
      ensures r.Ok? <==> user in users && credentialsOk && users[user] == Active
      ensures r == Err(AccountRefused) <==> user in users && credentialsOk && users[user] != Active
      ensures r.Ok? ==> session in sessions && sessions[session] == Session(user, Some(now + cfg.ttl), None) && r.value == raw
      ensures r.Err? ==> View() == old(View())
      ensures Inv(old(View())) && session !in old(sessions) && cfg.hash(raw) !in old(rows) ==> Inv(View())
    {
      LoginMeans(cfg, View(), user, credentialsOk, session, raw, now);
      if user !in users || !credentialsOk { return Err(InvalidCredentials); }
      if users[user] != Active { return Err(AccountRefused); }
      sessions := sessions[session := Session(user, Some(now + cfg.ttl), None)];
      rows := rows[cfg.hash(raw) := Row(session, now + cfg.ttl, None)];
      r := Ok(raw);
    }

    // A refused token that was already revoked takes its whole session down.
    method RefreshToken(raw: string, next: string, now: Time) returns (r: Reply<string, AuthError>)
      modifies this`sessions, this`rows
      ensures (View(), r) == RefreshCall(cfg, old(View()), raw, next, now)
      ensures Inv(old(View())) && cfg.hash(next) !in old(rows) ==> Inv(View())
      ensures RefreshAnswers(cfg, old(View()), View(), r, raw, next, now)
    {
      RefreshMeans(cfg, View(), raw, next, now);
      hide RefreshAnswers;
      ghost var before := View();
      ghost var fits := Inv(before) && cfg.hash(next) !in rows;
      if fits {
        RefreshKeeps(cfg, before, raw, next, now);
      }
      var h := cfg.hash(raw);
      if h !in rows { return Err(InvalidToken); }
      var was := rows[h];
      if was.revoked.Some? {
        StampSession(was.session, now);
        StampSessionRows(was.session, now);
        return Err(InvalidToken);
      }
      if now > was.expires { return Err(InvalidToken); }
      if was.session !in sessions { return Err(InvalidToken); }
      var sess := sessions[was.session];
      if sess.revoked.Some? { return Err(SessionRevoked); }
      if sess.expires.Some? && now > sess.expires.value { return Err(InvalidToken); }
      if sess.user !in users || users[sess.user] != Active { return Err(InvalidToken); }
      if rows[h].revoked.None? {
        rows := rows[h := rows[h].(revoked := Some(now))];
      }
      rows := rows[cfg.hash(next) := Row(was.session, now + cfg.ttl, None)];
      r := Ok(next);
    }

    method StampSession(id: Id, now: Time)
      modifies this`sessions
      ensures sessions == RevokeSession(old(sessions), id, now)
    {
      if id in sessions && sessions[id].revoked.None? {
        sessions := sessions[id := sessions[id].(revoked := Some(now))];
      }
    }

    method StampSessionRows(session: Id, now: Time)
      modifies this`rows
      ensures rows == RevokeSessionRows(old(rows), session, now)
    {
      rows := map h | h in rows ::
        if rows[h].session == session && rows[h].revoked.None? then rows[h].(revoked := Some(now)) else rows[h];
    }

    method SignOut(session: Id, now: Time)
      modifies this`sessions, this`rows
      ensures View() == Logout(old(View()), session, now)
      ensures Inv(old(View())) && session in old(sessions) ==> Inv(View()) && Dead(View(), session)
    {
      ghost var before := View();
      StampSession(session, now);
      StampSessionRows(session, now);
      LogoutRevokes(before, session, now);
      if Inv(before) && session in sessions {
        RevokeKeeps(before, View(), iset{session});
        KillsSession(cfg, before, OpLogout(session, now), session);
      }
    }

    method Forgot(user: Id, raw: string, now: Time)
      modifies this`resets
      ensures View() == ForgotPassword(cfg, old(View()), user, raw, now)
      ensures user in users ==> forall later :: ResetPassword(cfg, View(), raw, later).1.Ok? <==> later <= now + 3600
      ensures user in users ==>
                forall other :: other in old(resets) && old(resets)[other].user == user && other != cfg.hash(raw) ==> UsedUp(View(), other)
      ensures user !in users ==> View() == old(View())
      ensures OneReset(old(View())) && cfg.hash(raw) !in old(resets) ==> OneReset(View())
    {
      ghost var before := View();
      if OneReset(before) && cfg.hash(raw) !in resets {
        ResetsKept(cfg, before, OpForgot(user, raw, now));
      }
      if user !in users { return; }
      resets := UseResets(resets, user, now);
      resets := resets[cfg.hash(raw) := PasswordReset(user, now + RESET_TTL, None)];
    }

    method Reset(raw: string, now: Time) returns (r: Reply<(), AuthError>)
      modifies this`sessions, this`rows, this`resets
      ensures (View(), r) == ResetPassword(cfg, old(View()), raw, now)
      ensures r.Ok? && Inv(old(View())) ==>
                forall id :: id in old(sessions) && old(sessions)[id].user == old(resets)[cfg.hash(raw)].user ==> Dead(View(), id)
    {
      ghost var before := View();
      var h := cfg.hash(raw);
      if h !in resets { return Err(InvalidToken); }
      var p := resets[h];
      if p.used.Some? { return Err(TokenUsed); }
      if now > p.expires { return Err(InvalidToken); }
      resets := resets[h := p.(used := Some(now))];
      resets := UseResets(resets, p.user, now);
      // the sessions are stamped first, but whose they are does not change
      ghost var owned := sessions;
      sessions := RevokeUserSessions(sessions, p.user, now);
      rows := map h | h in rows ::
        if rows[h].revoked.None? && rows[h].session in sessions && sessions[rows[h].session].user == p.user
        then rows[h].(revoked := Some(now)) else rows[h];
      assert rows == RevokeUserRows(before.rows, owned, p.user, now);
      if Inv(before) {
        forall id | id in before.sessions && before.sessions[id].user == p.user
          ensures Dead(ResetPassword(cfg, before, raw, now).0, id)
        {
          KillsSession(cfg, before, OpReset(raw, now), id);
        }
      }
      r := Ok(());
    }
  }

  // ---------- email codes ----------

  class Verifier {
    var accounts: map<Id, Otp.Account>
    ghost var events: map<Id, seq<Otp.Event>>   // what happened to each account, in order

    ghost predicate Valid()
      reads this
    {
      && accounts.Keys == events.Keys
      && forall user :: user in accounts ==> Some(accounts[user]) == Otp.History(events[user])
    }

    ghost function Before(user: Id): seq<Otp.Event>
      reads this
    {
      if user in events then events[user] else []
    }

    constructor ()
      ensures Valid() && accounts == map[]
    {
      accounts, events := map[], map[];
    }

    method Register(user: Id, code: string, link: string, now: Time) returns (r: Reply<(), Otp.OtpError>)
      requires Valid()
      modifies this
      ensures Valid()
      ensures r.Ok? <==> user !in old(accounts)
      ensures events == if r.Ok? then old(events)[user := [Otp.Register(code, link, now)]] else old(events)
    {
      if user in accounts { return Err(Otp.UserExists); }
      accounts := accounts[user := Otp.Account(false, [Otp.NewCode(code, now)], [Otp.NewLink(link, now)])];
      events := events[user := [Otp.Register(code, link, now)]];
      assert events[user][..0] == [];
      r := Ok(());
    }

    // One more event of a known account, with what it made of the account.
    method Record(user: Id, a: Otp.Account, e: Otp.Event)
      requires Valid() && user in accounts && Otp.Step(Some(accounts[user]), e).0 == Some(a)
      modifies this
      ensures Valid() && accounts == old(accounts)[user := a]
      ensures events == old(events)[user := old(Before(user)) + [e]]
    {
      assert (events[user] + [e])[..|events[user]|] == events[user];
      accounts := accounts[user := a];
      events := events[user := events[user] + [e]];
    }

    method VerifyByCode(user: Id, guess: string, now: Time) returns (r: Reply<(), Otp.OtpError>)
      requires Valid()
      modifies this
      ensures Valid()
      ensures events == if user in old(accounts) then old(events)[user := old(Before(user)) + [Otp.Guess(guess, now)]] else old(events)
      ensures r == if user in old(accounts) then Otp.Guessed(old(accounts)[user], guess, now).1 else Err(Otp.InvalidToken)
    {
      if user !in accounts { return Err(Otp.InvalidToken); }
      var a, outcome := TryCode(accounts[user], guess, now);
      Record(user, a, Otp.Guess(guess, now));
      r := outcome;
    }

    // A guess against the account's pending code.
    method TryCode(before: Otp.Account, guess: string, now: Time) returns (a: Otp.Account, r: Reply<(), Otp.OtpError>)
      ensures (a, r) == Otp.Guessed(before, guess, now)
      ensures |a.codes| == |before.codes|
      ensures forall i :: 0 <= i < |a.codes| && before.codes[i].attempts <= Otp.MAX_ATTEMPTS ==> a.codes[i].attempts <= Otp.MAX_ATTEMPTS
      ensures forall i :: 0 <= i < |a.codes| ==>
                && before.codes[i].attempts <= a.codes[i].attempts <= before.codes[i].attempts + 1
                && (before.codes[i].consumed.Some? ==> a.codes[i] == before.codes[i])
                && (a.codes[i].attempts > before.codes[i].attempts <==>
                      Otp.WrongGuess(Some(before), Otp.Guess(guess, now)) && Some(i) == Otp.LatestPending(before.codes))
      ensures before.verified ==> a == before
      ensures a.verified <==> r.Ok?
    {
      a := before;
      if a.verified { return a, Ok(()); }
      var pending := Otp.LatestPending(a.codes);
      if pending.None? { return a, Err(Otp.InvalidToken); }
      var i, c := pending.value, a.codes[pending.value];
      if now > c.expires || c.attempts >= Otp.MAX_ATTEMPTS { return a, Err(Otp.InvalidToken); }
      if guess != c.hash {
        a := a.(codes := a.codes[i := c.(attempts := c.attempts + 1)]);
        if c.attempts + 1 >= Otp.MAX_ATTEMPTS { return a, Err(Otp.AttemptsExceeded); }
        return a, Err(Otp.InvalidToken);
      }
      a := Otp.Account(true, a.codes[i := c.(consumed := Some(now))], Otp.VerifyAll(a.links, now));
      r := Ok(());
    }

    method VerifyEmail(user: Id, token: string, now: Time) returns (r: Reply<(), Otp.OtpError>)
      requires Valid()
      modifies this
      ensures Valid()
      ensures events == if user in old(accounts) then old(events)[user := old(Before(user)) + [Otp.FollowLink(token, now)]] else old(events)
      ensures r == if user in old(accounts) then Otp.Followed(old(accounts)[user], token, now).1 else Err(Otp.InvalidToken)
    {
      if user !in accounts { return Err(Otp.InvalidToken); }
      var a, outcome := TryLink(accounts[user], token, now);
      Record(user, a, Otp.FollowLink(token, now));
      r := outcome;
    }

    method TryLink(before: Otp.Account, token: string, now: Time) returns (a: Otp.Account, r: Reply<(), Otp.OtpError>)
      ensures (a, r) == Otp.Followed(before, token, now)
      ensures r.Ok? <==>
                var found := Otp.FindLink(before.links, token);
                found.Some? && before.links[found.value].verified.None? && now <= before.links[found.value].expires
      ensures r == Err(Otp.TokenUsed) <==>
                Otp.FindLink(before.links, token).Some? && before.links[Otp.FindLink(before.links, token).value].verified.Some?
      ensures r.Err? ==> a == before
      ensures r.Ok? ==>
                var i := Otp.FindLink(before.links, token).value;
                && a.verified && a.codes == before.codes && |a.links| == |before.links| && a.links[i].verified == Some(now)
                && forall j :: 0 <= j < |a.links| && j != i ==> a.links[j] == before.links[j]
    {
      a := before;
      var found := Otp.FindLink(a.links, token);
      if found.None? { return a, Err(Otp.InvalidToken); }
      var v := a.links[found.value];
      if v.verified.Some? { return a, Err(Otp.TokenUsed); }
      if now > v.expires { return a, Err(Otp.InvalidToken); }
      a := a.(verified := true, links := a.links[found.value := v.(verified := Some(now))]);
      r := Ok(());
    }

    method ResendVerification(user: Id, code: string, link: string, now: Time) returns (r: Reply<(), Otp.OtpError>)
      requires Valid()
      modifies this
      ensures Valid()
      ensures events == if user in old(accounts) then old(events)[user := old(Before(user)) + [Otp.Resend(code, link, now)]] else old(events)
      ensures r == if user in old(accounts) then Otp.Resent(old(accounts)[user], code, link, now).1 else Ok(())
    {
      if user !in accounts { return Ok(()); }
      var a, outcome := Reissue(accounts[user], code, link, now);
      Record(user, a, Otp.Resend(code, link, now));
      r := outcome;
    }

    method Reissue(before: Otp.Account, code: string, link: string, now: Time) returns (a: Otp.Account, r: Reply<(), Otp.OtpError>)
      ensures (a, r) == Otp.Resent(before, code, link, now)
      ensures r == Err(Otp.TooManyRequests) <==>
                !before.verified && before.links != [] && now - before.links[|before.links| - 1].created < 60000000000
      ensures r.Ok? || r == Err(Otp.TooManyRequests)
      ensures r.Err? || before.verified ==> a == before
      ensures r.Ok? && !before.verified ==>
                && !a.verified && |a.codes| == |before.codes| + 1 && |a.links| == |before.links| + 1
                && (forall i :: 0 <= i < |before.codes| ==> a.codes[i].consumed.Some? && a.codes[i].hash == before.codes[i].hash)
                && (forall i :: 0 <= i < |before.links| ==> a.links[i].verified.Some? && a.links[i].hash == before.links[i].hash)
                && a.codes[|before.codes|] == Otp.Code(code, now + 600000000000, 0, None, now)
                && a.links[|before.links|] == Otp.Link(link, now + 86400000000000, None, now)
    {
      a := before;
      if a.verified { return a, Ok(()); }
      if a.links != [] && now - a.links[|a.links| - 1].created < Otp.THROTTLE { return a, Err(Otp.TooManyRequests); }
      var codes := Otp.ConsumeAll(a.codes, now) + [Otp.NewCode(code, now)];
      var links := Otp.VerifyAll(a.links, now) + [Otp.NewLink(link, now)];
      a := a.(codes := codes, links := links);
      r := Ok(());
    }
  }
}
