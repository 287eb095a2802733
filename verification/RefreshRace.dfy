// A refresh checks its row before its transaction starts, and one that finds a token already revoked ends
// the session in two statements of their own. What can happen in between.
module RefreshRace {
  import opened Common
  import opened Refresh

  // A refresh between its checks and its transaction; one that has revoked the session and not yet its rows.
  datatype Call =
    | Rotating(row: string, session: Id, now: Time)
    | Ending(session: Id)

  datatype Racing = Racing(db: State, calls: map<Id, Call>)

  // Refreshes are always in two steps; Whole is any other call.
  datatype Step =
    | Whole(op: Op)
    | Begin(call: Id, raw: string, now: Time)
    | Finish(call: Id, next: string)
    | Reuse(call: Id, raw: string, now: Time)   // the session's statement
    | Sweep(call: Id, now: Time)                // its rows' statement

  function Next(cfg: Config, r: Racing, step: Step): Racing {
    match step {
      case Whole(op) => if op.OpRefresh? then r else r.(db := Apply(cfg, r.db, op))
      case Begin(call, raw, now) =>
        var h := cfg.hash(raw);
        if call !in r.calls && h in r.db.rows && r.db.rows[h].revoked.None? && Checks(r.db, r.db.rows[h], now).None?
        then r.(calls := r.calls[call := Rotating(h, r.db.rows[h].session, now)])
        else r
      case Finish(call, next) =>
        if call in r.calls && r.calls[call].Rotating? && cfg.hash(next) !in r.db.rows then
          var c := r.calls[call];
          Racing(Rotate(cfg, r.db, c.row, c.session, next, c.now), r.calls - {call})
        else r
      case Reuse(call, raw, now) =>
        var h := cfg.hash(raw);
        if call !in r.calls && h in r.db.rows && r.db.rows[h].revoked.Some? then
          var id := r.db.rows[h].session;
          Racing(r.db.(sessions := RevokeSession(r.db.sessions, id, now)), r.calls[call := Ending(id)])
        else r
      case Sweep(call, now) =>
        if call in r.calls && r.calls[call].Ending? then
          Racing(r.db.(rows := RevokeSessionRows(r.db.rows, r.calls[call].session, now)), r.calls - {call})
        else r
    }
  }

  // A refresh's two steps in a row are the whole call.
  lemma WholeIsBoth(cfg: Config, s: State, raw: string, next: string, now: Time)
    requires cfg.hash(raw) in s.rows && cfg.hash(next) !in s.rows
    ensures var r := Racing(s, map[]);
            Next(cfg, Next(cfg, r, Begin(1, raw, now)), Finish(1, next)).db
              == (if s.rows[cfg.hash(raw)].revoked.None? then RefreshCall(cfg, s, raw, next, now).0 else s)
    ensures s.rows[cfg.hash(raw)].revoked.Some? ==>
              Next(cfg, Next(cfg, Racing(s, map[]), Reuse(1, raw, now)), Sweep(1, now)).db == RefreshCall(cfg, s, raw, next, now).0
  {
  }

  function Race(cfg: Config, steps: seq<Step>): Racing {
    if steps == [] then Racing(EMPTY, map[])
    else Next(cfg, Race(cfg, steps[..|steps| - 1]), steps[|steps| - 1])
  }

  // ---------- the invariant while sessions are being ended ----------

  predicate IsEnding(r: Racing, id: Id) {
    exists call :: call in r.calls && r.calls[call] == Ending(id)
  }

  ghost predicate HasLive(s: State, id: Id) {
    exists h :: LiveRow(s, h, id)
  }

  // A session that is not revoked has an unrevoked row; a revoked one has none, unless its rows'
  // statement is still to come.
  ghost predicate Settled(r: Racing, id: Id)
    requires id in r.db.sessions
  {
    && (r.db.sessions[id].revoked.None? ==> HasLive(r.db, id) && !IsEnding(r, id))
    && (r.db.sessions[id].revoked.Some? && !IsEnding(r, id) ==> !HasLive(r.db, id))
  }

  ghost predicate Families(r: Racing) {
    && RowsHaveSessions(r.db) && AtMostOneLive(r.db)
    && forall id :: id in r.db.sessions ==> Settled(r, id)
  }

  // With no session being ended it is the invariant of whole calls.
  lemma FamiliesIsInv(r: Racing)
    requires forall call :: call in r.calls ==> !r.calls[call].Ending?
    ensures Families(r) <==> Inv(r.db)
  {
    assert forall id :: !IsEnding(r, id);
    if Families(r) {
      forall id | id in r.db.sessions ensures r.db.sessions[id].revoked.None? <==> exists h :: LiveRow(r.db, h, id) {
        assert Settled(r, id);
      }
    }
  }

  predicate GoodCall(s: State, c: Call) {
    match c
    case Rotating(row, session, _) => row in s.rows && s.rows[row].session == session && session in s.sessions
    case Ending(session) => session in s.sessions
  }

  ghost predicate GoodCalls(r: Racing) {
    forall call :: call in r.calls ==> GoodCall(r.db, r.calls[call])
  }

  // The transaction finds its row still unrevoked, or a session that is being ended and has no
  // unrevoked row.
  ghost predicate Harmless(cfg: Config, r: Racing, step: Step) {
    step.Finish? && step.call in r.calls && r.calls[step.call].Rotating? && cfg.hash(step.next) !in r.db.rows
      && r.calls[step.call].row in r.db.rows ==>
      var c := r.calls[step.call];
      r.db.rows[c.row].revoked.None? || (IsEnding(r, c.session) && !HasLive(r.db, c.session))
  }

  // ---------- what each step does to it ----------

  lemma TwoLive(s: State, id: Id, h: string, k: string)
    requires AtMostOneLive(s) && LiveRow(s, h, id) && LiveRow(s, k, id)
    ensures h == k
  {
    assert LiveRow(s, k, s.rows[h].session);
  }

  lemma NoMoreLive(s: State, s': State)
    requires AtMostOneLive(s) && forall h, id :: LiveRow(s', h, id) ==> LiveRow(s, h, id)
    ensures AtMostOneLive(s')
  {
    forall h, k | h in s'.rows && LiveRow(s', k, s'.rows[h].session) && s'.rows[h].revoked.None? ensures h == k {
      var id := s'.rows[h].session;
      assert LiveRow(s', h, id);
      TwoLive(s, id, h, k);
    }
  }

  // One row more, alone in its session.
  lemma OneLiveMore(s: State, s': State, n: string, session: Id)
    requires AtMostOneLive(s) && forall h, id :: LiveRow(s', h, id) ==> (h == n && id == session) || (LiveRow(s, h, id) && id != session)
    ensures AtMostOneLive(s')
  {
    forall h, k | h in s'.rows && LiveRow(s', k, s'.rows[h].session) && s'.rows[h].revoked.None? ensures h == k {
      var id := s'.rows[h].session;
      assert LiveRow(s', h, id);
      if id != session {
        TwoLive(s, id, h, k);
      }
    }
  }

  // Other calls do not disturb it.
  lemma SameEnding(r: Racing, r': Racing, id: Id)
    requires forall call :: call in r.calls && r.calls[call].Ending? ==> call in r'.calls && r'.calls[call] == r.calls[call]
    requires forall call :: call in r'.calls && r'.calls[call].Ending? ==> call in r.calls && r.calls[call] == r'.calls[call]
    ensures IsEnding(r', id) <==> IsEnding(r, id)
  {
  }

  lemma SameLive(s: State, s': State, id: Id)
    requires forall h :: LiveRow(s', h, id) <==> LiveRow(s, h, id)
    ensures HasLive(s', id) <==> HasLive(s, id)
  {
    if h :| LiveRow(s, h, id) { assert LiveRow(s', h, id); }
    if h :| LiveRow(s', h, id) { assert LiveRow(s, h, id); }
  }

  lemma LoginFamilies(cfg: Config, r: Racing, op: Op)
    requires Families(r) && GoodCalls(r) && op.OpLogin? && Drawn(cfg, r.db, op)
    ensures Families(r.(db := Apply(cfg, r.db, op)))
  {
    var r' := r.(db := Apply(cfg, r.db, op));
    if r'.db != r.db {
      assert LiveRow(r'.db, cfg.hash(op.raw), op.session);
      OneLiveMore(r.db, r'.db, cfg.hash(op.raw), op.session);
      forall id | id in r'.db.sessions ensures Settled(r', id) {
        SameEnding(r, r', id);
        if id == op.session {
          assert !IsEnding(r, id);
        } else {
          assert Settled(r, id);
          SameLive(r.db, r'.db, id);
        }
      }
    }
  }

  lemma RevokeFamilies(r: Racing, s': State, gone: iset<Id>)
    requires Families(r) && RevokesWhole(r.db, s', gone)
    ensures Families(r.(db := s'))
  {
    var r' := r.(db := s');
    NoMoreLive(r.db, s');
    forall id | id in s'.sessions ensures Settled(r', id) {
      SameEnding(r, r', id);
      assert Settled(r, id);
      if id in gone {
        assert forall h :: !LiveRow(s', h, id);
      } else {
        SameLive(r.db, s', id);
      }
    }
  }

  lemma WholeFamilies(cfg: Config, r: Racing, op: Op)
    requires Families(r) && GoodCalls(r) && !op.OpRefresh?
    ensures Families(r.(db := Apply(cfg, r.db, op)))
  {
    hide Families;
    var r' := r.(db := Apply(cfg, r.db, op));
    if Drawn(cfg, r.db, op) {
      match op {
        case OpLogin(_, _, _, _, _) => LoginFamilies(cfg, r, op);
        case OpLogout(session, now) =>
          LogoutRevokes(r.db, session, now);
          RevokeFamilies(r, r'.db, iset{session});
        case OpReset(raw, now) =>
          if ResetPassword(cfg, r.db, raw, now).1.Ok? {
            assert RowsHaveSessions(r.db) by {
              RowsOfFamilies(r);
            }
            ResetRevokes(cfg, r.db, raw, now);
            RevokeFamilies(r, r'.db, iset id | id in r.db.sessions && r.db.sessions[id].user == r.db.resets[cfg.hash(raw)].user);
          }
        case _ => SameFamilies(r, r');
      }
    }
  }

  lemma RowsOfFamilies(r: Racing)
    requires Families(r)
    ensures RowsHaveSessions(r.db)
  {
  }

  lemma SameFamilies(r: Racing, r': Racing)
    requires Families(r) && r'.db.sessions == r.db.sessions && r'.db.rows == r.db.rows
    requires forall call :: call in r.calls && r.calls[call].Ending? ==> call in r'.calls && r'.calls[call] == r.calls[call]
    requires forall call :: call in r'.calls && r'.calls[call].Ending? ==> call in r.calls && r.calls[call] == r'.calls[call]
    ensures Families(r')
  {
    NoMoreLive(r.db, r'.db);
    forall id | id in r'.db.sessions ensures Settled(r', id) {
      assert Settled(r, id);
      SameEnding(r, r', id);
      SameLive(r.db, r'.db, id);
    }
  }

  lemma ReuseFamilies(cfg: Config, r: Racing, step: Step)
    requires Families(r) && step.Reuse? && Next(cfg, r, step) != r
    ensures Families(Next(cfg, r, step))
  {
    var r' := Next(cfg, r, step);
    var s := r.db.rows[cfg.hash(step.raw)].session;
    assert r'.calls[step.call] == Ending(s);
    NoMoreLive(r.db, r'.db);
    forall id | id in r'.db.sessions ensures Settled(r', id) {
      assert Settled(r, id);
      SameLive(r.db, r'.db, id);
      if IsEnding(r, id) {
        var call :| call in r.calls && r.calls[call] == Ending(id);
        assert r'.calls[call] == Ending(id);
      }
    }
  }

  lemma SweepFamilies(cfg: Config, r: Racing, step: Step)
    requires Families(r) && step.Sweep? && Next(cfg, r, step) != r
    ensures Families(Next(cfg, r, step))
  {
    var r' := Next(cfg, r, step);
    var s := r.calls[step.call].session;
    assert IsEnding(r, s);
    NoMoreLive(r.db, r'.db);
    forall id | id in r'.db.sessions ensures Settled(r', id) {
      assert Settled(r, id);
      if id == s {
        assert forall h :: !LiveRow(r'.db, h, id);
      } else {
        SameLive(r.db, r'.db, id);
        if IsEnding(r, id) {
          var call :| call in r.calls && r.calls[call] == Ending(id);
          assert r'.calls[call] == Ending(id);
        }
      }
    }
  }

  lemma RotateElsewhere(cfg: Config, s: State, c: Call, next: string, id: Id)
    requires c.Rotating? && GoodCall(s, c) && cfg.hash(next) !in s.rows && id != c.session
    ensures HasLive(Rotate(cfg, s, c.row, c.session, next, c.now), id) <==> HasLive(s, id)
  {
    var s' := Rotate(cfg, s, c.row, c.session, next, c.now);
    forall h ensures LiveRow(s', h, id) <==> LiveRow(s, h, id) {
    }
    SameLive(s, s', id);
  }

  lemma FinishFamilies(cfg: Config, r: Racing, step: Step)
    requires Families(r) && GoodCalls(r) && step.Finish? && step.call in r.calls && r.calls[step.call].Rotating?
    requires cfg.hash(step.next) !in r.db.rows
    ensures Families(Next(cfg, r, step)) <==> Harmless(cfg, r, step)
  {
    var r', c, n := Next(cfg, r, step), r.calls[step.call], cfg.hash(step.next);
    assert GoodCall(r.db, c);
    assert LiveRow(r'.db, n, c.session);
    assert Settled(r, c.session);
    SameEnding(r, r', c.session);
    if Harmless(cfg, r, step) {
      forall id | id in r'.db.sessions ensures Settled(r', id) {
        assert Settled(r, id);
        SameEnding(r, r', id);
        if id != c.session {
          RotateElsewhere(cfg, r.db, c, step.next, id);
        } else if r.db.rows[c.row].revoked.None? {
          assert LiveRow(r.db, c.row, id);
        }
      }
      assert RowsHaveSessions(r'.db);
      RotateOneLive(cfg, r.db, c, step.next);
    } else if HasLive(r.db, c.session) {
      var k :| LiveRow(r.db, k, c.session);
      assert LiveRow(r'.db, k, c.session) && k != n;
      assert !AtMostOneLive(r'.db);
    } else {
      assert !Settled(r', c.session);
    }
  }

  lemma RotatedLive(cfg: Config, s: State, c: Call, next: string, h: string, id: Id)
    requires c.Rotating? && GoodCall(s, c) && h != cfg.hash(next)
    requires LiveRow(Rotate(cfg, s, c.row, c.session, next, c.now), h, id)
    ensures LiveRow(s, h, id) && h != c.row
  {
  }

  lemma RotateOneLive(cfg: Config, s: State, c: Call, next: string)
    requires RowsHaveSessions(s) && AtMostOneLive(s) && c.Rotating? && GoodCall(s, c) && cfg.hash(next) !in s.rows
    requires s.rows[c.row].revoked.None? || !HasLive(s, c.session)
    ensures AtMostOneLive(Rotate(cfg, s, c.row, c.session, next, c.now))
  {
    var s' := Rotate(cfg, s, c.row, c.session, next, c.now);
    forall h | LiveRow(s, h, c.session) ensures h == c.row {
      assert HasLive(s, c.session);
      TwoLive(s, c.session, h, c.row);
    }
    forall h, id | LiveRow(s', h, id) && h != cfg.hash(next) ensures LiveRow(s, h, id) && id != c.session {
      RotatedLive(cfg, s, c, next, h, id);
    }
    OneLiveMore(s, s', cfg.hash(next), c.session);
  }

  lemma StepSafeIff(cfg: Config, r: Racing, step: Step)
    requires Families(r) && GoodCalls(r)
    ensures Families(Next(cfg, r, step)) <==> Harmless(cfg, r, step)
  {
    hide Families, Apply;
    if step.Whole? {
      if !step.op.OpRefresh? {
        WholeFamilies(cfg, r, step.op);
      }
    } else if Next(cfg, r, step) != r {
      match step {
        case Begin(_, _, _) => SameFamilies(r, Next(cfg, r, step));
        case Finish(_, _) => FinishFamilies(cfg, r, step);
        case Reuse(_, _, _) => ReuseFamilies(cfg, r, step);
        case Sweep(_, _) => SweepFamilies(cfg, r, step);
      }
    } else if step.Finish? {
      assert step.call !in Next(cfg, r, step).calls || !r.calls[step.call].Rotating? || cfg.hash(step.next) in r.db.rows;
    }
  }

  lemma GoodCallsKept(cfg: Config, r: Racing, step: Step)
    requires Families(r) && GoodCalls(r)
    ensures GoodCalls(Next(cfg, r, step))
  {
    hide AtMostOneLive, Settled;
    var r' := Next(cfg, r, step);
    forall call | call in r'.calls ensures GoodCall(r'.db, r'.calls[call]) {
      if call in r.calls {
        assert GoodCall(r.db, r.calls[call]);
        if step.Whole? && r.calls[call].Rotating? {
          RowsStay(cfg, r.db, step.op, r.calls[call].row);
        }
        SessionsStay(cfg, r, step);
      }
    }
  }

  lemma SessionsStay(cfg: Config, r: Racing, step: Step)
    ensures r.db.sessions.Keys <= Next(cfg, r, step).db.sessions.Keys
  {
  }

  ghost predicate SafeThroughout(cfg: Config, steps: seq<Step>) {
    Families(Race(cfg, steps)) && (steps != [] ==> SafeThroughout(cfg, steps[..|steps| - 1]))
  }

  ghost predicate AllHarmless(cfg: Config, steps: seq<Step>) {
    steps != [] ==>
      var init := steps[..|steps| - 1];
      AllHarmless(cfg, init) && Harmless(cfg, Race(cfg, init), steps[|steps| - 1])
  }

  // Over whole runs of any interleaving: the families stay right throughout exactly when every
  // rotation was harmless when it came.
  lemma {:induction false} RaceSafeIff(cfg: Config, steps: seq<Step>)
    ensures SafeThroughout(cfg, steps) <==> AllHarmless(cfg, steps)
    ensures AllHarmless(cfg, steps) ==> GoodCalls(Race(cfg, steps))
  {
    hide Families, Harmless, Next, GoodCalls;
    if steps == [] {
      NothingYet();
    } else {
      var n := |steps| - 1;
      RaceSafeIff(cfg, steps[..n]);
      if AllHarmless(cfg, steps[..n]) {
        StepSafeIff(cfg, Race(cfg, steps[..n]), steps[n]);
        GoodCallsKept(cfg, Race(cfg, steps[..n]), steps[n]);
      }
    }
  }

  lemma NothingYet()
    ensures Families(Racing(EMPTY, map[])) && GoodCalls(Racing(EMPTY, map[]))
  {
  }

  // The window is real: two refreshes presenting one token at once both succeed, and the session is
  // left with two unrevoked rows.
  lemma OneTokenTwice(cfg: Config, s: State, raw: string, next: string, next': string, now: Time)
    requires Inv(s) && cfg.hash(raw) in s.rows && s.rows[cfg.hash(raw)].revoked.None?
    requires Checks(s, s.rows[cfg.hash(raw)], now).None?
    requires cfg.hash(next) !in s.rows && cfg.hash(next') !in s.rows && cfg.hash(next) != cfg.hash(next')
    ensures var r2 := Next(cfg, Next(cfg, Racing(s, map[]), Begin(1, raw, now)), Begin(2, raw, now));
            var r3 := Next(cfg, r2, Finish(1, next));
            var r4 := Next(cfg, r3, Finish(2, next'));
            var session := s.rows[cfg.hash(raw)].session;
            && Inv(r3.db)
            && LiveRow(r4.db, cfg.hash(next), session) && LiveRow(r4.db, cfg.hash(next'), session) && !Inv(r4.db)
  {
    var h := cfg.hash(raw);
    var session := s.rows[h].session;
    var r2 := Next(cfg, Next(cfg, Racing(s, map[]), Begin(1, raw, now)), Begin(2, raw, now));
    var r3 := Next(cfg, r2, Finish(1, next));
    assert r3.db == Rotate(cfg, s, h, session, next, now);
    RotateKeepsIff(cfg, s, h, session, next, now);
    RotateKeepsIff(cfg, r3.db, h, session, next', now);
  }

  lemma RaceSnoc(cfg: Config, steps: seq<Step>, step: Step)
    ensures Race(cfg, steps + [step]) == Next(cfg, Race(cfg, steps), step)
  {
    assert (steps + [step])[..|steps|] == steps;
  }

  // The same from an empty database: an account signs in and presents its token twice at once.
  lemma OneTokenTwiceReached(cfg: Config, raw: string, next: string, next': string)
    requires cfg.ttl >= 0 && cfg.hash(raw) != cfg.hash(next) && cfg.hash(next) != cfg.hash(next') && cfg.hash(raw) != cfg.hash(next')
    ensures var steps := [Whole(OpUser(7, Active))] + [Whole(OpLogin(7, true, 3, raw, 0))] + [Begin(1, raw, 0)] + [Begin(2, raw, 0)]
                           + [Finish(1, next)] + [Finish(2, next')];
            var db := Race(cfg, steps).db;
            LiveRow(db, cfg.hash(next), 3) && LiveRow(db, cfg.hash(next'), 3) && !Inv(db)
  {
    var user, login := Whole(OpUser(7, Active)), Whole(OpLogin(7, true, 3, raw, 0));
    var s0 := Apply(cfg, EMPTY, user.op);
    var s := Apply(cfg, s0, login.op);
    EveryRunKeepsInv(cfg, []);
    ApplyKeeps(cfg, EMPTY, user.op);
    ApplyKeeps(cfg, s0, login.op);
    RaceSnoc(cfg, [], user);
    assert [] + [user] == [user];
    RaceSnoc(cfg, [user], login);
    var a := [user] + [login];
    assert Race(cfg, a) == Racing(s, map[]);
    RaceSnoc(cfg, a, Begin(1, raw, 0));
    RaceSnoc(cfg, a + [Begin(1, raw, 0)], Begin(2, raw, 0));
    RaceSnoc(cfg, a + [Begin(1, raw, 0)] + [Begin(2, raw, 0)], Finish(1, next));
    RaceSnoc(cfg, a + [Begin(1, raw, 0)] + [Begin(2, raw, 0)] + [Finish(1, next)], Finish(2, next'));
    hide Race, Inv, Next, LiveRow;
    OneTokenTwice(cfg, s, raw, next, next', 0);
  }
}
