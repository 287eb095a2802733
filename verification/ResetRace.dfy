// A password reset checks its token before its transaction, and a request for one invalidates before it
// inserts. What can happen in between.
module ResetRace {
  import opened Common
  import opened Refresh

  // A request that has invalidated the open rows it saw; a reset whose token was found open.
  datatype Call =
    | Requesting(user: Id, seen: set<string>)
    | Resetting(row: string)

  datatype Racing = Racing(db: State, calls: map<Id, Call>)

  // Requests and resets are always two steps; Whole is any other call.
  datatype Step =
    | Whole(op: Op)
    | Clear(call: Id, user: Id)
    | Insert(call: Id, raw: string, now: Time)
    | Check(call: Id, raw: string, now: Time)
    | Consume(call: Id, now: Time)

  function OpenOf(resets: map<string, PasswordReset>, user: Id): set<string> {
    set h | h in resets && resets[h].user == user && resets[h].used.None?
  }

  function UseSeen(resets: map<string, PasswordReset>, seen: set<string>, now: Time): map<string, PasswordReset> {
    map h | h in resets :: if h in seen && resets[h].used.None? then resets[h].(used := Some(now)) else resets[h]
  }

  function Inserted(cfg: Config, s: State, c: Call, raw: string, now: Time): State
    requires c.Requesting?
  {
    s.(resets := UseSeen(s.resets, c.seen, now)[cfg.hash(raw) := PasswordReset(c.user, now + RESET_TTL, None)])
  }

  // The transaction of a reset. It stamps its own row whether or not it is still open.
  function Consumed(s: State, h: string, now: Time): State
    requires h in s.resets
  {
    var p := s.resets[h];
    s.(sessions := RevokeUserSessions(s.sessions, p.user, now),
       rows := RevokeUserRows(s.rows, s.sessions, p.user, now),
       resets := UseResets(s.resets[h := p.(used := Some(now))], p.user, now))
  }

  predicate Opens(s: State, h: string, now: Time) {
    h in s.resets && s.resets[h].used.None? && now <= s.resets[h].expires
  }

  // Their two steps in a row are the whole calls.
  lemma WholeIsBoth(cfg: Config, s: State, user: Id, raw: string, now: Time)
    ensures user in s.users ==>
              Inserted(cfg, s, Requesting(user, OpenOf(s.resets, user)), raw, now) == ForgotPassword(cfg, s, user, raw, now)
    ensures ResetPassword(cfg, s, raw, now) == (s, ResetPassword(cfg, s, raw, now).1)
            || (Opens(s, cfg.hash(raw), now) && ResetPassword(cfg, s, raw, now) == (Consumed(s, cfg.hash(raw), now), Ok(())))
  {
    if user in s.users {
      assert UseSeen(s.resets, OpenOf(s.resets, user), now) == UseResets(s.resets, user, now);
    }
  }

  function Next(cfg: Config, r: Racing, step: Step): Racing {
    match step {
      case Whole(op) => if op.OpForgot? || op.OpReset? then r else r.(db := Apply(cfg, r.db, op))
      case Clear(call, user) =>
        if call !in r.calls && user in r.db.users
        then r.(calls := r.calls[call := Requesting(user, OpenOf(r.db.resets, user))]) else r
      case Insert(call, raw, now) =>
        if call in r.calls && r.calls[call].Requesting? && cfg.hash(raw) !in r.db.resets
        then Racing(Inserted(cfg, r.db, r.calls[call], raw, now), r.calls - {call}) else r
      case Check(call, raw, now) =>
        if call !in r.calls && Opens(r.db, cfg.hash(raw), now) then r.(calls := r.calls[call := Resetting(cfg.hash(raw))]) else r
      case Consume(call, now) =>
        if call in r.calls && r.calls[call].Resetting? && r.calls[call].row in r.db.resets
        then Racing(Consumed(r.db, r.calls[call].row, now), r.calls - {call}) else r
    }
  }

  function Race(cfg: Config, steps: seq<Step>): Racing {
    if steps == [] then Racing(EMPTY, map[])
    else Next(cfg, Race(cfg, steps[..|steps| - 1]), steps[|steps| - 1])
  }

  // ---------- one open token per user ----------

  // The request finds no open token of its user but those it saw.
  predicate Harmless(cfg: Config, r: Racing, step: Step) {
    step.Insert? && step.call in r.calls && r.calls[step.call].Requesting? && cfg.hash(step.raw) !in r.db.resets ==>
      OpenOf(r.db.resets, r.calls[step.call].user) <= r.calls[step.call].seen
  }

  lemma InsertSafeIff(cfg: Config, s: State, c: Call, raw: string, now: Time)
    requires OneReset(s) && c.Requesting? && cfg.hash(raw) !in s.resets
    ensures OneReset(Inserted(cfg, s, c, raw, now)) <==> OpenOf(s.resets, c.user) <= c.seen
  {
    var s', h := Inserted(cfg, s, c, raw, now), cfg.hash(raw);
    if k :| k in OpenOf(s.resets, c.user) && k !in c.seen {
      assert s'.resets[k] == s.resets[k] && s'.resets[h].used.None?;
    }
  }

  lemma StepSafeIff(cfg: Config, r: Racing, step: Step)
    requires OneReset(r.db)
    ensures OneReset(Next(cfg, r, step).db) <==> Harmless(cfg, r, step)
  {
    hide Apply, Inserted, OpenOf;
    match step {
      case Whole(op) => ResetsKept(cfg, r.db, op);
      case Insert(call, raw, now) =>
        if call in r.calls && r.calls[call].Requesting? && cfg.hash(raw) !in r.db.resets {
          InsertSafeIff(cfg, r.db, r.calls[call], raw, now);
        }
      case _ =>
    }
  }

  ghost predicate OneThroughout(cfg: Config, steps: seq<Step>) {
    OneReset(Race(cfg, steps).db) && (steps != [] ==> OneThroughout(cfg, steps[..|steps| - 1]))
  }

  predicate AllHarmless(cfg: Config, steps: seq<Step>) {
    steps != [] ==>
      var init := steps[..|steps| - 1];
      AllHarmless(cfg, init) && Harmless(cfg, Race(cfg, init), steps[|steps| - 1])
  }

  // Over every interleaving: a user has at most one open reset token throughout exactly when every
  // request found, at its insert, no open one that it had not seen.
  lemma {:induction false} RaceSafeIff(cfg: Config, steps: seq<Step>)
    ensures OneThroughout(cfg, steps) <==> AllHarmless(cfg, steps)
  {
    if steps != [] {
      var n := |steps| - 1;
      RaceSafeIff(cfg, steps[..n]);
      if AllHarmless(cfg, steps[..n]) {
        StepSafeIff(cfg, Race(cfg, steps[..n]), steps[n]);
      }
    }
  }

  // ---------- resets per token ----------

  function InFlight(calls: map<Id, Call>, h: string): set<Id> {
    set c | c in calls && calls[c] == Resetting(h)
  }

  function Resets(calls: map<Id, Call>): set<Id> {
    set c | c in calls && calls[c].Resetting?
  }

  // At no point of the run are more than m resets in flight.
  predicate AtMost(cfg: Config, steps: seq<Step>, m: nat) {
    |Resets(Race(cfg, steps).calls)| <= m && (steps != [] ==> AtMost(cfg, steps[..|steps| - 1], m))
  }

  // The step sets the password on the word of token h.
  predicate Uses(r: Racing, step: Step, h: string) {
    step.Consume? && step.call in r.calls && r.calls[step.call] == Resetting(h) && h in r.db.resets
  }

  function UsesOf(cfg: Config, steps: seq<Step>, h: string): nat {
    if steps == [] then 0
    else
      var n := |steps| - 1;
      UsesOf(cfg, steps[..n], h) + if Uses(Race(cfg, steps[..n]), steps[n], h) then 1 else 0
  }

  // Uses so far and resets still in flight fit in m once the token is used up; before that it has none.
  predicate Fit(r: Racing, h: string, uses: nat, m: nat) {
    if UsedUp(r.db, h) then uses + |InFlight(r.calls, h)| <= m else uses == 0
  }

  lemma InFlightFew(calls: map<Id, Call>, h: string)
    ensures |InFlight(calls, h)| <= |Resets(calls)|
  {
    CardSubset(InFlight(calls, h), Resets(calls));
  }

  lemma OneLess(calls: map<Id, Call>, call: Id, h: string)
    requires call in calls
    ensures |InFlight(calls - {call}, h)| == |InFlight(calls, h)| - if calls[call] == Resetting(h) then 1 else 0
  {
    var w := InFlight(calls, h);
    if calls[call] == Resetting(h) {
      assert InFlight(calls - {call}, h) == w - {call};
      CardRemove(w, call);
    } else {
      assert InFlight(calls - {call}, h) == w;
    }
  }

  lemma Unmoved(calls: map<Id, Call>, call: Id, c: Call, h: string)
    requires call !in calls && c != Resetting(h)
    ensures InFlight(calls[call := c], h) == InFlight(calls, h)
  {
  }

  lemma StaysUsed(cfg: Config, r: Racing, step: Step, h: string)
    requires UsedUp(r.db, h)
    ensures UsedUp(Next(cfg, r, step).db, h)
  {
    hide Apply;
    if step.Whole? {
      ResetStaysUsed(cfg, r.db, step.op, h);
    }
  }

  lemma FitStep(cfg: Config, r: Racing, step: Step, h: string, uses: nat, m: nat)
    requires Fit(r, h, uses, m) && |Resets(r.calls)| <= m && |Resets(Next(cfg, r, step).calls)| <= m
    ensures Fit(Next(cfg, r, step), h, uses + if Uses(r, step, h) then 1 else 0, m)
  {
    var r' := Next(cfg, r, step);
    InFlightFew(r'.calls, h);
    InFlightFew(r.calls, h);
    if UsedUp(r.db, h) {
      StaysUsed(cfg, r, step, h);
    }
    hide InFlight, Resets, Apply, Inserted, RevokeUserSessions, RevokeUserRows;
    if !step.Whole? && r'.calls != r.calls {
      if step.call in r.calls {
        OneLess(r.calls, step.call, h);
      } else if r'.calls[step.call] != Resetting(h) {
        Unmoved(r.calls, step.call, r'.calls[step.call], h);
      }
    }
  }

  lemma {:induction false} EveryRunFits(cfg: Config, steps: seq<Step>, h: string, m: nat)
    requires AtMost(cfg, steps, m)
    ensures Fit(Race(cfg, steps), h, UsesOf(cfg, steps, h), m)
  {
    hide Next, Fit, Resets, Uses;
    if steps == [] {
      NothingUsed(h, m);
    } else {
      var n := |steps| - 1;
      EveryRunFits(cfg, steps[..n], h, m);
      AtMostNow(cfg, steps[..n], m);
      FitStep(cfg, Race(cfg, steps[..n]), steps[n], h, UsesOf(cfg, steps[..n], h), m);
    }
  }

  lemma NothingUsed(h: string, m: nat)
    ensures Fit(Racing(EMPTY, map[]), h, 0, m)
  {
  }

  lemma AtMostNow(cfg: Config, steps: seq<Step>, m: nat)
    requires AtMost(cfg, steps, m)
    ensures |Resets(Race(cfg, steps).calls)| <= m
  {
  }

  // With at most m resets in flight, under every interleaving, a token resets the password at most m
  // times: once, when resets do not overlap.
  lemma ResetsPerToken(cfg: Config, steps: seq<Step>, h: string, m: nat)
    requires AtMost(cfg, steps, m)
    ensures UsesOf(cfg, steps, h) <= m
  {
    EveryRunFits(cfg, steps, h, m);
  }

  // ---------- the windows are reached ----------

  lemma RaceSnoc(cfg: Config, steps: seq<Step>, step: Step)
    ensures Race(cfg, steps + [step]) == Next(cfg, Race(cfg, steps), step)
  {
    assert (steps + [step])[..|steps|] == steps;
  }

  const KNOWN := EMPTY.(users := map[7 := Active])

  function OneUser(): seq<Step> {
    [Whole(OpUser(7, Active))]
  }

  lemma OneUserState(cfg: Config)
    ensures Race(cfg, OneUser()) == Racing(KNOWN, map[])
  {
    assert [] + OneUser() == OneUser();
    RaceSnoc(cfg, [], Whole(OpUser(7, Active)));
  }

  // From an empty database: two requests at once leave two open tokens.
  lemma TwoOpen(cfg: Config, a: string, b: string)
    requires cfg.hash(a) != cfg.hash(b)
    ensures var steps := OneUser() + [Clear(1, 7)] + [Clear(2, 7)] + [Insert(1, a, 0)] + [Insert(2, b, 0)];
            OpenOf(Race(cfg, steps).db.resets, 7) == {cfg.hash(a), cfg.hash(b)}
  {
    OneUserState(cfg);
    RaceSnoc(cfg, OneUser(), Clear(1, 7));
    RaceSnoc(cfg, OneUser() + [Clear(1, 7)], Clear(2, 7));
    RaceSnoc(cfg, OneUser() + [Clear(1, 7)] + [Clear(2, 7)], Insert(1, a, 0));
    RaceSnoc(cfg, OneUser() + [Clear(1, 7)] + [Clear(2, 7)] + [Insert(1, a, 0)], Insert(2, b, 0));
    hide Race, OneUser;
    assert OpenOf(map[], 7) == {};
  }

  // From an empty database: two resets at once both use one token.
  lemma TwoResets(cfg: Config, a: string)
    ensures var steps := OneUser() + [Clear(1, 7)] + [Insert(1, a, 0)] + [Check(1, a, 0)] + [Check(2, a, 0)] + [Consume(1, 0)];
            UsesOf(cfg, steps + [Consume(2, 0)], cfg.hash(a)) >= 2
  {
    var s1 := OneUser() + [Clear(1, 7)];
    var s2 := s1 + [Insert(1, a, 0)];
    var s3 := s2 + [Check(1, a, 0)];
    var s4 := s3 + [Check(2, a, 0)];
    var s5 := s4 + [Consume(1, 0)];
    OneUserState(cfg);
    RaceSnoc(cfg, OneUser(), Clear(1, 7));
    RaceSnoc(cfg, s1, Insert(1, a, 0));
    RaceSnoc(cfg, s2, Check(1, a, 0));
    RaceSnoc(cfg, s3, Check(2, a, 0));
    RaceSnoc(cfg, s4, Consume(1, 0));
    UsesSnoc(cfg, s4, Consume(1, 0), cfg.hash(a));
    UsesSnoc(cfg, s5, Consume(2, 0), cfg.hash(a));
    hide Race, OneUser, UsesOf;
    var h := cfg.hash(a);
    assert Race(cfg, s4).calls == map[1 := Resetting(h), 2 := Resetting(h)];
  }

  lemma UsesSnoc(cfg: Config, steps: seq<Step>, step: Step, h: string)
    ensures UsesOf(cfg, steps + [step], h) == UsesOf(cfg, steps, h) + if Uses(Race(cfg, steps), step, h) then 1 else 0
  {
    assert (steps + [step])[..|steps|] == steps;
  }
}
