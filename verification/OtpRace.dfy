// A guess loads its code before it counts against it, and a resend reads the throttle before its
// transaction invalidates and inserts. What the bounds become when such calls overlap.
module OtpRace {
  import opened Common
  import opened Spacing
  import opened Otp

  // A guess compared with code `code`; a resend that passed the throttle at `at`, when `began` codes
  // existed, and, once it has invalidated, how many codes its update saw.
  datatype Call =
    | Guessing(code: nat, right: bool)
    | Resending(began: nat, at: Time, cleared: Option<nat>)

  datatype Racing = Racing(acc: Option<Account>, calls: map<Id, Call>)

  datatype Step =
    | Join(code: string, link: string, now: Time)
    | Load(call: Id, guess: string, now: Time)
    | Settle(call: Id, now: Time)
    | Confirm(row: nat, now: Time)   // a verification by link, whenever it was loaded
    | Throttle(call: Id, now: Time)
    | Clear(call: Id, now: Time)
    | Insert(call: Id, code: string, link: string, now: Time)

  // The guess is compared: there is a pending code, in time and with tries left.
  predicate Compares(r: Racing, step: Step) {
    && step.Load? && step.call !in r.calls && r.acc.Some? && !r.acc.value.verified
    && var i := LatestPending(r.acc.value.codes);
       i.Some? && step.now <= r.acc.value.codes[i.value].expires && r.acc.value.codes[i.value].attempts < MAX_ATTEMPTS
  }

  function Target(r: Racing): nat
    requires r.acc.Some? && LatestPending(r.acc.value.codes).Some?
  {
    LatestPending(r.acc.value.codes).value
  }

  predicate ComparesWrong(r: Racing, step: Step) {
    Compares(r, step) && step.guess != r.acc.value.codes[Target(r)].hash
  }

  // The codes a resend's update saw are used up; later ones are not.
  function Used(codes: seq<Code>, n: nat, now: Time): (u: seq<Code>)
    ensures |u| == |codes|
    ensures forall i :: 0 <= i < |u| ==>
      u[i] == if i < n && codes[i].consumed.None? then codes[i].(consumed := Some(now)) else codes[i]
  {
    seq(|codes|, i requires 0 <= i < |codes| =>
      if i < n && codes[i].consumed.None? then codes[i].(consumed := Some(now)) else codes[i])
  }

  function UsedLinks(links: seq<Link>, n: nat, now: Time): (u: seq<Link>)
    ensures |u| == |links|
    ensures forall i :: 0 <= i < |u| ==> u[i].created == links[i].created
  {
    seq(|links|, i requires 0 <= i < |links| =>
      if i < n && links[i].verified.None? then links[i].(verified := Some(now)) else links[i])
  }

  function Settled(a: Account, c: Call, now: Time): Account
    requires c.Guessing? && c.code < |a.codes|
  {
    var code := a.codes[c.code];
    if c.right then Account(true, a.codes[c.code := code.(consumed := Some(now))], VerifyAll(a.links, now))
    else a.(codes := a.codes[c.code := code.(attempts := code.attempts + 1)])
  }

  function Next(r: Racing, step: Step): Racing {
    match step {
      case Join(code, link, now) =>
        if r.acc.Some? then r else r.(acc := Some(Account(false, [NewCode(code, now)], [NewLink(link, now)])))
      case Load(call, guess, now) =>
        if Compares(r, step)
        then r.(calls := r.calls[call := Guessing(Target(r), guess == r.acc.value.codes[Target(r)].hash)]) else r
      case Settle(call, now) =>
        if call in r.calls && r.calls[call].Guessing? && r.acc.Some? && r.calls[call].code < |r.acc.value.codes|
        then Racing(Some(Settled(r.acc.value, r.calls[call], now)), r.calls - {call}) else r
      case Confirm(i, now) =>
        if r.acc.Some? && i < |r.acc.value.links| then
          var a := r.acc.value;
          r.(acc := Some(a.(verified := true, links := a.links[i := a.links[i].(verified := Some(now))])))
        else r
      case Throttle(call, now) =>
        if call !in r.calls && r.acc.Some? && !r.acc.value.verified
           && (r.acc.value.links == [] || now - r.acc.value.links[|r.acc.value.links| - 1].created >= THROTTLE)
        then r.(calls := r.calls[call := Resending(|r.acc.value.codes|, now, None)]) else r
      case Clear(call, now) =>
        if call in r.calls && r.calls[call].Resending? && r.calls[call].cleared.None? && r.acc.Some?
        then r.(calls := r.calls[call := r.calls[call].(cleared := Some(|r.acc.value.codes|))]) else r
      case Insert(call, code, link, now) =>
        if call in r.calls && r.calls[call].Resending? && r.calls[call].cleared.Some? && r.acc.Some?
        then Racing(Some(Reissued(r.acc.value, r.calls[call].cleared.value, code, link, now)), r.calls - {call}) else r
    }
  }

  function Reissued(a: Account, n: nat, code: string, link: string, now: Time): Account {
    a.(codes := Used(a.codes, n, now) + [NewCode(code, now)], links := UsedLinks(a.links, n, now) + [NewLink(link, now)])
  }

  const START := Racing(None, map[])

  function Race(steps: seq<Step>): Racing {
    if steps == [] then START else Next(Race(steps[..|steps| - 1]), steps[|steps| - 1])
  }

  predicate Timely(steps: seq<Step>) {
    forall i, j :: 0 <= i < j < |steps| ==> steps[i].now <= steps[j].now
  }

  // ---------- calls in flight ----------

  function Guesses(calls: map<Id, Call>): set<Id> {
    set c | c in calls && calls[c].Guessing?
  }

  function Resends(calls: map<Id, Call>): set<Id> {
    set c | c in calls && calls[c].Resending?
  }

  // At no point of the run are more than m guesses or n resends in flight.
  predicate AtMost(steps: seq<Step>, m: nat, n: nat) {
    && |Guesses(Race(steps).calls)| <= m && |Resends(Race(steps).calls)| <= n
    && (steps != [] ==> AtMost(steps[..|steps| - 1], m, n))
  }

  // ---------- what every interleaving keeps ----------

  predicate SoundCall(a: Account, c: Call, now: Time) {
    match c
    case Guessing(i, _) => i < |a.codes|
    case Resending(began, at, cleared) =>
      && 1 <= began <= |a.codes| && at <= now && at >= a.codes[began - 1].created + THROTTLE
      && (cleared.Some? ==> began <= cleared.value <= |a.codes|)
  }

  ghost predicate SoundAccount(a: Account, now: Time) {
    && a.codes != [] && |a.links| == |a.codes|
    && (forall i :: 0 <= i < |a.codes| ==> a.links[i].created == a.codes[i].created <= now)
    && (forall i, j :: 0 <= i < j < |a.codes| ==> a.codes[i].created <= a.codes[j].created)
    && (!a.verified ==> a.codes[|a.codes| - 1].consumed.None?)
  }

  ghost predicate SoundRace(r: Racing, now: Time) {
    if r.acc.None? then r.calls == map[]
    else
      SoundAccount(r.acc.value, now) && forall c :: c in r.calls ==> SoundCall(r.acc.value, r.calls[c], now)
  }

  // Rows are appended or changed in place; creation times never change.
  ghost predicate Extends(a: Account, a': Account) {
    && |a.codes| <= |a'.codes|
    && forall i :: 0 <= i < |a.codes| ==> a'.codes[i].created == a.codes[i].created
  }

  lemma InsertSound(a: Account, now: Time, n: nat, code: string, link: string, at: Time)
    requires SoundAccount(a, now) && now <= at
    ensures var a' := Reissued(a, n, code, link, at); SoundAccount(a', at) && Extends(a, a')
  {
    var a', k := Reissued(a, n, code, link, at), |a.codes|;
    assert a'.codes[k] == NewCode(code, at) && a'.links[k] == NewLink(link, at);
  }

  lemma SettleSound(a: Account, now: Time, c: Call, at: Time)
    requires SoundAccount(a, now) && now <= at && c.Guessing? && c.code < |a.codes|
    ensures var a' := Settled(a, c, at); SoundAccount(a', at) && Extends(a, a')
  {
    var a' := Settled(a, c, at);
    assert forall i :: 0 <= i < |a.codes| ==> a'.codes[i].created == a.codes[i].created;
  }

  lemma AccountStep(r: Racing, step: Step, now: Time)
    requires SoundRace(r, now) && now <= step.now && r.acc.Some?
    ensures Next(r, step).acc.Some?
    ensures SoundAccount(Next(r, step).acc.value, step.now) && Extends(r.acc.value, Next(r, step).acc.value)
  {
    hide Reissued, Settled;
    var a := r.acc.value;
    if step.Insert? && Next(r, step) != r {
      InsertSound(a, now, r.calls[step.call].cleared.value, step.code, step.link, step.now);
    } else if step.Settle? && step.call in r.calls && Next(r, step) != r {
      SettleSound(a, now, r.calls[step.call], step.now);
    }
  }

  lemma JoinSound(code: Code, link: Link, now: Time)
    requires code.created == link.created == now && code.consumed.None?
    ensures SoundAccount(Account(false, [code], [link]), now)
  {
  }

  lemma ThrottleSound(r: Racing, now: Time)
    requires SoundRace(r, now) && r.acc.Some?
    ensures var a := r.acc.value; a.codes != [] && |a.links| == |a.codes| && a.links[|a.links| - 1].created == a.codes[|a.codes| - 1].created
  {
  }

  lemma SoundStep(r: Racing, step: Step, now: Time)
    requires SoundRace(r, now) && now <= step.now
    ensures SoundRace(Next(r, step), step.now)
  {
    hide Reissued, Settled, SoundAccount, LatestPending;
    if r.acc.Some? && step.Throttle? {
      ThrottleSound(r, now);
    } else if r.acc.None? && step.Join? {
      JoinSound(NewCode(step.code, step.now), NewLink(step.link, step.now), step.now);
    }
    if r.acc.Some? {
      AccountStep(r, step, now);
      var a, r' := r.acc.value, Next(r, step);
      forall c | c in r'.calls ensures SoundCall(r'.acc.value, r'.calls[c], step.now) {
        if c in r.calls {
          assert SoundCall(a, r.calls[c], now);
        }
      }
    }
  }

  lemma {:induction false} RaceSound(steps: seq<Step>, now: Time)
    requires Timely(steps) && (steps != [] ==> steps[|steps| - 1].now <= now)
    ensures SoundRace(Race(steps), now)
  {
    if steps != [] {
      var n := |steps| - 1;
      RaceSound(steps[..n], steps[n].now);
      SoundStep(Race(steps[..n]), steps[n], steps[n].now);
      Later(Race(steps), steps[n].now, now);
    }
  }

  lemma Later(r: Racing, now: Time, later: Time)
    requires SoundRace(r, now) && now <= later
    ensures SoundRace(r, later)
  {
    if r.acc.Some? {
      forall c | c in r.calls ensures SoundCall(r.acc.value, r.calls[c], later) {
        assert SoundCall(r.acc.value, r.calls[c], now);
      }
    }
  }

  // While the account is not verified, guesses are compared with the newest code.
  lemma TargetIsLast(r: Racing, now: Time)
    requires SoundRace(r, now) && r.acc.Some? && !r.acc.value.verified
    ensures LatestPending(r.acc.value.codes) == Some(|r.acc.value.codes| - 1)
  {
  }

  // ---------- tries per code ----------

  function WrongInFlight(calls: map<Id, Call>, i: nat): set<Id> {
    set c | c in calls && calls[c] == Guessing(i, false)
  }

  // Wrong comparisons with code i: counted, or about to be.
  function Tries(r: Racing, i: nat): nat
    requires r.acc.Some? && i < |r.acc.value.codes|
  {
    r.acc.value.codes[i].attempts + |WrongInFlight(r.calls, i)|
  }

  lemma WrongBegun(calls: map<Id, Call>, call: Id, c: Call, i: nat)
    requires call !in calls
    ensures |WrongInFlight(calls[call := c], i)| == |WrongInFlight(calls, i)| + if c == Guessing(i, false) then 1 else 0
  {
    var w := WrongInFlight(calls, i);
    if c == Guessing(i, false) {
      assert WrongInFlight(calls[call := c], i) == w + {call};
    } else {
      assert WrongInFlight(calls[call := c], i) == w;
    }
  }

  lemma WrongEnded(calls: map<Id, Call>, call: Id, i: nat)
    requires call in calls
    ensures |WrongInFlight(calls - {call}, i)| == |WrongInFlight(calls, i)| - if calls[call] == Guessing(i, false) then 1 else 0
  {
    var w := WrongInFlight(calls, i);
    if calls[call] == Guessing(i, false) {
      assert WrongInFlight(calls - {call}, i) == w - {call};
      CardRemove(w, call);
    } else {
      assert WrongInFlight(calls - {call}, i) == w;
    }
  }

  lemma WrongUnmoved(calls: map<Id, Call>, call: Id, c: Call, i: nat)
    requires call in calls && calls[call].Resending? && c.Resending?
    ensures WrongInFlight(calls[call := c], i) == WrongInFlight(calls, i)
  {
  }

  // What a step does to the wrong guesses in flight against code i.
  lemma FlightStep(r: Racing, step: Step, i: nat)
    requires !step.Settle?
    ensures |WrongInFlight(Next(r, step).calls, i)| == |WrongInFlight(r.calls, i)| + if ComparesWrong(r, step) && Target(r) == i then 1 else 0
  {
    hide WrongInFlight, Reissued, LatestPending;
    var r' := Next(r, step);
    if r'.calls != r.calls {
      match step
      case Load(call, _, _) => WrongBegun(r.calls, call, r'.calls[call], i);
      case Throttle(call, _) => WrongBegun(r.calls, call, r'.calls[call], i);
      case Clear(call, _) => WrongUnmoved(r.calls, call, r'.calls[call], i);
      case Insert(call, _, _, _) => WrongEnded(r.calls, call, i);
    }
  }

  // A guess that settles moves its try from the calls in flight to the counter.
  lemma SettleStep(r: Racing, step: Step, i: nat)
    requires step.Settle? && r.acc.Some? && i < |r.acc.value.codes|
    ensures Next(r, step).acc.Some? && i < |Next(r, step).acc.value.codes| && Tries(Next(r, step), i) == Tries(r, i)
  {
    hide WrongInFlight, VerifyAll;
    if Next(r, step) != r {
      WrongEnded(r.calls, step.call, i);
    }
  }

  // One more wrong comparison, and nothing else, adds a try.
  lemma TriesStep(r: Racing, step: Step, now: Time, i: nat)
    requires SoundRace(r, now) && r.acc.Some? && i < |r.acc.value.codes|
    ensures Next(r, step).acc.Some? && i < |Next(r, step).acc.value.codes|
    ensures Tries(Next(r, step), i) == Tries(r, i) + if ComparesWrong(r, step) && Target(r) == i then 1 else 0
  {
    if step.Settle? {
      SettleStep(r, step, i);
    } else {
      FlightStep(r, step, i);
      CounterKept(r, step, i);
    }
  }

  lemma CounterKept(r: Racing, step: Step, i: nat)
    requires !step.Settle? && r.acc.Some? && i < |r.acc.value.codes|
    ensures var r' := Next(r, step);
            r'.acc.Some? && i < |r'.acc.value.codes| && r'.acc.value.codes[i].attempts == r.acc.value.codes[i].attempts
  {
  }

  function TriesOn(steps: seq<Step>, i: nat): nat {
    if steps == [] then 0
    else
      var n := |steps| - 1;
      var r := Race(steps[..n]);
      TriesOn(steps[..n], i) + if ComparesWrong(r, steps[n]) && Target(r) == i then 1 else 0
  }

  lemma NoTriesYet(r: Racing, now: Time, i: nat)
    requires SoundRace(r, now) && (r.acc.Some? ==> |r.acc.value.codes| <= i)
    ensures WrongInFlight(r.calls, i) == {}
  {
    forall c | c in r.calls ensures r.calls[c] != Guessing(i, false) {
      if r.acc.Some? {
        assert SoundCall(r.acc.value, r.calls[c], now);
      }
    }
  }

  // A row that was not there is not compared with, and starts without tries.
  lemma UntriedStep(r: Racing, step: Step, now: Time, i: nat)
    requires SoundRace(r, now) && (r.acc.Some? ==> |r.acc.value.codes| <= i)
    ensures var r' := Next(r, step);
            && (r'.acc.Some? && i < |r'.acc.value.codes| ==> Tries(r', i) == 0)
            && !(ComparesWrong(r, step) && Target(r) == i)
  {
    NoTriesYet(r, now, i);
    var r' := Next(r, step);
    if r'.acc.Some? && i < |r'.acc.value.codes| {
      assert WrongInFlight(r'.calls, i) <= WrongInFlight(r.calls, i);
    }
  }

  lemma {:induction false} TriesCounted(steps: seq<Step>, i: nat, now: Time)
    requires Timely(steps) && (steps != [] ==> steps[|steps| - 1].now <= now)
    ensures var r := Race(steps);
            TriesOn(steps, i) == if r.acc.Some? && i < |r.acc.value.codes| then Tries(r, i) else 0
  {
    if steps != [] {
      var n := |steps| - 1;
      var r := Race(steps[..n]);
      TriesCounted(steps[..n], i, steps[n].now);
      RaceSound(steps[..n], steps[n].now);
      if r.acc.Some? && i < |r.acc.value.codes| {
        TriesStep(r, steps[n], steps[n].now, i);
      } else {
        UntriedStep(r, steps[n], steps[n].now, i);
      }
    }
  }

  // With at most m guesses in flight, a code is compared wrongly at most 5 + (m - 1) times.
  lemma {:induction false} TriesPerCode(steps: seq<Step>, m: nat, n: nat, i: nat)
    requires Timely(steps) && AtMost(steps, m, n) && m >= 1
    ensures TriesOn(steps, i) <= MAX_ATTEMPTS + m - 1
  {
    if steps != [] {
      var k := |steps| - 1;
      var r := Race(steps[..k]);
      TriesPerCode(steps[..k], m, n, i);
      if ComparesWrong(r, steps[k]) && Target(r) == i {
        TriesCounted(steps, i, steps[k].now);
        var r' := Race(steps);
        assert r'.acc == r.acc;
        assert WrongInFlight(r'.calls, i) <= Guesses(r'.calls);
        CardSubset(WrongInFlight(r'.calls, i), Guesses(r'.calls));
      }
    }
  }

  // The bound is met: with four wrong guesses counted, two at once make six.
  lemma TwoAtOnce(r: Racing, now: Time, guess: string)
    requires SoundRace(r, now) && r.calls == map[] && r.acc.Some? && !r.acc.value.verified
    requires var c := r.acc.value.codes[|r.acc.value.codes| - 1]; c.attempts == 4 && now <= c.expires && guess != c.hash
    ensures var r' := Next(Next(r, Load(1, guess, now)), Load(2, guess, now));
            r'.acc == r.acc && Tries(r', |r.acc.value.codes| - 1) == 6
  {
    TargetIsLast(r, now);
    var i := |r.acc.value.codes| - 1;
    var r1 := Next(r, Load(1, guess, now));
    var r2 := Next(r1, Load(2, guess, now));
    assert WrongInFlight(r2.calls, i) == {1, 2};
  }

  // ---------- pending codes ----------

  function PendingFrom(codes: seq<Code>, from: nat): set<nat> {
    set i | from <= i < |codes| && codes[i].consumed.None?
  }

  // Resends that have invalidated, having seen at most `upto` codes.
  function ClearedBy(calls: map<Id, Call>, upto: nat): set<Id> {
    set c | c in calls && calls[c].Resending? && calls[c].cleared.Some? && calls[c].cleared.value <= upto
  }

  // Pending codes from any row on, with the resends in flight that will not use them up.
  ghost predicate PendingFit(r: Racing, n: nat) {
    r.acc.Some? ==>
      forall from: nat :: from <= |r.acc.value.codes| ==>
        |PendingFrom(r.acc.value.codes, from)| + |ClearedBy(r.calls, from)| <= n
  }

  lemma ClearedWithin(calls: map<Id, Call>, upto: nat)
    ensures |ClearedBy(calls, upto)| <= |Resends(calls)|
  {
    CardSubset(ClearedBy(calls, upto), Resends(calls));
  }

  // After an insert, the rows its update did not see are still pending, and the new one is.
  lemma InsertPending(codes: seq<Code>, seen: nat, now: Time, code: Code, from: nat)
    requires seen <= |codes| && from <= |codes| + 1 && code.consumed.None?
    ensures |PendingFrom(Used(codes, seen, now) + [code], from)| ==
      if from > |codes| then 0 else |PendingFrom(codes, if seen <= from then from else seen)| + 1
  {
    var codes', k := Used(codes, seen, now) + [code], |codes|;
    assert codes'[k] == code;
    if from <= k {
      var rest := PendingFrom(codes, if seen <= from then from else seen);
      assert PendingFrom(codes', from) == rest + {k};
    } else {
      assert PendingFrom(codes', from) == {};
    }
  }

  lemma OneCleared(calls: map<Id, Call>, call: Id, upto: nat)
    requires call in calls && calls[call].Resending? && calls[call].cleared.Some?
    ensures |ClearedBy(calls - {call}, upto)| == |ClearedBy(calls, upto)| - if calls[call].cleared.value <= upto then 1 else 0
  {
    assert ClearedBy(calls - {call}, upto) == ClearedBy(calls, upto) - {call};
    if calls[call].cleared.value <= upto {
      CardRemove(ClearedBy(calls, upto), call);
    } else {
      assert ClearedBy(calls, upto) - {call} == ClearedBy(calls, upto);
    }
  }

  lemma ClearedGrow(calls: map<Id, Call>, a: nat, b: nat)
    requires a <= b
    ensures |ClearedBy(calls, a)| <= |ClearedBy(calls, b)|
  {
    CardSubset(ClearedBy(calls, a), ClearedBy(calls, b));
  }

  lemma OneResendLess(calls: map<Id, Call>, call: Id)
    requires call in calls && calls[call].Resending?
    ensures |Resends(calls - {call})| == |Resends(calls)| - 1
  {
    assert Resends(calls - {call}) == Resends(calls) - {call};
    CardRemove(Resends(calls), call);
  }

  lemma InsertFits(r: Racing, step: Step, n: nat, now: Time, from: nat)
    requires SoundRace(r, now) && PendingFit(r, n) && step.Insert? && Next(r, step) != r
    requires |Resends(r.calls)| <= n && from <= |r.acc.value.codes| + 1
    ensures |PendingFrom(Next(r, step).acc.value.codes, from)| + |ClearedBy(Next(r, step).calls, from)| <= n
  {
    var a, call := r.acc.value, step.call;
    var seen := r.calls[call].cleared.value;
    assert SoundCall(a, r.calls[call], now);
    assert Next(r, step).calls == r.calls - {call};
    InsertPending(a.codes, seen, step.now, NewCode(step.code, step.now), from);
    OneCleared(r.calls, call, from);
    if from > |a.codes| {
      OneResendLess(r.calls, call);
      ClearedWithin(r.calls - {call}, from);
    } else if seen > from {
      OneCleared(r.calls, call, seen);
      ClearedGrow(r.calls - {call}, from, seen);
    }
  }

  lemma OtherFits(r: Racing, step: Step, n: nat, now: Time, from: nat)
    requires SoundRace(r, now) && PendingFit(r, n) && r.acc.Some? && !step.Insert?
    requires |Resends(Next(r, step).calls)| <= n && from <= |r.acc.value.codes|
    ensures Next(r, step).acc.Some? && |Next(r, step).acc.value.codes| == |r.acc.value.codes|
    ensures |PendingFrom(Next(r, step).acc.value.codes, from)| + |ClearedBy(Next(r, step).calls, from)| <= n
  {
    var a, r' := r.acc.value, Next(r, step);
    assert PendingFrom(r'.acc.value.codes, from) <= PendingFrom(a.codes, from);
    CardSubset(PendingFrom(r'.acc.value.codes, from), PendingFrom(a.codes, from));
    if from == |a.codes| {
      assert PendingFrom(r'.acc.value.codes, from) == {};
      ClearedWithin(r'.calls, from);
    } else {
      assert ClearedBy(r'.calls, from) <= ClearedBy(r.calls, from);
      CardSubset(ClearedBy(r'.calls, from), ClearedBy(r.calls, from));
    }
  }

  lemma {:induction false} PendingFits(steps: seq<Step>, m: nat, n: nat)
    requires Timely(steps) && AtMost(steps, m, n) && n >= 1
    ensures PendingFit(Race(steps), n)
  {
    if steps != [] {
      var k := |steps| - 1;
      var r, r' := Race(steps[..k]), Race(steps);
      PendingFits(steps[..k], m, n);
      RaceSound(steps[..k], steps[k].now);
      if r.acc.Some? {
        forall from: nat | r'.acc.Some? && from <= |r'.acc.value.codes|
          ensures |PendingFrom(r'.acc.value.codes, from)| + |ClearedBy(r'.calls, from)| <= n
        {
          if steps[k].Insert? && r' != r {
            InsertFits(r, steps[k], n, steps[k].now, from);
          } else if !steps[k].Insert? {
            OtherFits(r, steps[k], n, steps[k].now, from);
          }
        }
      } else if r'.acc.Some? {
        forall from: nat | from <= 1 ensures |PendingFrom(r'.acc.value.codes, from)| + |ClearedBy(r'.calls, from)| <= n {
          assert ClearedBy(r'.calls, from) == {};
          assert PendingFrom(r'.acc.value.codes, from) == if from == 0 then {0} else {};
        }
      }
    }
  }

  // With at most n resends in flight, at most n codes are pending at any time.
  lemma PendingAtMost(steps: seq<Step>, m: nat, n: nat)
    requires Timely(steps) && AtMost(steps, m, n) && n >= 1 && Race(steps).acc.Some?
    ensures |PendingFrom(Race(steps).acc.value.codes, 0)| <= n
  {
    PendingFits(steps, m, n);
  }
}
