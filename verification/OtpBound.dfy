// How many wrong guesses an account can take in an interval when guesses and resends overlap.
module OtpBound {
  import opened Common
  import opened Spacing
  import opened Otp
  import opened OtpRace

  // ---------- issues ----------

  // Codes from row i on issued within a throttle of row i.
  function Near(codes: seq<Code>, i: nat): set<nat>
    requires i < |codes|
  {
    set j | i <= j < |codes| && codes[j].created < codes[i].created + THROTTLE
  }

  // Resends that passed the throttle when at most `upto` codes existed.
  function BegunBy(calls: map<Id, Call>, upto: nat): set<Id> {
    set c | c in calls && calls[c].Resending? && calls[c].began <= upto
  }

  ghost predicate NearFit(r: Racing, n: nat) {
    r.acc.Some? ==>
      forall i: nat :: i < |r.acc.value.codes| ==> |Near(r.acc.value.codes, i)| + |BegunBy(r.calls, i)| <= n
  }

  lemma NearAppended(codes: seq<Code>, codes': seq<Code>, i: nat)
    requires |codes'| == |codes| + 1 && i <= |codes|
    requires forall j :: 0 <= j < |codes| ==> codes'[j].created == codes[j].created
    ensures |Near(codes', i)| == (if i < |codes| then |Near(codes, i)| else 0)
              + if i == |codes| || codes'[|codes|].created < codes'[i].created + THROTTLE then 1 else 0
  {
    var k := |codes|;
    if i == k {
      assert Near(codes', i) == {k};
    } else if codes'[k].created < codes'[i].created + THROTTLE {
      assert Near(codes', i) == Near(codes, i) + {k};
    } else {
      assert Near(codes', i) == Near(codes, i);
    }
  }

  lemma OneBegun(calls: map<Id, Call>, call: Id, upto: nat)
    requires call in calls && calls[call].Resending?
    ensures |BegunBy(calls - {call}, upto)| == |BegunBy(calls, upto)| - if calls[call].began <= upto then 1 else 0
  {
    assert BegunBy(calls - {call}, upto) == BegunBy(calls, upto) - {call};
    if calls[call].began <= upto {
      CardRemove(BegunBy(calls, upto), call);
    } else {
      assert BegunBy(calls, upto) - {call} == BegunBy(calls, upto);
    }
  }

  // The rows after a resend's insert, and the calls left in flight.
  lemma InsertRows(r: Racing, step: Step)
    requires r.acc.Some? && step.Insert? && Next(r, step) != r
    ensures step.call in r.calls && r.calls[step.call].Resending? && Next(r, step).calls == r.calls - {step.call}
    ensures Next(r, step).acc.Some?
    ensures var codes, codes' := r.acc.value.codes, Next(r, step).acc.value.codes;
            && |codes'| == |codes| + 1 && codes'[|codes|].created == step.now
            && forall j :: 0 <= j < |codes| ==> codes'[j].created == codes[j].created
  {
    var k := |r.acc.value.codes|;
    assert Next(r, step).acc.value.codes[k] == NewCode(step.code, step.now);
  }

  lemma InsertNear(r: Racing, step: Step, n: nat, now: Time, i: nat)
    requires SoundRace(r, now) && NearFit(r, n) && r.acc.Some? && step.Insert? && Next(r, step) != r && now <= step.now
    requires |Resends(r.calls)| <= n && i <= |r.acc.value.codes|
    ensures Next(r, step).acc.Some? && i < |Next(r, step).acc.value.codes|
    ensures |Near(Next(r, step).acc.value.codes, i)| + |BegunBy(Next(r, step).calls, i)| <= n
  {
    InsertRows(r, step);
    PassedLater(r, step.call, now, i);
    hide Next, Near, BegunBy, Resends, SoundRace;
    NearAppended(r.acc.value.codes, Next(r, step).acc.value.codes, i);
    OneBegun(r.calls, step.call, i);
    if i == |r.acc.value.codes| {
      OneResendLess(r.calls, step.call);
      BegunResend(r.calls - {step.call}, i);
    }
  }

  // A resend that passed the throttle after row i was there did so a throttle after it.
  lemma PassedLater(r: Racing, call: Id, now: Time, i: nat)
    requires SoundRace(r, now) && r.acc.Some? && call in r.calls && r.calls[call].Resending?
    ensures i < |r.acc.value.codes| && r.calls[call].began > i ==> now >= r.acc.value.codes[i].created + THROTTLE
    ensures r.calls[call].began <= |r.acc.value.codes|
  {
    var a, c := r.acc.value, r.calls[call];
    assert SoundCall(a, c, now);
    if i < |a.codes| && c.began > i {
      assert a.codes[i].created <= a.codes[c.began - 1].created;
    }
  }

  lemma BegunResend(calls: map<Id, Call>, upto: nat)
    ensures |BegunBy(calls, upto)| <= |Resends(calls)|
  {
    CardSubset(BegunBy(calls, upto), Resends(calls));
  }

  lemma SameRows(r: Racing, step: Step)
    requires r.acc.Some? && !step.Insert?
    ensures Next(r, step).acc.Some? && |Next(r, step).acc.value.codes| == |r.acc.value.codes|
  {
    hide VerifyAll, LatestPending;
  }

  lemma OtherNear(r: Racing, step: Step, n: nat, now: Time, i: nat)
    requires SoundRace(r, now) && NearFit(r, n) && r.acc.Some? && !step.Insert? && now <= step.now && i < |r.acc.value.codes|
    ensures Next(r, step).acc.Some? && i < |Next(r, step).acc.value.codes|
    ensures |Near(Next(r, step).acc.value.codes, i)| + |BegunBy(Next(r, step).calls, i)| <= n
  {
    hide Settled, Reissued, SoundAccount, LatestPending;
    var a, r' := r.acc.value, Next(r, step);
    AccountStep(r, step, now);
    SameRows(r, step);
    assert Near(r'.acc.value.codes, i) == Near(a.codes, i);
    assert BegunBy(r'.calls, i) == BegunBy(r.calls, i);
  }

  lemma {:induction false} NearFits(steps: seq<Step>, m: nat, n: nat)
    requires Timely(steps) && AtMost(steps, m, n) && n >= 1
    ensures NearFit(Race(steps), n)
  {
    if steps != [] {
      var k := |steps| - 1;
      var r, r' := Race(steps[..k]), Race(steps);
      NearFits(steps[..k], m, n);
      RaceSound(steps[..k], steps[k].now);
      if r.acc.Some? {
        forall i: nat | r'.acc.Some? && i < |r'.acc.value.codes|
          ensures |Near(r'.acc.value.codes, i)| + |BegunBy(r'.calls, i)| <= n
        {
          if steps[k].Insert? && r' != r {
            InsertNear(r, steps[k], n, steps[k].now, i);
          } else if !steps[k].Insert? {
            OtherNear(r, steps[k], n, steps[k].now, i);
          }
        }
      } else if r'.acc.Some? {
        assert BegunBy(r'.calls, 0) == {};
        assert Near(r'.acc.value.codes, 0) == {0};
      }
    }
  }

  function IssuesOf(r: Racing): seq<Time> {
    if r.acc.None? then [] else Issues(r.acc.value.codes)
  }

  // With at most n resends in flight, n + 1 consecutive issues span at least a throttle.
  lemma IssuesSpread(steps: seq<Step>, m: nat, n: nat)
    requires Timely(steps) && AtMost(steps, m, n) && n >= 1
    ensures Spread(IssuesOf(Race(steps)), n, THROTTLE)
  {
    var r := Race(steps);
    NearFits(steps, m, n);
    if steps != [] {
      RaceSound(steps, steps[|steps| - 1].now);
    }
    if r.acc.Some? {
      var codes := r.acc.value.codes;
      hide Race, AtMost;
      forall i | 0 <= i && i + n < |codes| ensures codes[i + n].created >= codes[i].created + THROTTLE {
        FewNear(codes, i, n);
      }
    }
  }

  lemma FewNear(codes: seq<Code>, i: nat, n: nat)
    requires i + n < |codes| && |Near(codes, i)| <= n
    requires forall j, k :: 0 <= j < k < |codes| ==> codes[j].created <= codes[k].created
    ensures codes[i + n].created >= codes[i].created + THROTTLE
  {
    if codes[i + n].created < codes[i].created + THROTTLE {
      assert Range(i, n + 1) <= Near(codes, i);
      CardSubset(Range(i, n + 1), Near(codes, i));
    }
  }

  function Range(from: nat, n: nat): (r: set<nat>)
    ensures |r| == n && forall j :: j in r <==> from <= j < from + n
  {
    if n == 0 then {} else Range(from, n - 1) + {from + n - 1}
  }

  // ---------- the guess bound ----------

  // Wrong comparisons in [lo, hi).
  function WrongIn(steps: seq<Step>, lo: Time, hi: Time): nat {
    if steps == [] then 0
    else
      var n := |steps| - 1;
      WrongIn(steps[..n], lo, hi) + Wrong(Race(steps[..n]), steps[n], lo, hi)
  }

  // Whether a step compares a wrong guess in [lo, hi).
  function Wrong(r: Racing, step: Step, lo: Time, hi: Time): nat {
    if lo <= step.now < hi && ComparesWrong(r, step) then 1 else 0
  }

  // What the newest code may still take, if it was issued in time to take any before hi.
  function Slack(r: Racing, cap: nat, hi: Time): int {
    if r.acc.None? || r.acc.value.verified || r.acc.value.codes == [] then 0
    else
      var i := |r.acc.value.codes| - 1;
      if r.acc.value.codes[i].created >= hi then 0 else cap - Tries(r, i)
  }

  lemma {:induction false} WrongNeedsTime(steps: seq<Step>, lo: Time, hi: Time)
    requires Timely(steps) && (steps != [] ==> steps[|steps| - 1].now < lo)
    ensures WrongIn(steps, lo, hi) == 0
  {
    if steps != [] {
      var n := |steps| - 1;
      assert n > 0 ==> steps[n - 1].now <= steps[n].now;
      WrongNeedsTime(steps[..n], lo, hi);
    }
  }

  lemma IssuesAppended(codes: seq<Code>, codes': seq<Code>, lo: Time, hi: Time)
    requires |codes'| == |codes| + 1 && forall j :: 0 <= j < |codes| ==> codes'[j].created == codes[j].created
    ensures CountIn(Issues(codes'), lo, hi) == CountIn(Issues(codes), lo, hi) + if lo <= codes'[|codes|].created < hi then 1 else 0
  {
    assert Issues(codes')[..|codes|] == Issues(codes);
  }

  lemma SlackAtMost(r: Racing, cap: nat, hi: Time)
    requires r.acc.Some? && r.acc.value.codes != []
    ensures Slack(r, cap, hi) <= if r.acc.value.codes[|r.acc.value.codes| - 1].created >= hi then 0 else cap
  {
  }

  // A resend's insert opens a new budget and is counted as an issue.
  lemma InsertSlack(r: Racing, step: Step, cap: nat, lo: Time, hi: Time)
    requires r.acc.Some? && step.Insert? && Next(r, step) != r
    ensures var r' := Next(r, step);
            && CountIn(IssuesOf(r'), lo, hi) == CountIn(IssuesOf(r), lo, hi) + (if lo <= step.now < hi then 1 else 0)
            && Slack(r', cap, hi) <= if step.now >= hi then 0 else cap
  {
    InsertRows(r, step);
    hide Next, Slack, Issues;
    IssuesAppended(r.acc.value.codes, Next(r, step).acc.value.codes, lo, hi);
    SlackAtMost(Next(r, step), cap, hi);
  }

  lemma VerifiedStays(r: Racing, step: Step)
    requires r.acc.Some?
    ensures Next(r, step).acc.Some? && (r.acc.value.verified ==> Next(r, step).acc.value.verified)
  {
    hide VerifyAll, LatestPending;
  }

  // Any other step pays for its wrong comparison out of the newest code's budget.
  lemma OtherSlack(r: Racing, step: Step, now: Time, cap: nat, lo: Time, hi: Time)
    requires SoundRace(r, now) && now <= step.now && r.acc.Some? && !step.Insert?
    requires Tries(r, |r.acc.value.codes| - 1) <= cap
    ensures var r' := Next(r, step);
            && IssuesOf(r') == IssuesOf(r)
            && (if step.now < hi && ComparesWrong(r, step) then 1 else 0) + Slack(r', cap, hi) <= Slack(r, cap, hi)
  {
    hide Settled, Reissued, LatestPending, Tries, SoundCall;
    var r' := Next(r, step);
    AccountStep(r, step, now);
    SameRows(r, step);
    TriesStep(r, step, now, |r.acc.value.codes| - 1);
    VerifiedStays(r, step);
    hide Next;
    assert IssuesOf(r') == IssuesOf(r);
    if ComparesWrong(r, step) {
      TargetIsLast(r, now);
    }
  }

  // Sound, ordered and within the limits on calls in flight: what a step may rely on.
  ghost predicate Fit(r: Racing, now: Time, m: nat) {
    && SoundRace(r, now)
    && (r.acc.Some? ==> Tries(r, |r.acc.value.codes| - 1) <= MAX_ATTEMPTS + m - 1)
  }

  // Wrong comparisons so far, and the newest code's remaining budget, are covered by the issues.
  ghost predicate Covered(r: Racing, wrong: nat, cap: nat, lo: Time, hi: Time) {
    wrong + Slack(r, cap, hi) <= cap * (CountIn(IssuesOf(r), lo, hi) + 1)
  }

  lemma PaidStep(r: Racing, step: Step, m: nat, lo: Time, hi: Time, wrong: nat)
    requires Fit(r, step.now, m) && m >= 1 && r.acc.Some?
    requires step.now < lo ==> wrong == 0
    requires Covered(r, wrong, MAX_ATTEMPTS + m - 1, lo, hi)
    ensures Covered(Next(r, step), wrong + Wrong(r, step, lo, hi), MAX_ATTEMPTS + m - 1, lo, hi)
  {
    var cap, r' := MAX_ATTEMPTS + m - 1, Next(r, step);
    if step.Insert? && r' != r {
      InsertPaid(r, step, cap, lo, hi, wrong);
    } else if !step.Insert? {
      OtherSlack(r, step, step.now, cap, lo, hi);
      hide Slack, IssuesOf, Next, ComparesWrong, Fit, CountIn;
    }
  }

  lemma InsertPaid(r: Racing, step: Step, cap: nat, lo: Time, hi: Time, wrong: nat)
    requires r.acc.Some? && r.acc.value.codes != [] && step.Insert? && Next(r, step) != r
    requires Tries(r, |r.acc.value.codes| - 1) <= cap && (step.now < lo ==> wrong == 0)
    requires Covered(r, wrong, cap, lo, hi)
    ensures Covered(Next(r, step), wrong + Wrong(r, step, lo, hi), cap, lo, hi)
  {
    hide Slack, IssuesOf, Next, Tries, CountIn, Wrong;
    InsertSlack(r, step, cap, lo, hi);
    SlackNonNegative(r, cap, hi);
    InsertIsNoGuess(r, step, lo, hi);
    var slack, slack' := Slack(r, cap, hi), Slack(Next(r, step), cap, hi);
    var issues := CountIn(IssuesOf(r), lo, hi);
    Budget(wrong, slack, slack', cap, issues, step.now, lo, hi);
  }

  lemma InsertIsNoGuess(r: Racing, step: Step, lo: Time, hi: Time)
    requires step.Insert?
    ensures Wrong(r, step, lo, hi) == 0
  {
  }

  lemma Budget(wrong: nat, slack: nat, slack': int, cap: nat, issues: nat, now: Time, lo: Time, hi: Time)
    requires wrong + slack <= cap * (issues + 1) && (now < lo ==> wrong == 0) && slack' <= if now >= hi then 0 else cap
    ensures wrong + slack' <= cap * (issues + (if lo <= now < hi then 1 else 0) + 1)
  {
    MorePaid(cap, issues);
  }

  lemma SlackNonNegative(r: Racing, cap: nat, hi: Time)
    requires r.acc.Some? && r.acc.value.codes != [] ==> Tries(r, |r.acc.value.codes| - 1) <= cap
    ensures Slack(r, cap, hi) >= 0
  {
  }

  lemma {:induction false} PaidByIssues(steps: seq<Step>, m: nat, n: nat, lo: Time, hi: Time)
    requires Timely(steps) && AtMost(steps, m, n) && m >= 1
    ensures Covered(Race(steps), WrongIn(steps, lo, hi), MAX_ATTEMPTS + m - 1, lo, hi)
  {
    hide Slack, Next, IssuesOf, Fit, Compares, ComparesWrong, Covered, CountIn;
    if steps == [] {
      NothingPaid(MAX_ATTEMPTS + m - 1, lo, hi);
    } else {
      var k := |steps| - 1;
      var init, step := steps[..k], steps[k];
      FitPrefix(steps, m, n);
      if Race(init).acc.Some? {
        PaidByIssues(init, m, n, lo, hi);
        if step.now < lo {
          EarlierThan(steps);
          WrongNeedsTime(init, lo, hi);
        }
        PaidStep(Race(init), step, m, lo, hi, WrongIn(init, lo, hi));
      } else {
        WrongBeforeAccount(init, lo, hi);
        FirstPaid(Race(init), step, MAX_ATTEMPTS + m - 1, lo, hi);
      }
    }
  }

  lemma NothingPaid(cap: nat, lo: Time, hi: Time)
    ensures Covered(START, 0, cap, lo, hi)
  {
    MorePaid(cap, 0);
  }

  lemma FirstPaid(r: Racing, step: Step, cap: nat, lo: Time, hi: Time)
    requires r.acc.None? && r.calls == map[]
    ensures !ComparesWrong(r, step) && Covered(Next(r, step), 0, cap, lo, hi)
  {
    FirstSlack(r, step, cap, lo, hi);
    hide Slack, Next, IssuesOf, CountIn;
    MorePaid(cap, CountIn(IssuesOf(Next(r, step)), lo, hi));
  }

  lemma EarlierThan(steps: seq<Step>)
    requires Timely(steps) && steps != []
    ensures |steps| > 1 ==> steps[|steps| - 2].now <= steps[|steps| - 1].now
  {
  }

  lemma FirstCode(r: Racing, now: Time)
    requires SoundRace(r, now) && r.acc.Some?
    ensures r.acc.value.codes != []
  {
  }

  lemma FitPrefix(steps: seq<Step>, m: nat, n: nat)
    requires Timely(steps) && AtMost(steps, m, n) && m >= 1 && steps != []
    ensures var r := Race(steps[..|steps| - 1]);
            Fit(r, steps[|steps| - 1].now, m) && (r.acc.None? ==> r.calls == map[])
  {
    var k := |steps| - 1;
    RaceSound(steps[..k], steps[k].now);
    hide Next, Tries, SoundAccount, SoundCall;
    if Race(steps[..k]).acc.Some? {
      FirstCode(Race(steps[..k]), steps[k].now);
      LastWithin(steps[..k], m, n, steps[k].now);
    }
  }

  lemma LastWithin(steps: seq<Step>, m: nat, n: nat, now: Time)
    requires Timely(steps) && AtMost(steps, m, n) && m >= 1 && (steps != [] ==> steps[|steps| - 1].now <= now)
    requires Race(steps).acc.Some? && Race(steps).acc.value.codes != []
    ensures var i := |Race(steps).acc.value.codes| - 1;
            0 <= Tries(Race(steps), i) <= MAX_ATTEMPTS + m - 1
  {
    var i := |Race(steps).acc.value.codes| - 1;
    TriesPerCode(steps, m, n, i);
    TriesCounted(steps, i, now);
  }

  lemma MorePaid(cap: nat, issues: nat)
    ensures cap * (issues + 2) == cap * (issues + 1) + cap && cap * (issues + 1) >= cap
  {
    assert cap * (issues + 1) == cap * issues + cap;
  }

  lemma FirstSlack(r: Racing, step: Step, cap: nat, lo: Time, hi: Time)
    requires r.acc.None? && r.calls == map[]
    ensures Slack(Next(r, step), cap, hi) <= cap && !ComparesWrong(r, step)
    ensures CountIn(IssuesOf(Next(r, step)), lo, hi) >= 0
  {
  }

  // No account, no comparison.
  lemma {:induction false} WrongBeforeAccount(steps: seq<Step>, lo: Time, hi: Time)
    requires Race(steps).acc.None?
    ensures WrongIn(steps, lo, hi) == 0
  {
    if steps != [] {
      WrongBeforeAccount(steps[..|steps| - 1], lo, hi);
    }
  }

  // Under every interleaving with at most m guesses and n resends of one account in flight, any
  // interval of length T evaluates at most (5 + m - 1) * (n * ceil(T / 60s) + 1) wrong codes.
  lemma GuessBoundInFlight(steps: seq<Step>, m: nat, n: nat, lo: Time, length: nat)
    requires Timely(steps) && AtMost(steps, m, n) && m >= 1 && n >= 1
    ensures WrongIn(steps, lo, lo + length) <= (MAX_ATTEMPTS + m - 1) * (n * CeilDiv(length, THROTTLE) + 1)
  {
    hide Race, WrongIn, CountIn, AtMost, Slack, IssuesOf, CeilDiv;
    var cap, hi, r := MAX_ATTEMPTS + m - 1, lo + length, Race(steps);
    PaidByIssues(steps, m, n, lo, hi);
    SlackIsOwed(steps, m, n, hi);
    IssuesFew(steps, m, n, lo, length);
    TimesMonotone(cap, CountIn(IssuesOf(r), lo, hi) + 1, n * CeilDiv(length, THROTTLE) + 1);
  }

  lemma IssuesFew(steps: seq<Step>, m: nat, n: nat, lo: Time, length: nat)
    requires Timely(steps) && AtMost(steps, m, n) && n >= 1
    ensures CountIn(IssuesOf(Race(steps)), lo, lo + length) <= n * CeilDiv(length, THROTTLE)
  {
    hide AtMost, CountIn, Next, CeilDiv;
    IssuesSpread(steps, m, n);
    if steps != [] {
      RaceSound(steps, steps[|steps| - 1].now);
    }
    AtMostPerWindow(IssuesOf(Race(steps)), n, THROTTLE, lo, length);
  }

  lemma SlackIsOwed(steps: seq<Step>, m: nat, n: nat, hi: Time)
    requires Timely(steps) && AtMost(steps, m, n) && m >= 1
    ensures Slack(Race(steps), MAX_ATTEMPTS + m - 1, hi) >= 0
  {
    if steps != [] && Race(steps).acc.Some? && Race(steps).acc.value.codes != [] {
      LastWithin(steps, m, n, steps[|steps| - 1].now);
    }
  }

  lemma TimesMonotone(a: nat, m: nat, k: nat)
    requires m <= k
    ensures a * m <= a * k
  {
  }
}
