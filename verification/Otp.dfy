// Email verification codes: one account's codes and links, and how many wrong guesses it can take.
module Otp {
  import opened Common
  import opened Spacing

  const SECOND: Time := 1000000000   // nanoseconds
  const OTP_TTL: Time := 600 * SECOND
  const LINK_TTL: Time := 86400 * SECOND
  const THROTTLE: nat := 60000000000
  const MAX_ATTEMPTS: nat := 5

  datatype Code = Code(hash: string, expires: Time, attempts: nat, consumed: Option<Time>, created: Time)
  datatype Link = Link(hash: string, expires: Time, verified: Option<Time>, created: Time)

  // The rows of one user, in order of creation.
  datatype Account = Account(verified: bool, codes: seq<Code>, links: seq<Link>)

  datatype OtpError = UserExists | InvalidToken | TokenUsed | AttemptsExceeded | TooManyRequests

  // The newest code not consumed.
  function LatestPending(codes: seq<Code>): (r: Option<nat>)
    ensures r.Some? ==> r.value < |codes| && codes[r.value].consumed.None?
  {
    if codes == [] then None
    else if codes[|codes| - 1].consumed.None? then Some(|codes| - 1)
    else LatestPending(codes[..|codes| - 1])
  }

  function ConsumeAll(codes: seq<Code>, now: Time): (r: seq<Code>)
    ensures |r| == |codes|
    ensures forall i :: 0 <= i < |r| ==>
      r[i] == if codes[i].consumed.None? then codes[i].(consumed := Some(now)) else codes[i]
  {
    seq(|codes|, i requires 0 <= i < |codes| =>
      if codes[i].consumed.None? then codes[i].(consumed := Some(now)) else codes[i])
  }

  function VerifyAll(links: seq<Link>, now: Time): (r: seq<Link>)
    ensures |r| == |links|
    ensures forall i :: 0 <= i < |r| ==>
      r[i] == if links[i].verified.None? then links[i].(verified := Some(now)) else links[i]
  {
    seq(|links|, i requires 0 <= i < |links| =>
      if links[i].verified.None? then links[i].(verified := Some(now)) else links[i])
  }

  function FindLink(links: seq<Link>, hash: string): (r: Option<nat>)
    ensures r.Some? ==> r.value < |links| && links[r.value].hash == hash
  {
    if links == [] then None
    else if links[|links| - 1].hash == hash then Some(|links| - 1)
    else FindLink(links[..|links| - 1], hash)
  }

  function NewCode(hash: string, now: Time): Code {
    Code(hash, now + OTP_TTL, 0, None, now)
  }

  function NewLink(hash: string, now: Time): Link {
    Link(hash, now + LINK_TTL, None, now)
  }

  datatype Event =
    | Register(code: string, link: string, now: Time)
    | Guess(guess: string, now: Time)          // VerifyByCode, with the hash of the code presented
    | FollowLink(token: string, now: Time)     // VerifyEmail, with the hash of the token presented
    | Resend(code: string, link: string, now: Time)

  // The guess is compared with the pending code and found wrong.
  predicate WrongGuess(a: Option<Account>, e: Event) {
    && e.Guess? && a.Some? && !a.value.verified
    && var i := LatestPending(a.value.codes);
       && i.Some?
       && var c := a.value.codes[i.value];
          e.now <= c.expires && c.attempts < MAX_ATTEMPTS && e.guess != c.hash
  }

  function Guessed(a: Account, guess: string, now: Time): (Account, Reply<(), OtpError>) {
    if a.verified then (a, Ok(()))
    else match LatestPending(a.codes) {
      case None => (a, Err(InvalidToken))
      case Some(i) =>
        var c := a.codes[i];
        if now > c.expires || c.attempts >= MAX_ATTEMPTS then (a, Err(InvalidToken))
        else if guess != c.hash then
          (a.(codes := a.codes[i := c.(attempts := c.attempts + 1)]),
           Err(if c.attempts + 1 >= MAX_ATTEMPTS then AttemptsExceeded else InvalidToken))
        else
          (Account(true, a.codes[i := c.(consumed := Some(now))], VerifyAll(a.links, now)), Ok(()))
    }
  }

  function Followed(a: Account, token: string, now: Time): (Account, Reply<(), OtpError>) {
    match FindLink(a.links, token)
    case None => (a, Err(InvalidToken))
    case Some(i) =>
      var v := a.links[i];
      if v.verified.Some? then (a, Err(TokenUsed))
      else if now > v.expires then (a, Err(InvalidToken))
      else (a.(verified := true, links := a.links[i := v.(verified := Some(now))]), Ok(()))
  }

  function Resent(a: Account, code: string, link: string, now: Time): (Account, Reply<(), OtpError>) {
    if a.verified then (a, Ok(()))
    else if a.links != [] && now - a.links[|a.links| - 1].created < THROTTLE then (a, Err(TooManyRequests))
    else
      (a.(codes := ConsumeAll(a.codes, now) + [NewCode(code, now)], links := VerifyAll(a.links, now) + [NewLink(link, now)]),
       Ok(()))
  }

  // An unknown user: guesses and links are refused, a resend pretends success.
  function Step(a: Option<Account>, e: Event): (Option<Account>, Reply<(), OtpError>) {
    match e {
      case Register(code, link, now) =>
        if a.Some? then (a, Err(UserExists)) else (Some(Account(false, [NewCode(code, now)], [NewLink(link, now)])), Ok(()))
      case Guess(guess, now) =>
        if a.None? then (a, Err(InvalidToken)) else (Some(Guessed(a.value, guess, now).0), Guessed(a.value, guess, now).1)
      case FollowLink(token, now) =>
        if a.None? then (a, Err(InvalidToken)) else (Some(Followed(a.value, token, now).0), Followed(a.value, token, now).1)
      case Resend(code, link, now) =>
        if a.None? then (a, Ok(())) else (Some(Resent(a.value, code, link, now).0), Resent(a.value, code, link, now).1)
    }
  }

  function History(es: seq<Event>): Option<Account> {
    if es == [] then None else Step(History(es[..|es| - 1]), es[|es| - 1]).0
  }

  // ---------- what every history keeps ----------

  predicate InOrder(es: seq<Event>) {
    forall i, j :: 0 <= i < j < |es| ==> es[i].now <= es[j].now
  }

  function Issues(codes: seq<Code>): (r: seq<Time>)
    ensures |r| == |codes| && forall i :: 0 <= i < |r| ==> r[i] == codes[i].created
  {
    seq(|codes|, i requires 0 <= i < |codes| => codes[i].created)
  }

  // Only the newest code can be pending; none was tried too often; issues are a throttle apart, each
  // with a link created beside it.
  ghost predicate Sound(a: Account, now: Time) {
    && a.codes != [] && |a.links| == |a.codes|
    && (forall i :: 0 <= i < |a.codes| ==> a.links[i].created == a.codes[i].created <= now)
    && (forall i :: 0 <= i < |a.codes| - 1 ==> a.codes[i].consumed.Some?)
    && (forall i :: 0 <= i < |a.codes| ==> a.codes[i].attempts <= MAX_ATTEMPTS)
    && Spaced(Issues(a.codes), THROTTLE)
  }

  lemma NewestPending(a: Account, now: Time)
    requires Sound(a, now)
    ensures LatestPending(a.codes) == if a.codes[|a.codes| - 1].consumed.None? then Some(|a.codes| - 1) else None
  {
    if a.codes[|a.codes| - 1].consumed.Some? {
      NonePending(a.codes);
    }
  }

  lemma {:induction false} NonePending(codes: seq<Code>)
    requires forall i :: 0 <= i < |codes| ==> codes[i].consumed.Some?
    ensures LatestPending(codes) == None
  {
    if codes != [] {
      NonePending(codes[..|codes| - 1]);
    }
  }

  // Changing codes and links in place, without taking a stamp back.
  ghost predicate InPlace(a: Account, a': Account) {
    && |a'.codes| == |a.codes| && |a'.links| == |a.links|
    && (forall i :: 0 <= i < |a.codes| ==>
          a'.codes[i].created == a.codes[i].created && (a.codes[i].consumed.Some? ==> a'.codes[i].consumed.Some?)
          && a'.codes[i].attempts <= MAX_ATTEMPTS)
    && (forall i :: 0 <= i < |a.links| ==> a'.links[i].created == a.links[i].created)
  }

  lemma InPlaceSound(a: Account, a': Account, now: Time, later: Time)
    requires Sound(a, now) && now <= later && InPlace(a, a')
    ensures Sound(a', later)
  {
    assert Issues(a'.codes) == Issues(a.codes);
  }

  lemma ResentSound(a: Account, now: Time, code: string, link: string, at: Time)
    requires Sound(a, now) && now <= at
    ensures Sound(Resent(a, code, link, at).0, at)
  {
    var a' := Resent(a, code, link, at).0;
    if a' == a {
      InPlaceSound(a, a, now, at);
    } else {
      var n := |a.codes|;
      assert a'.codes[n] == NewCode(code, at) && a'.links[n] == NewLink(link, at);
      assert a.links[n - 1].created == a.codes[n - 1].created;
      forall i | 0 < i <= n ensures Issues(a'.codes)[i - 1] + THROTTLE <= Issues(a'.codes)[i] {
        assert i < n ==> Issues(a.codes)[i - 1] + THROTTLE <= Issues(a.codes)[i];
      }
    }
  }

  lemma StepSound(a: Account, now: Time, e: Event)
    requires Sound(a, now) && now <= e.now
    ensures Step(Some(a), e).0.Some? && Sound(Step(Some(a), e).0.value, e.now)
  {
    if e.Resend? {
      ResentSound(a, now, e.code, e.link, e.now);
    } else {
      InPlaceSound(a, Step(Some(a), e).0.value, now, e.now);
    }
  }

  lemma {:induction false} HistorySound(es: seq<Event>)
    requires InOrder(es) && History(es).Some?
    ensures Sound(History(es).value, es[|es| - 1].now)
  {
    var n := |es| - 1;
    if History(es[..n]).Some? {
      HistorySound(es[..n]);
      StepSound(History(es[..n]).value, es[n - 1].now, es[n]);
    }
  }

  // At most one code is pending at any time, and no code is found wrong more than five times.
  lemma OnePendingCode(es: seq<Event>)
    requires InOrder(es) && History(es).Some?
    ensures var codes := History(es).value.codes;
            && (forall i, j :: 0 <= i < |codes| && 0 <= j < |codes| && codes[i].consumed.None? && codes[j].consumed.None? ==> i == j)
            && (forall i :: 0 <= i < |codes| ==> codes[i].attempts <= MAX_ATTEMPTS)
            && Spaced(Issues(codes), THROTTLE)
  {
    HistorySound(es);
  }

  // ---------- success ----------

  // A guess verifies an account exactly when it is the pending code, in time and with tries left;
  // then no code is pending and every link is used up.
  lemma CodeVerifiesIff(es: seq<Event>, guess: string, now: Time)
    requires InOrder(es) && History(es).Some? && !History(es).value.verified
    ensures History(es).value.codes != []
    ensures var a := History(es).value;
            var newest := a.codes[|a.codes| - 1];
            var a' := Guessed(a, guess, now).0;
            && (a'.verified <==> newest.consumed.None? && guess == newest.hash && now <= newest.expires && newest.attempts < MAX_ATTEMPTS)
            && (a'.verified ==> LatestPending(a'.codes).None? && forall i :: 0 <= i < |a'.links| ==> a'.links[i].verified.Some?)
  {
    HistorySound(es);
    var a := History(es).value;
    NewestPending(a, es[|es| - 1].now);
    var a' := Guessed(a, guess, now).0;
    if a'.verified {
      NonePending(a'.codes);
    }
  }

  // A verified account stays verified and takes no further code; nothing it is sent changes its codes.
  lemma VerifiedIsFinal(a: Account, e: Event)
    requires a.verified
    ensures var (a', r) := Step(Some(a), e);
            && a'.Some? && a'.value.verified && a'.value.codes == a.codes && !WrongGuess(Some(a), e)
            && (e.Guess? || e.Resend? ==> a' == Some(a) && r.Ok?)
  {
  }

  // A new account's code verifies for ten minutes, its link for a day, and no other is sent for a minute.
  lemma NewAccountLife(code: string, link: string, at: Time, now: Time, code': string, link': string)
    ensures var a := Step(None, Register(code, link, at)).0.value;
            && (Guessed(a, code, now).0.verified <==> now <= at + 600000000000)
            && (Followed(a, link, now).0.verified <==> now <= at + 86400000000000)
            && (Resent(a, code', link', now).1 == Err(TooManyRequests) <==> now - at < 60000000000)
  {
  }

  // The fifth wrong guess at a code says that the tries are used up; the four before it do not.
  lemma FifthIsLast(a: Account, guess: string, now: Time)
    requires WrongGuess(Some(a), Guess(guess, now))
    ensures var attempts := a.codes[LatestPending(a.codes).value].attempts;
            Guessed(a, guess, now).1 == Err(if attempts == 4 then AttemptsExceeded else InvalidToken)
  {
  }

  // ---------- the guess bound ----------

  // Wrong guesses evaluated in [lo, hi).
  function WrongIn(es: seq<Event>, lo: Time, hi: Time): nat {
    if es == [] then 0
    else
      var n := |es| - 1;
      WrongIn(es[..n], lo, hi) + if lo <= es[n].now < hi && WrongGuess(History(es[..n]), es[n]) then 1 else 0
  }

  function IssuesOf(es: seq<Event>): seq<Time> {
    if History(es).None? then [] else Issues(History(es).value.codes)
  }

  // The guesses the newest code has left, if it was issued in time to take any before hi.
  function SlackOf(codes: seq<Code>, hi: Time): int {
    if codes == [] || codes[|codes| - 1].created >= hi then 0 else MAX_ATTEMPTS - codes[|codes| - 1].attempts
  }

  function Slack(es: seq<Event>, hi: Time): int {
    if History(es).None? then 0 else SlackOf(History(es).value.codes, hi)
  }

  lemma {:induction false} WrongNeedsTime(es: seq<Event>, lo: Time, hi: Time)
    requires InOrder(es) && (es != [] ==> es[|es| - 1].now < lo)
    ensures WrongIn(es, lo, hi) == 0
  {
    if es != [] {
      var n := |es| - 1;
      assert n > 0 ==> es[n - 1].now <= es[n].now;
      WrongNeedsTime(es[..n], lo, hi);
    }
  }

  // What one more event does to the wrong guesses, the newest code's slack and the issues.
  lemma OneMore(es: seq<Event>, lo: Time, hi: Time)
    requires InOrder(es) && es != []
    ensures var n := |es| - 1;
            var spent := WrongIn(es, lo, hi) - WrongIn(es[..n], lo, hi);
            var more := CountIn(IssuesOf(es), lo, hi) - CountIn(IssuesOf(es[..n]), lo, hi);
            || (more == 0 && spent + Slack(es, hi) <= Slack(es[..n], hi))
            || (spent == 0 && more == 1 && Slack(es, hi) == MAX_ATTEMPTS)
            || (spent == 0 && more == 0 && Slack(es, hi) == 0)
            || (spent == 0 && more == 0 && es[n].now < lo && Slack(es, hi) == MAX_ATTEMPTS)
    ensures Slack(es[..|es| - 1], hi) >= 0
  {
    var n := |es| - 1;
    if History(es[..n]).Some? {
      HistorySound(es[..n]);
      NewestPending(History(es[..n]).value, es[n - 1].now);
      OneMoreOn(es, History(es[..n]).value, lo, hi);
    } else {
      FirstEvent(es, lo, hi);
    }
    hide CountIn, WrongIn, IssuesOf;
  }

  lemma FirstEvent(es: seq<Event>, lo: Time, hi: Time)
    requires es != [] && History(es[..|es| - 1]).None?
    ensures var n := |es| - 1;
            && WrongIn(es, lo, hi) == WrongIn(es[..n], lo, hi) && CountIn(IssuesOf(es[..n]), lo, hi) == 0
            && CountIn(IssuesOf(es), lo, hi) == (if History(es).Some? && lo <= es[n].now < hi then 1 else 0)
            && Slack(es, hi) == if History(es).Some? && es[n].now < hi then MAX_ATTEMPTS else 0
  {
    hide CountIn, Issues, Guessed, Followed, Resent;
    NoCode(lo, hi);
    if es[|es| - 1].Register? {
      OneCode(NewCode(es[|es| - 1].code, es[|es| - 1].now), lo, hi);
    }
  }

  lemma NoCode(lo: Time, hi: Time)
    ensures CountIn([], lo, hi) == 0
  {
  }

  lemma OneCode(code: Code, lo: Time, hi: Time)
    ensures CountIn(Issues([code]), lo, hi) == if lo <= code.created < hi then 1 else 0
  {
    assert Issues([code])[..0] == [];
    assert Issues([code])[0] == code.created;
  }

  lemma OneMoreOn(es: seq<Event>, a: Account, lo: Time, hi: Time)
    requires es != [] && History(es[..|es| - 1]) == Some(a) && Sound(a, es[|es| - 1].now)
    requires LatestPending(a.codes) == if a.codes[|a.codes| - 1].consumed.None? then Some(|a.codes| - 1) else None
    ensures var n := |es| - 1;
            var spent := WrongIn(es, lo, hi) - WrongIn(es[..n], lo, hi);
            var more := CountIn(IssuesOf(es), lo, hi) - CountIn(IssuesOf(es[..n]), lo, hi);
            || (more == 0 && spent + Slack(es, hi) <= Slack(es[..n], hi))
            || (spent == 0 && more == 1 && Slack(es, hi) == MAX_ATTEMPTS)
            || (spent == 0 && more == 0 && Slack(es, hi) == 0)
            || (spent == 0 && more == 0 && es[n].now < lo && Slack(es, hi) == MAX_ATTEMPTS)
  {
    var n := |es| - 1;
    var e := es[n];
    var a' := Step(Some(a), e).0.value;
    assert a.codes[|a.codes| - 1].created <= e.now;
    assert History(es) == Some(a');
    if e.Resend? {
      ResendMore(a, e, lo, hi);
    } else {
      GuessMore(a, e, hi);
      assert IssuesOf(es) == IssuesOf(es[..n]);
    }
  }

  lemma ResendMore(a: Account, e: Event, lo: Time, hi: Time)
    requires e.Resend?
    ensures var a' := Step(Some(a), e).0.value;
            || a' == a
            || (CountIn(Issues(a'.codes), lo, hi) == CountIn(Issues(a.codes), lo, hi) + (if lo <= e.now < hi then 1 else 0)
                && SlackOf(a'.codes, hi) == if e.now >= hi then 0 else MAX_ATTEMPTS)
  {
    var a' := Step(Some(a), e).0.value;
    if a' != a {
      var k := |a.codes|;
      assert a'.codes[k] == NewCode(e.code, e.now);
      assert Issues(a'.codes)[..k] == Issues(a.codes);
    }
  }

  lemma GuessMore(a: Account, e: Event, hi: Time)
    requires (e.Guess? || e.FollowLink? || e.Register?) && a.codes != [] && a.codes[|a.codes| - 1].created <= e.now
    requires LatestPending(a.codes) == if a.codes[|a.codes| - 1].consumed.None? then Some(|a.codes| - 1) else None
    ensures var a' := Step(Some(a), e).0.value;
            && Issues(a'.codes) == Issues(a.codes)
            && (if WrongGuess(Some(a), e) && e.now < hi then SlackOf(a'.codes, hi) == SlackOf(a.codes, hi) - 1
                else SlackOf(a'.codes, hi) <= SlackOf(a.codes, hi) || SlackOf(a'.codes, hi) == 0)
            && (!WrongGuess(Some(a), e) ==> SlackOf(a'.codes, hi) == SlackOf(a.codes, hi))
  {
  }

  // Wrong guesses in an interval are paid for by the codes issued in it, and one code from before.
  lemma {:induction false} PaidByIssues(es: seq<Event>, lo: Time, hi: Time)
    requires InOrder(es)
    ensures WrongIn(es, lo, hi) + Slack(es, hi) <= MAX_ATTEMPTS * (CountIn(IssuesOf(es), lo, hi) + 1)
    ensures Slack(es, hi) >= 0
  {
    if es != [] {
      var n := |es| - 1;
      PaidByIssues(es[..n], lo, hi);
      OneMore(es, lo, hi);
      if es[n].now < lo {
        WrongNeedsTime(es, lo, hi);
      }
      if History(es).Some? {
        HistorySound(es);
      }
    }
  }

  // Any interval of length T evaluates at most 5 * (floor(T / 60s) + 2) wrong codes of one account.
  lemma GuessBound(es: seq<Event>, lo: Time, length: nat)
    requires InOrder(es)
    ensures WrongIn(es, lo, lo + length) <= MAX_ATTEMPTS * (length / THROTTLE + 2)
  {
    PaidByIssues(es, lo, lo + length);
    IssuesSpaced(es);
    AtMostCeil(IssuesOf(es), THROTTLE, lo, length);
    FiveFold(CountIn(IssuesOf(es), lo, lo + length) + 1, length);
  }

  lemma IssuesSpaced(es: seq<Event>)
    requires InOrder(es)
    ensures Spaced(IssuesOf(es), THROTTLE)
  {
    if History(es).Some? {
      HistorySound(es);
    }
  }

  lemma FiveFold(codes: nat, length: nat)
    requires codes <= CeilDiv(length, THROTTLE) + 1
    ensures MAX_ATTEMPTS * codes <= MAX_ATTEMPTS * (length / THROTTLE + 2)
  {
  }
}
