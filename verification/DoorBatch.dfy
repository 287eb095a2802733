// Batch scanning: which codes admit somebody, in whatever order and however often they come.
module DoorBatch {
  import opened Common
  import opened Payload
  import opened Door
  import opened DoorMint
  import opened DoorRuns

  // The attendee a code names, if its MAC is right.
  function Target(cfg: Config, code: string): Option<Id> {
    match VerifyPayload(code, cfg.secret, cfg.prims)
    case Ok(v) => Some(v.attendee)
    case Err(_) => None
  }

  // The code authenticates a REGISTERED attendee of this event.
  predicate Admits(cfg: Config, s: State, event: Id, code: string) {
    match VerifyPayload(code, cfg.secret, cfg.prims)
    case Err(_) => false
    case Ok(v) =>
      && v.attendee in s.attendees
      && TokenMatches(cfg, s.attendees[v.attendee], v.rawToken)
      && s.attendees[v.attendee].event == event
      && s.attendees[v.attendee].status == Registered
  }

  predicate AdmitsAt(cfg: Config, s: State, event: Id, codes: seq<string>, i: nat, a: Id) {
    i < |codes| && Admits(cfg, s, event, codes[i]) && Target(cfg, codes[i]) == Some(a)
  }

  ghost predicate AdmittedBy(cfg: Config, s: State, event: Id, codes: seq<string>, a: Id) {
    exists i: nat :: AdmitsAt(cfg, s, event, codes, i, a)
  }

  // Position i is the first whose code admits its attendee.
  ghost predicate FirstFor(cfg: Config, s: State, event: Id, codes: seq<string>, i: nat)
    requires i < |codes|
  {
    && Admits(cfg, s, event, codes[i])
    && !AdmittedBy(cfg, s, event, codes[..i], Target(cfg, codes[i]).value)
  }

  // Rows after a batch: admitted ones are CHECKED_IN with some time, all others as they were.
  ghost predicate Scanned(cfg: Config, s: State, s': State, event: Id, codes: seq<string>) {
    && s' == s.(attendees := s'.attendees, log := s'.log)
    && s'.attendees.Keys == s.attendees.Keys
    && (forall a :: a in s.attendees ==>
          if AdmittedBy(cfg, s, event, codes, a)
          then s'.attendees[a].checkedInAt.Some? && s'.attendees[a] == Admitted(s.attendees[a], s'.attendees[a].checkedInAt.value)
          else s'.attendees[a] == s.attendees[a])
  }

  lemma AdmittedSnoc(cfg: Config, s: State, event: Id, codes: seq<string>, code: string, a: Id)
    ensures AdmittedBy(cfg, s, event, codes + [code], a) <==>
            AdmittedBy(cfg, s, event, codes, a) || (Admits(cfg, s, event, code) && Target(cfg, code) == Some(a))
  {
    var all := codes + [code];
    if i: nat :| AdmitsAt(cfg, s, event, codes, i, a) {
      assert AdmitsAt(cfg, s, event, all, i, a);
    }
    if Admits(cfg, s, event, code) && Target(cfg, code) == Some(a) {
      assert AdmitsAt(cfg, s, event, all, |codes|, a);
    }
    if i: nat :| AdmitsAt(cfg, s, event, all, i, a) {
      assert i == |codes| || AdmitsAt(cfg, s, event, codes, i, a);
    }
  }

  // After a scanned prefix, a code admits exactly if it did at first and its attendee is not in yet.
  lemma AdmitsLater(cfg: Config, s: State, s1: State, event: Id, codes: seq<string>, code: string)
    requires Scanned(cfg, s, s1, event, codes)
    ensures Admits(cfg, s1, event, code) <==>
            Admits(cfg, s, event, code) && !AdmittedBy(cfg, s, event, codes, Target(cfg, code).value)
  {
    match VerifyPayload(code, cfg.secret, cfg.prims)
    case Err(_) =>
    case Ok(v) =>
      if v.attendee in s.attendees && AdmittedBy(cfg, s, event, codes, v.attendee) {
        assert s1.attendees[v.attendee].status == CheckedIn;
      }
  }

  lemma ScanOne(cfg: Config, s: State, event: Id, code: string, staff: Id, now: Time)
    requires ScanQr(cfg, s, Some(event), code, staff, now).1.Ok?
    ensures var (s', r) := ScanQr(cfg, s, Some(event), code, staff, now);
            && (r.value.outcome == ScannedIn <==> Admits(cfg, s, event, code))
            && s' == s.(attendees := s'.attendees, log := s'.log)
            && s'.attendees == if Admits(cfg, s, event, code)
                               then s.attendees[Target(cfg, code).value := Admitted(s.attendees[Target(cfg, code).value], now)]
                               else s.attendees
  {
    match VerifyPayload(code, cfg.secret, cfg.prims)
    case Err(_) =>
    case Ok(v) =>
      if v.attendee in s.attendees {
        assert s.attendees[v.attendee := s.attendees[v.attendee]] == s.attendees;
      }
  }

  lemma {:induction false} BatchOutcomes(cfg: Config, s: State, event: Id, codes: seq<string>, staff: Id, clock: nat -> Time)
    requires ScanAll(cfg, s, Some(event), codes, staff, clock).1.Ok?
    ensures var (s', r) := ScanAll(cfg, s, Some(event), codes, staff, clock);
            && |r.value| == |codes|
            && (forall i :: 0 <= i < |codes| ==> (r.value[i].outcome == ScannedIn <==> FirstFor(cfg, s, event, codes, i)))
            && Scanned(cfg, s, s', event, codes)
  {
    if codes != [] {
      var n := |codes| - 1;
      var init, code := codes[..n], codes[n];
      BatchOutcomes(cfg, s, event, init, staff, clock);
      var (s1, r1) := ScanAll(cfg, s, Some(event), init, staff, clock);
      var (s', r) := ScanAll(cfg, s, Some(event), codes, staff, clock);
      ScanOne(cfg, s1, event, code, staff, clock(n));
      AdmitsLater(cfg, s, s1, event, init, code);
      assert codes == init + [code];
      forall i | 0 <= i < |codes| ensures r.value[i].outcome == ScannedIn <==> FirstFor(cfg, s, event, codes, i) {
        if i < n {
          assert codes[..i] == init[..i];
          assert r1.value[i].outcome == ScannedIn <==> FirstFor(cfg, s, event, init, i);
        }
      }
      forall a | a in s.attendees
        ensures if AdmittedBy(cfg, s, event, codes, a)
                then s'.attendees[a].checkedInAt.Some? && s'.attendees[a] == Admitted(s.attendees[a], s'.attendees[a].checkedInAt.value)
                else s'.attendees[a] == s.attendees[a]
      {
        AdmittedSnoc(cfg, s, event, init, code, a);
      }
    }
  }

  // A code that reads but names no attendee: the only thing besides setup that stops a batch.
  predicate Dangling(cfg: Config, s: State, code: string) {
    cfg.foreignKeys && Target(cfg, code).Some? && Target(cfg, code).value !in s.attendees
  }

  lemma {:induction false} BatchSucceedsIff(cfg: Config, s: State, event: Option<Id>, codes: seq<string>, staff: Id, clock: nat -> Time)
    ensures ScanAll(cfg, s, event, codes, staff, clock).1.Ok? <==>
            codes == [] || (cfg.secret != "" && event.Some? && forall i :: 0 <= i < |codes| ==> !Dangling(cfg, s, codes[i]))
  {
    if codes != [] {
      var n := |codes| - 1;
      BatchSucceedsIff(cfg, s, event, codes[..n], staff, clock);
      if event.Some? && ScanAll(cfg, s, event, codes[..n], staff, clock).1.Ok? {
        BatchOutcomes(cfg, s, event.value, codes[..n], staff, clock);
      }
    }
  }

  // Who ends up inside depends only on the set of codes: neither order nor repetition matters.
  lemma BatchOrderIrrelevant(cfg: Config, s: State, event: Id, codes: seq<string>, codes': seq<string>,
                             staff: Id, clock: nat -> Time, clock': nat -> Time, e: Id)
    requires forall code :: code in codes <==> code in codes'
    ensures var (s1, r1) := ScanAll(cfg, s, Some(event), codes, staff, clock);
            var (s2, r2) := ScanAll(cfg, s, Some(event), codes', staff, clock');
            && (r1.Ok? <==> r2.Ok?)
            && (r1.Ok? ==> InStatus(s1, e, CheckedIn) == InStatus(s2, e, CheckedIn)
                           && InStatus(s1, e, Registered) == InStatus(s2, e, Registered))
  {
    BatchSucceedsIff(cfg, s, Some(event), codes, staff, clock);
    BatchSucceedsIff(cfg, s, Some(event), codes', staff, clock');
    if codes != [] { assert codes[0] in codes'; }
    if codes' != [] { assert codes'[0] in codes; }
    forall i | 0 <= i < |codes| ensures codes[i] in codes' { assert codes[i] in codes; }
    forall i | 0 <= i < |codes'| ensures codes'[i] in codes { assert codes'[i] in codes'; }
    var (s1, r1) := ScanAll(cfg, s, Some(event), codes, staff, clock);
    var (s2, r2) := ScanAll(cfg, s, Some(event), codes', staff, clock');
    if r1.Ok? && r2.Ok? {
      BatchOutcomes(cfg, s, event, codes, staff, clock);
      BatchOutcomes(cfg, s, event, codes', staff, clock');
      forall a | a in s.attendees
        ensures AdmittedBy(cfg, s, event, codes, a) <==> AdmittedBy(cfg, s, event, codes', a)
      {
        SameCodesAdmit(cfg, s, event, codes, codes', a);
        SameCodesAdmit(cfg, s, event, codes', codes, a);
      }
    }
  }

  lemma SameCodesAdmit(cfg: Config, s: State, event: Id, codes: seq<string>, codes': seq<string>, a: Id)
    requires forall i :: 0 <= i < |codes| ==> codes[i] in codes'
    ensures AdmittedBy(cfg, s, event, codes, a) ==> AdmittedBy(cfg, s, event, codes', a)
  {
    if i: nat :| AdmitsAt(cfg, s, event, codes, i, a) {
      var j :| 0 <= j < |codes'| && codes'[j] == codes[i];
      assert AdmitsAt(cfg, s, event, codes', j, a);
    }
  }

  // ---------- a fresh order at the door ----------

  function Payloads(cfg: Config, minted: seq<Minted>): seq<string> {
    seq(|minted|, i requires 0 <= i < |minted| => BuildPayload(minted[i].id, minted[i].rawToken, cfg.secret, cfg.prims))
  }

  lemma {:induction false} AllSpent(s: State, order: Id, n: nat, drawn: seq<Minted>)
    requires n <= |drawn| && forall u :: 0 <= u < n ==> !UnitExists(s, order, u)
    ensures Spent(s, order, n, drawn) == drawn[..n]
  {
    if n > 0 {
      AllSpent(s, order, n - 1, drawn);
      assert drawn[..n] == drawn[..n - 1] + [drawn[n - 1]];
    }
  }

  ghost predicate Scannable(drawn: seq<Minted>) {
    forall u :: 0 <= u < |drawn| ==> drawn[u].rawToken != "" && '.' !in drawn[u].rawToken
  }

  lemma FreshCodeAdmits(cfg: Config, s: State, s1: State, order: Id, user: Id, event: Id, n: nat, drawn: seq<Minted>, i: nat)
    requires cfg.prims.Valid() && i < n <= |drawn| && Scannable(drawn)
    requires Filled(cfg, s, s1, order, user, event, n, drawn) && !UnitExists(s, order, i)
    ensures var code := BuildPayload(drawn[i].id, drawn[i].rawToken, cfg.secret, cfg.prims);
            Admits(cfg, s1, event, code) && Target(cfg, code) == Some(drawn[i].id)
  {
    PayloadRoundTrip(drawn[i].id, drawn[i].rawToken, cfg.secret, cfg.prims);
    assert s1.attendees[drawn[i].id] == Ticket(cfg, order, i, user, event, drawn[i].rawToken);
  }

  // Codes that admit pairwise different attendees are all first for theirs.
  lemma DistinctAllFirst(cfg: Config, s: State, event: Id, codes: seq<string>, ids: seq<Id>)
    requires |ids| == |codes| && forall i, j :: 0 <= i < j < |ids| ==> ids[i] != ids[j]
    requires forall i :: 0 <= i < |codes| ==> Admits(cfg, s, event, codes[i]) && Target(cfg, codes[i]) == Some(ids[i])
    ensures forall i :: 0 <= i < |codes| ==> FirstFor(cfg, s, event, codes, i)
  {
  }

  function Ids(minted: seq<Minted>): seq<Id> {
    seq(|minted|, i requires 0 <= i < |minted| => minted[i].id)
  }

  lemma MintedScanIn(cfg: Config, s: State, s1: State, order: Id, user: Id, event: Id, n: nat, drawn: seq<Minted>,
                     codes: seq<string>, staff: Id, clock: nat -> Time)
    requires cfg.secret != "" && n <= |drawn| && FreshDraws(s, drawn)
    requires Filled(cfg, s, s1, order, user, event, n, drawn)
    requires forall u :: 0 <= u < n ==> !UnitExists(s, order, u)
    requires |codes| == n
    requires forall i :: 0 <= i < n ==> Admits(cfg, s1, event, codes[i]) && Target(cfg, codes[i]) == Some(drawn[i].id)
    ensures var (s2, r) := ScanAll(cfg, s1, Some(event), codes, staff, clock);
            && r.Ok? && |r.value| == n && (forall i :: 0 <= i < n ==> r.value[i].outcome == ScannedIn)
            && InStatus(s2, event, CheckedIn) == InStatus(s, event, CheckedIn) + set i | 0 <= i < n :: drawn[i].id
  {
    hide Filled, ScanAll, InStatus;
    BatchSucceedsIff(cfg, s1, Some(event), codes, staff, clock);
    BatchOutcomes(cfg, s1, event, codes, staff, clock);
    DistinctAllFirst(cfg, s1, event, codes, Ids(drawn[..n]));
    FreshOrderCheckedIn(cfg, s, s1, ScanAll(cfg, s1, Some(event), codes, staff, clock).0,
                        order, user, event, n, drawn, codes);
  }

  // Minting an order of n units and scanning its n payloads admits exactly those n attendees.
  lemma FreshOrderScansIn(cfg: Config, s: State, order: Id, user: Id, event: Id, n: nat, drawn: seq<Minted>,
                          staff: Id, clock: nat -> Time)
    requires cfg.prims.Valid() && cfg.secret != ""
    requires n <= |drawn| && FreshDraws(s, drawn) && Scannable(drawn)
    requires forall u :: 0 <= u < n ==> !UnitExists(s, order, u)
    ensures var (s1, minted) := Mint(cfg, s, order, user, event, n, drawn);
            var (s2, r) := ScanAll(cfg, s1, Some(event), Payloads(cfg, minted), staff, clock);
            && r.Ok? && |r.value| == n && (forall i :: 0 <= i < n ==> r.value[i].outcome == ScannedIn)
            && InStatus(s2, event, CheckedIn) == InStatus(s, event, CheckedIn) + set i | 0 <= i < n :: drawn[i].id
  {
    MintFills(cfg, s, order, user, event, n, drawn);
    AllSpent(s, order, n, drawn);
    var (s1, minted) := Mint(cfg, s, order, user, event, n, drawn);
    var codes := Payloads(cfg, minted);
    forall i | 0 <= i < n
      ensures Admits(cfg, s1, event, codes[i]) && Target(cfg, codes[i]) == Some(drawn[i].id)
    {
      FreshCodeAdmits(cfg, s, s1, order, user, event, n, drawn, i);
    }
    MintedScanIn(cfg, s, s1, order, user, event, n, drawn, codes, staff, clock);
  }

  lemma FreshOrderCheckedIn(cfg: Config, s: State, s1: State, s2: State, order: Id, user: Id, event: Id, n: nat,
                            drawn: seq<Minted>, codes: seq<string>)
    requires n <= |drawn| && |codes| == n
    requires Filled(cfg, s, s1, order, user, event, n, drawn) && Scanned(cfg, s1, s2, event, codes)
    requires forall u :: 0 <= u < n ==> !UnitExists(s, order, u) && drawn[u].id !in s.attendees
    requires forall i :: 0 <= i < n ==> Admits(cfg, s1, event, codes[i]) && Target(cfg, codes[i]) == Some(drawn[i].id)
    ensures InStatus(s2, event, CheckedIn) == InStatus(s, event, CheckedIn) + set i | 0 <= i < n :: drawn[i].id
  {
    var ids := set i | 0 <= i < n :: drawn[i].id;
    forall a | a in s1.attendees
      ensures a in InStatus(s2, event, CheckedIn) <==> a in InStatus(s, event, CheckedIn) || a in ids
    {
      if i: nat :| i < n && a == drawn[i].id {
        FreshRowCheckedIn(cfg, s, s1, s2, order, user, event, n, drawn, codes, i);
      } else {
        OldRowKept(cfg, s, s1, s2, order, user, event, n, drawn, codes, a);
      }
    }
    assert ids <= s1.attendees.Keys;
  }

  lemma FreshRowCheckedIn(cfg: Config, s: State, s1: State, s2: State, order: Id, user: Id, event: Id, n: nat,
                          drawn: seq<Minted>, codes: seq<string>, i: nat)
    requires i < n <= |drawn| && |codes| == n
    requires Filled(cfg, s, s1, order, user, event, n, drawn) && Scanned(cfg, s1, s2, event, codes)
    requires !UnitExists(s, order, i) && Admits(cfg, s1, event, codes[i]) && Target(cfg, codes[i]) == Some(drawn[i].id)
    ensures drawn[i].id in InStatus(s2, event, CheckedIn)
  {
    assert AdmitsAt(cfg, s1, event, codes, i, drawn[i].id);
    assert s1.attendees[drawn[i].id].event == event;
  }

  lemma OldRowKept(cfg: Config, s: State, s1: State, s2: State, order: Id, user: Id, event: Id, n: nat,
                   drawn: seq<Minted>, codes: seq<string>, a: Id)
    requires n <= |drawn| && |codes| == n && a in s1.attendees
    requires forall i :: 0 <= i < n ==> a != drawn[i].id
    requires Filled(cfg, s, s1, order, user, event, n, drawn) && Scanned(cfg, s1, s2, event, codes)
    requires forall i :: 0 <= i < n ==> Target(cfg, codes[i]) == Some(drawn[i].id)
    ensures a in InStatus(s2, event, CheckedIn) <==> a in InStatus(s, event, CheckedIn)
  {
    assert a in s.attendees;
  }
}
