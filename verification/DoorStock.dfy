// Kit stock over runs: how many units can be out, what a quantity cut may do, retries and voids.
module DoorStock {
  import opened Common
  import opened Door
  import opened DoorMint
  import opened DoorRuns

  predicate Updates(op: Op, kit: Id) {
    op.OpUpdateKit? && op.kitRef == Some(kit) && op.newTotal.Some?
  }

  // Only an accepted UpdateKit changes the total of a kit that stays.
  lemma ApplyTotals(cfg: Config, s: State, op: Op, kit: Id)
    requires kit in s.kits && kit in Apply(cfg, s, op).kits
    ensures var s' := Apply(cfg, s, op);
            s'.kits[kit] == s.kits[kit] || (Updates(op, kit) && op.newTotal == Some(s'.kits[kit].total))
  {
    if Fresh(s, op) && op.OpMint? {
      MintOnlyRoster(cfg, s, op.order, op.user, op.event, op.quantity, op.drawn);
    }
  }

  lemma {:induction false} MintOnlyRoster(cfg: Config, s: State, order: Id, user: Id, event: Id, n: nat, drawn: seq<Minted>)
    requires n <= |drawn|
    ensures var s' := Mint(cfg, s, order, user, event, n, drawn).0;
            s' == s.(attendees := s'.attendees)
  {
    if n > 0 {
      MintOnlyRoster(cfg, s, order, user, event, n - 1, drawn);
    }
  }

  lemma ActiveShrinks(cfg: Config, s: State, op: Op, kit: Id)
    requires !op.OpCollect?
    ensures ActiveOf(Apply(cfg, s, op), kit) <= ActiveOf(s, kit)
  {
    if Fresh(s, op) && op.OpMint? {
      MintOnlyRoster(cfg, s, op.order, op.user, op.event, op.quantity, op.drawn);
    }
  }

  lemma CollectActive(s: State, event: Id, kit: Id, attendee: Id, reserve: bool, key: string,
                      staff: Id, now: Time, newId: Id, k: Id)
    requires newId !in s.handouts
    ensures var s' := CollectTx(s, event, kit, attendee, reserve, key, staff, now, newId).0;
            && s'.kits == s.kits
            && (ActiveOf(s', k) == ActiveOf(s, k) || (k in s.kits && |ActiveOf(s', k)| <= s.kits[k].total))
  {
    var s' := CollectTx(s, event, kit, attendee, reserve, key, staff, now, newId).0;
    if s' != s && k == kit {
      assert ActiveOf(s', k) == ActiveOf(s, k) + {newId};
    } else {
      assert ActiveOf(s', k) == ActiveOf(s, k);
    }
  }

  // What one call can do to the units out of one kit: only a Collect adds one, and only below
  // the current total.
  lemma ApplyActive(cfg: Config, s: State, op: Op, kit: Id)
    requires kit in Apply(cfg, s, op).kits
    ensures var s' := Apply(cfg, s, op);
            || |ActiveOf(s', kit)| <= s'.kits[kit].total
            || (kit in s.kits && |ActiveOf(s', kit)| <= |ActiveOf(s, kit)| && (s'.kits[kit] == s.kits[kit] || Updates(op, kit)))
  {
    var s' := Apply(cfg, s, op);
    if kit !in s.kits {
      NewKitIsEmpty(cfg, s, op, kit);
    } else {
      ApplyTotals(cfg, s, op, kit);
      if op.OpCollect? {
        if Fresh(s, op) && s' != s {
          CollectActive(s, op.eventRef.value, op.kitRef.value, op.attendeeRef.value, op.reserve, op.key,
                        op.staff, op.now, op.newId, kit);
        }
      } else {
        ActiveShrinks(cfg, s, op, kit);
        CardSubset(ActiveOf(s', kit), ActiveOf(s, kit));
      }
    }
  }

  lemma NewKitIsEmpty(cfg: Config, s: State, op: Op, kit: Id)
    requires kit !in s.kits && kit in Apply(cfg, s, op).kits
    ensures var s' := Apply(cfg, s, op);
            ActiveOf(s', kit) == {} && s'.kits[kit].total >= 1
  {
    if Fresh(s, op) && op.OpMint? {
      MintOnlyRoster(cfg, s, op.order, op.user, op.event, op.quantity, op.drawn);
    }
  }

  ghost predicate ReachedTotal(cfg: Config, ops: seq<Op>, i: nat, kit: Id, units: nat)
    requires i <= |ops|
  {
    var s := Run(cfg, EMPTY, ops[..i]);
    kit in s.kits && units <= s.kits[kit].total
  }

  // The units out never exceed the highest total the kit has had.
  lemma {:induction false} NeverAbovePeak(cfg: Config, ops: seq<Op>, kit: Id)
    requires kit in Run(cfg, EMPTY, ops).kits
    ensures exists i :: 0 <= i <= |ops| && ReachedTotal(cfg, ops, i, kit, |ActiveOf(Run(cfg, EMPTY, ops), kit)|)
  {
    if ops != [] {
      var n := |ops| - 1;
      var s, s' := Run(cfg, EMPTY, ops[..n]), Run(cfg, EMPTY, ops);
      EveryRunKeepsInv(cfg, ops[..n]);
      ApplyActive(cfg, s, ops[n], kit);
      assert ops[..|ops|] == ops;
      if |ActiveOf(s', kit)| <= s'.kits[kit].total {
        assert ReachedTotal(cfg, ops, |ops|, kit, |ActiveOf(s', kit)|);
      } else {
        NeverAbovePeak(cfg, ops[..n], kit);
        var i :| 0 <= i <= n && ReachedTotal(cfg, ops[..n], i, kit, |ActiveOf(s, kit)|);
        assert ops[..n][..i] == ops[..i];
        assert ReachedTotal(cfg, ops, i, kit, |ActiveOf(s', kit)|);
      }
    }
  }

  // ---------- quantity cuts ----------

  ghost predicate NoUpdates(ops: seq<Op>, kit: Id) {
    forall i :: 0 <= i < |ops| ==> !Updates(ops[i], kit)
  }

  lemma {:induction false} RunKeepsInv(cfg: Config, s: State, ops: seq<Op>)
    requires Inv(s)
    ensures Inv(Run(cfg, s, ops))
  {
    if ops != [] {
      RunKeepsInv(cfg, s, ops[..|ops| - 1]);
      ApplyKeeps(cfg, Run(cfg, s, ops[..|ops| - 1]), ops[|ops| - 1]);
    }
  }

  // Without further updates, stock that fits keeps fitting.
  lemma {:induction false} FitsForever(cfg: Config, s: State, ops: seq<Op>, kit: Id)
    requires Inv(s) && NoUpdates(ops, kit)
    requires kit in s.kits ==> |ActiveOf(s, kit)| <= s.kits[kit].total
    ensures var s' := Run(cfg, s, ops);
            kit in s'.kits ==> |ActiveOf(s', kit)| <= s'.kits[kit].total
  {
    if ops != [] {
      var n := |ops| - 1;
      FitsForever(cfg, s, ops[..n], kit);
      RunKeepsInv(cfg, s, ops[..n]);
      if kit in Run(cfg, s, ops).kits {
        ApplyActive(cfg, Run(cfg, s, ops[..n]), ops[n], kit);
      }
    }
  }

  function PendingOf(s: State, kit: Id): set<Id> {
    set h | h in s.handouts && s.handouts[h].kit == kit && s.handouts[h].status == Pending
  }

  lemma {:induction false} RunConcat(cfg: Config, s: State, xs: seq<Op>, ys: seq<Op>)
    ensures Run(cfg, s, xs + ys) == Run(cfg, Run(cfg, s, xs), ys)
  {
    if ys == [] {
      assert xs + ys == xs;
    } else {
      var n := |ys| - 1;
      RunConcat(cfg, s, xs, ys[..n]);
      assert (xs + ys)[..|xs| + n] == xs + ys[..n];
    }
  }

  lemma HandOutOne(cfg: Config, s: State, kit: Id, h: Id) returns (op: Op)
    requires Inv(s) && kit in s.kits && h in PendingOf(s, kit)
    ensures !Updates(op, kit) && Inv(Apply(cfg, s, op))
    ensures var s1 := Apply(cfg, s, op);
            s1.kits == s.kits && PendingOf(s1, kit) == PendingOf(s, kit) - {h} && ActiveOf(s1, kit) == ActiveOf(s, kit)
  {
    assert Linked(s, s.handouts[h]);
    op := OpMarkCollected(Some(s.handouts[h].event), Some(h), 0, 0);
    ApplyKeeps(cfg, s, op);
    var s1 := Apply(cfg, s, op);
    assert s1.handouts == s.handouts[h := s.handouts[h].(status := Collected, collectedAt := Some(0), collectedBy := Some(0))];
  }

  // Staff can hand out every reserved unit: then all active units are COLLECTED.
  lemma {:induction false} HandOutAll(cfg: Config, s: State, kit: Id) returns (ops: seq<Op>)
    requires Inv(s) && kit in s.kits
    ensures NoUpdates(ops, kit)
    ensures var s' := Run(cfg, s, ops);
            s'.kits == s.kits && CollectedOf(s', kit) == ActiveOf(s, kit)
    decreases |PendingOf(s, kit)|
  {
    hide Inv, Apply;
    if PendingOf(s, kit) == {} {
      ops := [];
      forall h | h in ActiveOf(s, kit) ensures h in CollectedOf(s, kit) {
        assert h !in PendingOf(s, kit);
      }
    } else {
      var h :| h in PendingOf(s, kit);
      var op := HandOutOne(cfg, s, kit, h);
      CardRemove(PendingOf(s, kit), h);
      var rest := HandOutAll(cfg, Apply(cfg, s, op), kit);
      ops := [op] + rest;
      assert [op][..0] == [] && Run(cfg, s, [op]) == Apply(cfg, s, op);
      RunConcat(cfg, s, [op], rest);
    }
  }

  ghost predicate CollectedFits(s: State, kit: Id) {
    kit in s.kits ==> |CollectedOf(s, kit)| <= s.kits[kit].total
  }

  // UpdateKit compares the new total with COLLECTED handouts only. An accepted cut keeps
  // "collected never exceeds the total" in every later run exactly when it also covers PENDING.
  lemma CutIsSafeIff(cfg: Config, s: State, event: Option<Id>, kit: Id, total: int)
    requires Inv(s) && UpdateKit(s, event, Some(kit), Some(total)).1.Ok?
    ensures var s1 := UpdateKit(s, event, Some(kit), Some(total)).0;
            total >= |ActiveOf(s, kit)| <==>
            forall ops :: NoUpdates(ops, kit) ==> CollectedFits(Run(cfg, s1, ops), kit)
  {
    var s1 := UpdateKit(s, event, Some(kit), Some(total)).0;
    ApplyKeeps(cfg, s, OpUpdateKit(event, Some(kit), Some(total)));
    assert ActiveOf(s1, kit) == ActiveOf(s, kit);
    if total >= |ActiveOf(s, kit)| {
      forall ops | NoUpdates(ops, kit) ensures CollectedFits(Run(cfg, s1, ops), kit) {
        FitsForever(cfg, s1, ops, kit);
        var s' := Run(cfg, s1, ops);
        CardSubset(CollectedOf(s', kit), ActiveOf(s', kit));
      }
    } else {
      var ops := HandOutAll(cfg, s1, kit);
      assert !CollectedFits(Run(cfg, s1, ops), kit);
    }
  }

  lemma RunSnoc(cfg: Config, ops: seq<Op>, op: Op)
    ensures Run(cfg, EMPTY, ops + [op]) == Apply(cfg, Run(cfg, EMPTY, ops), op)
  {
    assert (ops + [op])[..|ops|] == ops;
  }

  // Two attendees inside.
  function TwoInside(): seq<Op> {
    [OpAdd(7, 0, "")] + [OpScanManual(Some(0), Some(7), 0, 0)] + [OpAdd(8, 0, "")] + [OpScanManual(Some(0), Some(8), 0, 0)]
  }

  // Then two units of a kit, both reserved.
  function TwoReserved(): seq<Op> {
    TwoInside() + [OpCreateKit(Some(0), 2, true, -1, 1)] + [Reserving(7, 3)] + [Reserving(8, 4)]
  }

  function Reserving(a: Id, newId: Id): Op {
    OpCollect(Some(0), Some(1), Some(a), true, "", 0, 0, newId)
  }

  lemma TwoInsideState(cfg: Config)
    ensures var s := Run(cfg, EMPTY, TwoInside());
            && s.kits == map[] && s.handouts == map[] && Eligible(s, 0, 7).Ok? && Eligible(s, 0, 8).Ok?
  {
    var a, b, c, d := OpAdd(7, 0, ""), OpScanManual(Some(0), Some(7), 0, 0), OpAdd(8, 0, ""), OpScanManual(Some(0), Some(8), 0, 0);
    assert [] + [a] == [a];
    RunSnoc(cfg, [], a);
    RunSnoc(cfg, [a], b);
    RunSnoc(cfg, [a] + [b], c);
    RunSnoc(cfg, [a] + [b] + [c], d);
  }

  // A reservation of a fresh attendee, keyless, while there is stock.
  lemma Reserved(cfg: Config, s: State, a: Id, newId: Id)
    requires Eligible(s, 0, a).Ok? && 1 in s.kits && s.kits[1].event == 0 && |ActiveOf(s, 1)| < s.kits[1].total
    requires !AlreadyHolds(s, 1, a) && newId !in s.handouts
    ensures Apply(cfg, s, Reserving(a, newId)) == s.(handouts := s.handouts[newId := NewHandout(0, 1, a, true, "", 0, 0)])
  {
    assert Replayed(s, 1, a, "") == None;
  }

  lemma TwoReservedState(cfg: Config)
    ensures var s := Run(cfg, EMPTY, TwoReserved());
            && s.kits == map[1 := Kit(0, 2)] && ActiveOf(s, 1) == {3, 4} && CollectedOf(s, 1) == {}
  {
    TwoInsideState(cfg);
    var create := OpCreateKit(Some(0), 2, true, -1, 1);
    RunSnoc(cfg, TwoInside(), create);
    RunSnoc(cfg, TwoInside() + [create], Reserving(7, 3));
    RunSnoc(cfg, TwoInside() + [create] + [Reserving(7, 3)], Reserving(8, 4));
    var s0 := Run(cfg, EMPTY, TwoInside());
    var s1 := Apply(cfg, s0, create);
    assert FreshKit(s0, 1);
    assert s1 == s0.(kits := map[1 := Kit(0, 2)]);
    assert ActiveOf(s1, 1) == {};
    Reserved(cfg, s1, 7, 3);
    var s2 := Apply(cfg, s1, Reserving(7, 3));
    assert ActiveOf(s2, 1) == {3};
    Reserved(cfg, s2, 8, 4);
  }

  // From an empty database: two reservations of a two-unit kit, then a cut to one unit. The cut is
  // accepted, and handing the units out breaks the total.
  lemma CutBelowPending(cfg: Config) returns (later: seq<Op>)
    ensures var s := Run(cfg, EMPTY, TwoReserved());
            && UpdateKit(s, Some(0), Some(1), Some(1)).1.Ok? && NoUpdates(later, 1)
            && !CollectedFits(Run(cfg, UpdateKit(s, Some(0), Some(1), Some(1)).0, later), 1)
  {
    TwoReservedState(cfg);
    EveryRunKeepsInv(cfg, TwoReserved());
    var s := Run(cfg, EMPTY, TwoReserved());
    assert |ActiveOf(s, 1)| == 2;
    CutIsSafeIff(cfg, s, Some(0), 1, 1);
    var s1 := UpdateKit(s, Some(0), Some(1), Some(1)).0;
    later :| NoUpdates(later, 1) && !CollectedFits(Run(cfg, s1, later), 1);
  }

  // ---------- retries and voids ----------

  // A retry under a key that already has a row changes nothing and returns that row.
  lemma RetryConverges(s: State, event: Id, kit: Id, attendee: Id, reserve: bool, key: string,
                       staff: Id, now: Time, newId: Id, h: Id)
    requires Inv(s) && kit in s.kits && s.kits[kit].event == event
    requires h in s.handouts && SameKey(s.handouts[h], kit, attendee, key)
    ensures CollectTx(s, event, kit, attendee, reserve, key, staff, now, newId) == (s, Ok(s.handouts[h]))
  {
    var r := Replayed(s, kit, attendee, key);
    assert r.value == h;
  }

  // Moving a handout puts no unit out, and voiding puts its own back; once moved it cannot be moved
  // again in the same way.
  lemma TransitionMeans(s: State, event: Option<Id>, handout: Option<Id>, to: HandoutStatus, from: set<HandoutStatus>,
                        staff: Id, now: Time, kit: Id)
    requires Voided !in from
    ensures var (s', r) := Transition(s, event, handout, to, from, staff, now);
            && ActiveOf(s', kit) == (if r.Ok? && to == Voided then ActiveOf(s, kit) - {handout.value} else ActiveOf(s, kit))
            && (r.Ok? && to !in from ==> Transition(s', event, handout, to, from, staff, now) == (s', Err(BadStatus)))
            && (r.Ok? ==> forall h :: h in s.handouts && h != handout.value ==> h in s'.handouts && s'.handouts[h] == s.handouts[h])
  {
    var (s', r) := Transition(s, event, handout, to, from, staff, now);
    forall h ensures h in ActiveOf(s', kit) <==>
                       h in ActiveOf(s, kit) && !(r.Ok? && to == Voided && h == handout.value)
    {
    }
  }

  // A cancelled row is never admitted, by any code or by hand, and cancelling again is refused.
  lemma CancelMineMeans(s: State, user: Id, attendee: Id)
    ensures var (s', r) := CancelMine(s, user, attendee);
            && (r.Ok? ==>
                  && attendee in s.attendees && s.attendees[attendee].status == Registered && s.attendees[attendee].user == Some(user)
                  && attendee in s'.attendees
                  && (forall tokenOk, event :: RowOutcome(s'.attendees[attendee], tokenOk, event) != ScannedIn)
                  && CancelMine(s', user, attendee) == (s', Err(BadStatus)))
            && (forall id :: id in s.attendees && (id != attendee || r.Err?) ==> id in s'.attendees && s'.attendees[id] == s.attendees[id])
  {
  }

  // VOIDED is final: no call changes a voided row; it can only go when its kit is deleted.
  lemma VoidedIsFinal(cfg: Config, s: State, op: Op, h: Id)
    requires Inv(s) && h in s.handouts && s.handouts[h].status == Voided
    ensures var s' := Apply(cfg, s, op);
            h in s'.handouts ==> s'.handouts[h] == s.handouts[h]
    ensures var s' := Apply(cfg, s, op);
            h !in s'.handouts ==> op.OpDeleteKit? && op.kitRef == Some(s.handouts[h].kit) && cfg.foreignKeys
  {
    if Fresh(s, op) && op.OpMint? {
      MintFills(cfg, s, op.order, op.user, op.event, op.quantity, op.drawn);
    }
  }

  // ---------- the listing ----------

  // Handouts of one kit in one status, as CountsByKit tallies them: among the event's rows.
  function Counted(s: State, event: Id, kit: Id, status: HandoutStatus): set<Id> {
    set h | h in s.handouts && s.handouts[h].event == event && s.handouts[h].kit == kit && s.handouts[h].status == status
  }

  function Remaining(s: State, event: Id, kit: Id): int
    requires kit in s.kits
  {
    var left := s.kits[kit].total - |Counted(s, event, kit, Pending)| - |Counted(s, event, kit, Collected)|;
    if left < 0 then 0 else left
  }

  lemma CountedActive(s: State, event: Id, kit: Id)
    requires Links(s) && kit in s.kits && s.kits[kit].event == event
    ensures |ActiveOf(s, kit)| == |Counted(s, event, kit, Pending)| + |Counted(s, event, kit, Collected)|
  {
    var p, c := Counted(s, event, kit, Pending), Counted(s, event, kit, Collected);
    forall h | h in s.handouts && s.handouts[h].kit == kit ensures s.handouts[h].event == event {
      assert Linked(s, s.handouts[h]);
    }
    assert ActiveOf(s, kit) == p + c;
    assert p * c == {};
    assert |p + c| == |p| + |c|;
  }

  // What the listing shows is what Collect enforces: a checked-in attendee who holds nothing of
  // this kit and uses no key is refused as exhausted exactly when nothing remains.
  lemma RemainingIsHonest(s: State, event: Id, kit: Id, attendee: Id, reserve: bool, staff: Id, now: Time, newId: Id)
    requires Inv(s) && kit in s.kits && s.kits[kit].event == event
    requires Eligible(s, event, attendee).Ok? && !AlreadyHolds(s, kit, attendee)
    ensures var r := Collect(s, Some(event), Some(kit), Some(attendee), reserve, "", staff, now, newId).1;
            && (Remaining(s, event, kit) == 0 <==> r == Err(QuantityExhausted))
            && (Remaining(s, event, kit) > 0 <==> r.Ok?)
  {
    CountedActive(s, event, kit);
    assert Replayed(s, kit, attendee, "") == None;
  }
}
