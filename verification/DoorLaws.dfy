// What one door call means, read off the tables.
module DoorLaws {
  import opened Common
  import opened Payload
  import opened Door
  import opened DoorMint
  import DoorRuns

  // ---------- scans ----------

  // What a door attempt with a good code (or none needed) tells about the row it found.
  predicate Tells(o: Outcome, a: Attendee, event: Id) {
    && (o == WrongEvent <==> a.event != event)
    && (o == ScannedIn <==> a.event == event && a.status == Registered)
    && (o == AlreadyIn <==> a.event == event && a.status == CheckedIn)
    && (o == WasCancelled <==> a.event == event && a.status == Cancelled)
  }

  // One row admitted at `now`, or none.
  ghost predicate AdmitsOnly(before: map<Id, Attendee>, after: map<Id, Attendee>, id: Id, admitted: bool, now: Time) {
    && after.Keys == before.Keys
    && (forall a :: a in before && (a != id || !admitted) ==> after[a] == before[a])
    && (admitted ==> id in before && after[id] == before[id].(status := CheckedIn, checkedInAt := Some(now)))
  }

  // A scan, a revert and a second scan: in, out with the row as it was, in again; a scan in between
  // says so. A cancelled row says it was cancelled.
  lemma InAndOut(s: State, event: Id, id: Id, staff: Id, now: Time, later: Time)
    requires id in s.attendees && s.attendees[id].event == event && s.attendees[id].status == Registered
    requires s.attendees[id].checkedInAt.None? && !HoldsHandout(s, id)
    ensures var (s1, r1) := ScanManual(s, Some(event), Some(id), staff, now);
            && r1 == Ok(ScanResult(ScannedIn, Manual, Some(id), Some(now)))
            && ScanManual(s1, Some(event), Some(id), staff, later).1 == Ok(ScanResult(AlreadyIn, Manual, Some(id), None))
            && ScanManual(s1, Some(event), Some(id), staff, later).0.attendees == s1.attendees
            && var (s2, r2) := Revert(s1, Some(event), Some(id), staff);
               r2 == Ok(ScanResult(Reverted, Manual, Some(id), None)) && s2.attendees == s.attendees
    ensures var s1 := CancelForOrder(s.(attendees := s.attendees[id := s.attendees[id].(order := Some(0))]), 0);
            ScanManual(s1, Some(event), Some(id), staff, now).1 == Ok(ScanResult(WasCancelled, Manual, Some(id), None))
  {
    var a := s.attendees[id];
    var s1 := ScanManual(s, Some(event), Some(id), staff, now).0;
    assert s1.attendees[id] == Admitted(a, now);
    assert !HoldsHandout(s1, id);
    assert s1.attendees[id := s1.attendees[id].(status := Registered, checkedInAt := None)] == s.attendees;
  }

  // A row added by hand belongs to no order and no account, and is admitted at its own event only.
  lemma WalkIn(s: State, id: Id, event: Id, tokenHash: string, at: Id, staff: Id, now: Time, user: Id)
    ensures var s' := DoorRuns.AddManual(s, id, event, tokenHash);
            && id in s'.attendees && s'.attendees[id].tokenHash == tokenHash
            && ScanManual(s', Some(at), Some(id), staff, now).1
                 == Ok(ScanResult(if at == event then ScannedIn else WrongEvent, Manual, Some(id), if at == event then Some(now) else None))
            && CancelMine(s', user, id).1 == Err(AttendeeUnknown)
  {
  }

  // ---------- minting ----------

  predicate IsMinted(cfg: Config, a: Attendee, order: Id, unit: nat, event: Id, user: Id, rawToken: string) {
    && a.order == Some(order) && a.unit == unit && a.event == event && a.user == Some(user)
    && a.tokenHash == cfg.prims.hash(rawToken) && a.status == Registered && a.checkedInAt.None?
  }

  // Every minted row is a REGISTERED one of this order, unit, event and buyer, with its own token's hash;
  // its buyer can cancel it, and nobody else.
  lemma MintedRow(cfg: Config, s: State, order: Id, user: Id, event: Id, n: nat, drawn: seq<Minted>, unit: nat)
    requires n <= |drawn| && unit < n && FreshDraws(s, drawn) && !UnitExists(s, order, unit)
    ensures var s' := Mint(cfg, s, order, user, event, n, drawn).0;
            var id := drawn[unit].id;
            && id in s'.attendees
            && IsMinted(cfg, s'.attendees[id], order, unit, event, user, drawn[unit].rawToken)
            && forall who :: CancelMine(s', who, id).1.Ok? <==> who == user
  {
    MintFills(cfg, s, order, user, event, n, drawn);
  }

  // ---------- handouts ----------

  function InState(handouts: map<Id, Handout>, kit: Id, status: HandoutStatus): set<Id> {
    set h | h in handouts && handouts[h].kit == kit && handouts[h].status == status
  }

  ghost predicate Retried(handouts: map<Id, Handout>, kit: Id, attendee: Id, key: string) {
    key != "" && exists h :: h in handouts && SameKey(handouts[h], kit, attendee, key)
  }

  // Everything a Collect demands.
  ghost predicate MayCollect(s: State, event: Option<Id>, kit: Option<Id>, attendee: Option<Id>, key: string) {
    && event.Some? && kit.Some? && attendee.Some?
    && attendee.value in s.attendees && s.attendees[attendee.value].event == event.value
    && s.attendees[attendee.value].status == CheckedIn
    && kit.value in s.kits && s.kits[kit.value].event == event.value
    && (Retried(s.handouts, kit.value, attendee.value, key)
        || (|InState(s.handouts, kit.value, Pending) + InState(s.handouts, kit.value, Collected)| < s.kits[kit.value].total
            && forall h :: h in s.handouts && s.handouts[h].kit == kit.value && s.handouts[h].attendee == attendee.value ==>
                 s.handouts[h].status == Voided))
  }

  // A direct hand-out is collected there and then by this member of staff, a reserved one is pending.
  ghost predicate HandsOut(before: map<Id, Handout>, after: map<Id, Handout>, event: Id, kit: Id, attendee: Id, reserve: bool,
                           key: string, staff: Id, now: Time, newId: Id)
  {
    && after.Keys == before.Keys + {newId} && (forall h :: h in before ==> after[h] == before[h])
    && var c := after[newId];
       && c.kit == kit && c.event == event && c.attendee == attendee && c.key == key
       && if reserve then
            && InState(after, kit, Pending) == InState(before, kit, Pending) + {newId}
            && InState(after, kit, Collected) == InState(before, kit, Collected)
            && c.collectedAt.None? && c.collectedBy.None?
          else
            && InState(after, kit, Collected) == InState(before, kit, Collected) + {newId}
            && InState(after, kit, Pending) == InState(before, kit, Pending)
            && c.collectedAt == Some(now) && c.collectedBy == Some(staff)
  }

  // Accepted exactly when it may be. A refusal and a retry change nothing; anything else inserts the row
  // it answers with.
  ghost predicate Answers(s: State, s': State, r: Reply<Handout, DoorError>, event: Option<Id>, kit: Option<Id>, attendee: Option<Id>,
                          reserve: bool, key: string, staff: Id, now: Time, newId: Id)
  {
    && s' == s.(handouts := s'.handouts)
    && (r.Ok? <==> MayCollect(s, event, kit, attendee, key))
    && if r.Err? || Retried(s.handouts, kit.value, attendee.value, key) then s' == s
       else
         && HandsOut(s.handouts, s'.handouts, event.value, kit.value, attendee.value, reserve, key, staff, now, newId)
         && r.value == s'.handouts[newId]
  }

  lemma CollectIff(s: State, event: Option<Id>, kit: Option<Id>, attendee: Option<Id>, reserve: bool,
                   key: string, staff: Id, now: Time, newId: Id)
    ensures Collect(s, event, kit, attendee, reserve, key, staff, now, newId).1.Ok? <==> MayCollect(s, event, kit, attendee, key)
  {
    if event.Some? && kit.Some? && attendee.Some? {
      ActiveStates(s, kit.value);
      RetriedIff(s, kit.value, attendee.value, key);
    }
    hide InState, ActiveOf, NewHandout, Retried, SameKey, Replayed;
  }

  lemma CollectEffect(s: State, event: Option<Id>, kit: Option<Id>, attendee: Option<Id>, reserve: bool,
                      key: string, staff: Id, now: Time, newId: Id)
    ensures var (s', r) := Collect(s, event, kit, attendee, reserve, key, staff, now, newId);
            && (r.Err? ==> s' == s)
            && (r.Ok? ==>
                  && event.Some? && kit.Some? && attendee.Some?
                  && if Retried(s.handouts, kit.value, attendee.value, key) then s' == s
                     else
                       var c := NewHandout(event.value, kit.value, attendee.value, reserve, key, staff, now);
                       r.value == c && s' == s.(handouts := s.handouts[newId := c]))
  {
    if event.Some? && kit.Some? && attendee.Some? {
      RetriedIff(s, kit.value, attendee.value, key);
    }
    hide InState, ActiveOf, NewHandout, Retried, SameKey, Replayed, AlreadyHolds;
  }

  lemma CollectMeans(s: State, event: Option<Id>, kit: Option<Id>, attendee: Option<Id>, reserve: bool,
                     key: string, staff: Id, now: Time, newId: Id)
    requires newId !in s.handouts
    ensures var (s', r) := Collect(s, event, kit, attendee, reserve, key, staff, now, newId);
            Answers(s, s', r, event, kit, attendee, reserve, key, staff, now, newId)
  {
    CollectIff(s, event, kit, attendee, reserve, key, staff, now, newId);
    CollectEffect(s, event, kit, attendee, reserve, key, staff, now, newId);
    if event.Some? && kit.Some? && attendee.Some? {
      HandedOut(s, event.value, kit.value, attendee.value, reserve, key, staff, now, newId);
    }
    hide Collect, MayCollect, HandsOut, NewHandout, Retried;
  }

  lemma ActiveStates(s: State, kit: Id)
    ensures ActiveOf(s, kit) == InState(s.handouts, kit, Pending) + InState(s.handouts, kit, Collected)
  {
    forall h | h in s.handouts ensures s.handouts[h].Active() <==> s.handouts[h].status in {Pending, Collected} {
    }
  }

  lemma RetriedIff(s: State, kit: Id, attendee: Id, key: string)
    ensures Retried(s.handouts, kit, attendee, key) <==> Replayed(s, kit, attendee, key).Some?
  {
    if Replayed(s, kit, attendee, key).Some? {
      assert SameKey(s.handouts[Replayed(s, kit, attendee, key).value], kit, attendee, key);
    }
  }

  lemma HandedOut(s: State, event: Id, kit: Id, attendee: Id, reserve: bool, key: string, staff: Id, now: Time, newId: Id)
    requires newId !in s.handouts
    ensures HandsOut(s.handouts, s.handouts[newId := NewHandout(event, kit, attendee, reserve, key, staff, now)],
                     event, kit, attendee, reserve, key, staff, now, newId)
  {
  }

  // Reserving and then marking is handing out: with the same staff and time the rows are the same. What
  // was handed out directly cannot be marked again.
  lemma ReserveThenMark(s: State, event: Id, kit: Id, attendee: Id, key: string, staff: Id, now: Time, newId: Id)
    requires MayCollect(s, Some(event), Some(kit), Some(attendee), key) && newId !in s.handouts
    requires !Retried(s.handouts, kit, attendee, key)
    ensures var s1 := Collect(s, Some(event), Some(kit), Some(attendee), true, key, staff, now, newId).0;
            var direct := Collect(s, Some(event), Some(kit), Some(attendee), false, key, staff, now, newId).0;
            && newId in direct.handouts
            && MarkCollected(s1, Some(event), Some(newId), staff, now) == (direct, Ok(direct.handouts[newId]))
            && MarkCollected(direct, Some(event), Some(newId), staff, now) == (direct, Err(BadStatus))
  {
    hide MayCollect, Retried, HandsOut, Collect, Transition;
    CollectMeans(s, Some(event), Some(kit), Some(attendee), true, key, staff, now, newId);
    CollectMeans(s, Some(event), Some(kit), Some(attendee), false, key, staff, now, newId);
    var s1 := Collect(s, Some(event), Some(kit), Some(attendee), true, key, staff, now, newId).0;
    var direct := Collect(s, Some(event), Some(kit), Some(attendee), false, key, staff, now, newId).0;
    assert kit in s.kits by { KitIsThere(s, event, kit, attendee, key); }
    MarkedIsDirect(s, s1, direct, event, kit, attendee, key, staff, now, newId);
  }

  lemma KitIsThere(s: State, event: Id, kit: Id, attendee: Id, key: string)
    requires MayCollect(s, Some(event), Some(kit), Some(attendee), key)
    ensures kit in s.kits
  {
  }

  lemma MarkedIsDirect(s: State, s1: State, direct: State, event: Id, kit: Id, attendee: Id, key: string, staff: Id, now: Time, newId: Id)
    requires s1 == s.(handouts := s1.handouts) && direct == s.(handouts := direct.handouts) && kit in s.kits && newId !in s.handouts
    requires HandsOut(s.handouts, s1.handouts, event, kit, attendee, true, key, staff, now, newId)
    requires HandsOut(s.handouts, direct.handouts, event, kit, attendee, false, key, staff, now, newId)
    ensures newId in direct.handouts
    ensures MarkCollected(s1, Some(event), Some(newId), staff, now) == (direct, Ok(direct.handouts[newId]))
    ensures MarkCollected(direct, Some(event), Some(newId), staff, now) == (direct, Err(BadStatus))
  {
    assert newId in InState(s1.handouts, kit, Pending) && newId in InState(direct.handouts, kit, Collected);
    var marked := s1.handouts[newId].(status := Collected, collectedAt := Some(now), collectedBy := Some(staff));
    assert marked == direct.handouts[newId];
    assert s1.handouts[newId := marked] == direct.handouts;
  }

  // Only a pending handout is marked collected, and only a pending or collected one voided. Marking
  // stamps it; voiding keeps the stamps it had.
  lemma MarkAndVoid(s: State, event: Id, h: Id, staff: Id, now: Time)
    requires h in s.handouts && s.handouts[h].event == event && s.handouts[h].kit in s.kits
    ensures MarkCollected(s, Some(event), Some(h), staff, now).1
              == (if s.handouts[h].status == Pending
                  then Ok(s.handouts[h].(status := Collected, collectedAt := Some(now), collectedBy := Some(staff))) else Err(BadStatus))
    ensures Void(s, Some(event), Some(h), staff, now).1
              == (if s.handouts[h].status != Voided then Ok(s.handouts[h].(status := Voided)) else Err(BadStatus))
  {
  }

  lemma NoneActive(s: State, kit: Id)
    ensures |ActiveOf(s, kit)| == 0 <==> forall h :: h in s.handouts && s.handouts[h].kit == kit ==> s.handouts[h].status == Voided
  {
    if forall h :: h in s.handouts && s.handouts[h].kit == kit ==> s.handouts[h].status == Voided {
      assert ActiveOf(s, kit) == {};
    } else {
      var h :| h in s.handouts && s.handouts[h].kit == kit && s.handouts[h].status != Voided;
      assert h in ActiveOf(s, kit);
    }
  }

  // A kit is created while the plan allows kits and another one; deleting it at once undoes that.
  lemma CreateThenDelete(cfg: Config, s: State, event: Option<Id>, total: int, allowed: bool, cap: int, newId: Id)
    requires FreshKit(s, newId)
    ensures var (s', r) := CreateKit(s, event, total, allowed, cap, newId);
            && (r.Ok? <==> event.Some? && total >= 1 && allowed
                           && (cap < 0 || |set k | k in s.kits && s.kits[k].event == event.value| < cap))
            && (r.Err? ==> s' == s)
            && (r.Ok? ==>
                  && newId in s'.kits && s'.kits[newId].event == event.value && s'.kits[newId].total == total
                  && DeleteKit(cfg, s', event, Some(newId)) == (s, Ok(())))
  {
    var (s', r) := CreateKit(s, event, total, allowed, cap, newId);
    if r.Ok? {
      assert ActiveOf(s', newId) == {};
      assert s'.kits - {newId} == s.kits;
      var s2 := DeleteKit(cfg, s', event, Some(newId)).0;
      assert s2.kits == s.kits && s2.handouts == s.handouts;
    }
  }
}
