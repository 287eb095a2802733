// The services at the door: rows updated in place, each call proved to do what Door says.
module DoorService {
  import opened Common
  import opened Payload
  import opened Door
  import opened DoorMint
  import opened DoorStock
  import opened DoorLaws
  import DoorRuns

  // What a locked row reports back to a scan. Refusals ride the verdict.
  datatype Verdict = Verdict(eventOk: bool, tokenOk: bool, status: Status, flipped: bool, checkedInAt: Option<Time>)

  function VerdictOutcome(v: Verdict): Outcome {
    if !v.tokenOk then InvalidCode
    else if !v.eventOk then WrongEvent
    else if v.flipped then ScannedIn
    else if v.status == CheckedIn then AlreadyIn
    else if v.status == Cancelled then WasCancelled
    else InvalidCode
  }

  datatype KitWithCounts = KitWithCounts(kit: Kit, pending: nat, collected: nat, voided: nat, remaining: int)

  function CountOf(counts: map<Id, map<HandoutStatus, nat>>, kit: Id, status: HandoutStatus): nat {
    if kit in counts && status in counts[kit] then counts[kit][status] else 0
  }

  // ScanAll stops at the first error.
  lemma {:induction false} ScanAllStops(cfg: Config, s: State, event: Option<Id>, codes: seq<string>, staff: Id,
                                        clock: nat -> Time, n: nat)
    requires n <= |codes| && ScanAll(cfg, s, event, codes[..n], staff, clock).1.Err?
    ensures ScanAll(cfg, s, event, codes, staff, clock) == ScanAll(cfg, s, event, codes[..n], staff, clock)
  {
    if n == |codes| {
      assert codes[..n] == codes;
    } else {
      var m := |codes| - 1;
      assert codes[..m][..n] == codes[..n];
      ScanAllStops(cfg, s, event, codes[..m], staff, clock, n);
    }
  }

  lemma MoveLemmas(s: State, event: Option<Id>, handout: Option<Id>, to: HandoutStatus, from: set<HandoutStatus>, staff: Id, now: Time)
    requires Voided !in from
    ensures var (s', r) := Transition(s, event, handout, to, from, staff, now);
            && (forall k :: ActiveOf(s', k) == if r.Ok? && to == Voided then ActiveOf(s, k) - {handout.value} else ActiveOf(s, k))
            && (r.Ok? && to !in from ==> Transition(s', event, handout, to, from, staff, now) == (s', Err(BadStatus)))
            && (DoorRuns.Inv(s) ==> DoorRuns.Inv(s'))
  {
    TransitionMeans(s, event, handout, to, from, staff, now, 0);
    forall k {
      TransitionMeans(s, event, handout, to, from, staff, now, k);
    }
    if DoorRuns.Inv(s) {
      DoorRuns.TransitionKeeps(s, event, handout, to, from, staff, now);
    }
  }

  class Desk {
    var attendees: map<Id, Attendee>
    var log: seq<LogRow>
    var kits: map<Id, Kit>
    var handouts: map<Id, Handout>
    const cfg: Config

    function View(): State
      reads this
    {
      State(attendees, log, kits, handouts)
    }

    constructor (cfg: Config)
      ensures View() == DoorRuns.EMPTY && this.cfg == cfg
    {
      this.cfg := cfg;
      attendees, log, kits, handouts := map[], [], map[], map[];
    }

    // ---------- attendee rows, inside the caller's transaction ----------

    method Flip(id: Id, v: Verdict, now: Time) returns (r: Verdict)
      requires id in attendees
      modifies this`attendees
      ensures attendees == old(attendees)[id := Admitted(old(attendees)[id], now)]
      ensures r == v.(flipped := true, status := CheckedIn, checkedInAt := Some(now))
    {
      attendees := attendees[id := attendees[id].(status := CheckedIn, checkedInAt := Some(now))];
      r := v.(flipped := true, status := CheckedIn, checkedInAt := Some(now));
    }

    method ApplyCheckin(id: Id, rawToken: string, event: Id, now: Time) returns (v: Option<Verdict>)
      modifies this`attendees
      ensures v.None? <==> id !in old(attendees)
      ensures v.None? ==> attendees == old(attendees)
      ensures v.Some? ==>
                var a := old(attendees)[id];
                var outcome := RowOutcome(a, TokenMatches(cfg, a, rawToken), event);
                && VerdictOutcome(v.value) == outcome
                && v.value.checkedInAt == (if outcome == ScannedIn then Some(now) else None)
                && attendees == old(attendees)[id := if outcome == ScannedIn then Admitted(a, now) else a]
    {
      if id !in attendees { return None; }
      var a := attendees[id];
      var verdict := Verdict(a.event == event, TokenMatches(cfg, a, rawToken), a.status, false, None);
      if !verdict.eventOk || !verdict.tokenOk || a.status != Registered {
        assert attendees == attendees[id := a];
        return Some(verdict);
      }
      verdict := Flip(id, verdict, now);
      v := Some(verdict);
    }

    method ApplyCheckinManual(id: Id, event: Id, now: Time) returns (v: Option<Verdict>)
      modifies this`attendees
      ensures v.None? <==> id !in old(attendees)
      ensures v.None? ==> attendees == old(attendees)
      ensures v.Some? ==>
                var a := old(attendees)[id];
                var outcome := RowOutcome(a, true, event);
                && VerdictOutcome(v.value) == outcome
                && v.value.checkedInAt == (if outcome == ScannedIn then Some(now) else None)
                && attendees == old(attendees)[id := if outcome == ScannedIn then Admitted(a, now) else a]
    {
      if id !in attendees { return None; }
      var a := attendees[id];
      var verdict := Verdict(a.event == event, true, a.status, false, None);
      if !verdict.eventOk || a.status != Registered {
        assert attendees == attendees[id := a];
        return Some(verdict);
      }
      verdict := Flip(id, verdict, now);
      v := Some(verdict);
    }

    // ---------- door scans ----------

    method LogScan(event: Id, attendee: Option<Id>, staff: Id, outcome: Outcome, via: Means)
      modifies this`log
      ensures log == old(log) + [LogRow(event, attendee, staff, outcome, via)]
    {
      log := log + [LogRow(event, attendee, staff, outcome, via)];
    }

    method ScanQR(event: Option<Id>, code: string, staff: Id, now: Time) returns (r: Reply<ScanResult, DoorError>)
      modifies this`attendees, this`log
      ensures (View(), r) == ScanQr(cfg, old(View()), event, code, staff, now)
      ensures r == Err(SecretUnset) <==> cfg.secret == ""
      ensures r == Err(EventUnknown) <==> cfg.secret != "" && event.None?
      ensures r.Err? ==> View() == old(View())
      ensures r.Ok? ==>
                var vp := VerifyPayload(code, cfg.secret, cfg.prims);
                && r.value.attendee == (if vp.Ok? then Some(vp.value.attendee) else None)
                && log == old(log) + [LogRow(event.value, r.value.attendee, staff, r.value.outcome, Qr)]
                && r.value.checkedInAt == (if r.value.outcome == ScannedIn then Some(now) else None)
                && if vp.Ok? && vp.value.attendee in old(attendees) && TokenMatches(cfg, old(attendees)[vp.value.attendee], vp.value.rawToken)
                   then
                     && Tells(r.value.outcome, old(attendees)[vp.value.attendee], event.value)
                     && AdmitsOnly(old(attendees), attendees, vp.value.attendee, r.value.outcome == ScannedIn, now)
                   else r.value.outcome == InvalidCode && attendees == old(attendees)
    {
      if cfg.secret == "" { return Err(SecretUnset); }
      if event.None? { return Err(EventUnknown); }
      var vp := VerifyPayload(code, cfg.secret, cfg.prims);
      if vp.Err? {
        LogScan(event.value, None, staff, InvalidCode, Qr);
        return Ok(ScanResult(InvalidCode, Qr, None, None));
      }
      var id := vp.value.attendee;
      var verdict := ApplyCheckin(id, vp.value.rawToken, event.value, now);
      if verdict.None? {
        if cfg.foreignKeys { return Err(ForeignKeyViolation); }  // the log row cannot name this attendee
        LogScan(event.value, Some(id), staff, InvalidCode, Qr);
        return Ok(ScanResult(InvalidCode, Qr, Some(id), None));
      }
      var outcome := VerdictOutcome(verdict.value);
      LogScan(event.value, Some(id), staff, outcome, Qr);
      r := Ok(ScanResult(outcome, Qr, Some(id), verdict.value.checkedInAt));
    }

    method ScanManually(event: Option<Id>, attendee: Option<Id>, staff: Id, now: Time) returns (r: Reply<ScanResult, DoorError>)
      modifies this`attendees, this`log
      ensures (View(), r) == ScanManual(old(View()), event, attendee, staff, now)
      ensures r == Err(EventUnknown) <==> event.None?
      ensures r.Ok? <==> event.Some? && attendee.Some? && attendee.value in old(attendees)
      ensures r.Err? ==> View() == old(View())
      ensures r.Ok? ==>
                && r.value.attendee == attendee && Tells(r.value.outcome, old(attendees)[attendee.value], event.value)
                && AdmitsOnly(old(attendees), attendees, attendee.value, r.value.outcome == ScannedIn, now)
                && log == old(log) + [LogRow(event.value, attendee, staff, r.value.outcome, Manual)]
                && r.value.checkedInAt == (if r.value.outcome == ScannedIn then Some(now) else None)
    {
      if event.None? { return Err(EventUnknown); }
      if attendee.None? { return Err(AttendeeUnknown); }
      var verdict := ApplyCheckinManual(attendee.value, event.value, now);
      if verdict.None? { return Err(AttendeeUnknown); }
      var outcome := VerdictOutcome(verdict.value);
      LogScan(event.value, attendee, staff, outcome, Manual);
      r := Ok(ScanResult(outcome, Manual, attendee, verdict.value.checkedInAt));
    }

    method ScanBatch(event: Option<Id>, codes: seq<string>, staff: Id, clock: nat -> Time)
      returns (r: Reply<seq<ScanResult>, DoorError>)
      modifies this`attendees, this`log
      ensures |codes| > 50 ==> r == Err(BatchTooLarge) && View() == old(View())
      ensures |codes| <= 50 ==> (View(), r) == ScanAll(cfg, old(View()), event, codes, staff, clock)
    {
      if |codes| > MAX_BATCH { return Err(BatchTooLarge); }
      var out: seq<ScanResult> := [];
      for i := 0 to |codes|
        invariant (View(), Ok(out)) == ScanAll(cfg, old(View()), event, codes[..i], staff, clock)
      {
        assert codes[..i + 1][..i] == codes[..i];
        var one := ScanQR(event, codes[i], staff, clock(i));
        if one.Err? {
          ScanAllStops(cfg, old(View()), event, codes, staff, clock, i + 1);
          return Err(one.error);
        }
        out := out + [one.value];
      }
      assert codes[..|codes|] == codes;
      r := Ok(out);
    }

    method RevertCheckin(event: Option<Id>, attendee: Option<Id>, staff: Id) returns (r: Reply<ScanResult, DoorError>)
      modifies this`attendees, this`log
      ensures (View(), r) == Revert(old(View()), event, attendee, staff)
      ensures r == Err(HandoutsOutstanding) <==>
                event.Some? && attendee.Some?
                && exists h :: h in handouts && handouts[h].attendee == attendee.value && handouts[h].status != Voided
      ensures r.Ok? <==>
                && event.Some? && attendee.Some? && attendee.value in old(attendees) && old(attendees)[attendee.value].event == event.value
                && old(attendees)[attendee.value].status == CheckedIn
                && forall h :: h in handouts && handouts[h].attendee == attendee.value ==> handouts[h].status == Voided
      ensures r.Err? ==> View() == old(View())
      ensures r.Ok? ==>
                && attendees == old(attendees)[attendee.value := old(attendees)[attendee.value].(status := Registered, checkedInAt := None)]
                && log == old(log) + [LogRow(event.value, attendee, staff, Reverted, Manual)]
                && r.value == ScanResult(Reverted, Manual, attendee, None)
    {
      if event.None? { return Err(EventUnknown); }
      if attendee.None? { return Err(AttendeeUnknown); }
      var id := attendee.value;
      if exists h :: h in handouts && handouts[h].attendee == id && handouts[h].Active() {
        return Err(HandoutsOutstanding);
      }
      if id !in attendees { return Err(AttendeeUnknown); }
      var a := attendees[id];
      if a.event != event.value { return Err(AttendeeUnknown); }
      if a.status != CheckedIn { return Err(NotCheckedIn); }
      attendees := attendees[id := a.(status := Registered, checkedInAt := None)];
      LogScan(event.value, Some(id), staff, Reverted, Manual);
      r := Ok(ScanResult(Reverted, Manual, Some(id), None));
    }

    // ---------- roster ----------

    method MintForOrder(order: Id, user: Id, event: Id, quantity: int, drawn: seq<Minted>) returns (out: seq<Minted>)
      requires quantity <= |drawn|
      modifies this`attendees
      ensures quantity <= 0 ==> out == [] && View() == old(View())
      ensures quantity > 0 ==> (View(), out) == Mint(cfg, old(View()), order, user, event, quantity, drawn)
    {
      out := [];
      var unit := 0;
      while unit < quantity
        invariant 0 <= unit && (unit <= quantity || (quantity <= 0 && unit == 0))
        invariant unit <= |drawn| && (View(), out) == Mint(cfg, old(View()), order, user, event, unit, drawn)
      {
        var minted := exists a :: a in attendees && attendees[a].order == Some(order) && attendees[a].unit == unit;
        if !minted {
          var m := drawn[unit];
          attendees := attendees[m.id := Attendee(Some(order), unit, event, Some(user), cfg.prims.hash(m.rawToken), Registered, None)];
          out := out + [m];
        }
        unit := unit + 1;
      }
    }

    method CancelOrderRows(order: Id)
      modifies this`attendees
      ensures View() == CancelForOrder(old(View()), order)
      ensures attendees.Keys == old(attendees).Keys
      ensures forall id :: id in attendees ==>
                if old(attendees)[id].order == Some(order) && old(attendees)[id].status == Registered
                then attendees[id].status == Cancelled && attendees[id] == old(attendees)[id].(status := Cancelled)
                else attendees[id] == old(attendees)[id]
    {
      attendees := map id | id in attendees ::
        if attendees[id].order == Some(order) && attendees[id].status == Registered
        then attendees[id].(status := Cancelled) else attendees[id];
    }

    method CancelOwn(user: Id, attendee: Id) returns (r: Reply<Attendee, DoorError>)
      modifies this`attendees
      ensures (View(), r) == CancelMine(old(View()), user, attendee)
      ensures r.Ok? ==>
                && attendee in old(attendees) && old(attendees)[attendee].status == Registered
                && old(attendees)[attendee].user == Some(user) && attendee in attendees
                && (forall tokenOk, event :: RowOutcome(attendees[attendee], tokenOk, event) != ScannedIn)
                && CancelMine(View(), user, attendee) == (View(), Err(BadStatus))
      ensures forall id :: id in old(attendees) && (id != attendee || r.Err?) ==> id in attendees && attendees[id] == old(attendees)[id]
      ensures DoorRuns.Inv(old(View())) ==> DoorRuns.Inv(View())
    {
      CancelMineMeans(View(), user, attendee);
      if DoorRuns.Inv(View()) {
        DoorRuns.ApplyKeeps(cfg, View(), DoorRuns.OpCancelMine(user, attendee));
      }
      if attendee !in attendees { return Err(AttendeeUnknown); }
      var a := attendees[attendee];
      if a.user != Some(user) { return Err(AttendeeUnknown); }
      if a.status != Registered { return Err(BadStatus); }
      a := a.(status := Cancelled);
      attendees := attendees[attendee := a];
      r := Ok(a);
    }

    // ---------- kits ----------

    method UpdateKitTotal(event: Option<Id>, kit: Option<Id>, total: Option<int>) returns (r: Reply<Kit, DoorError>)
      modifies this`kits
      ensures (View(), r) == UpdateKit(old(View()), event, kit, total)
      ensures r.Ok? <==>
                && event.Some? && kit.Some? && kit.value in old(kits) && old(kits)[kit.value].event == event.value
                && (total.Some? ==> total.value >= 1 && total.value >= |InState(handouts, kit.value, Collected)|)
      ensures r == Err(KitUnknown) <==> event.None? || kit.None? || kit.value !in old(kits) || old(kits)[kit.value].event != event.value
      ensures r == Err(BadQuantity) ==> total.Some? && total.value < 1
      ensures r == Err(QuantityBelowCollected) ==> total.Some? && total.value >= 1
      ensures r.Err? ==> kits == old(kits)
      ensures r.Ok? ==>
                && kits.Keys == old(kits).Keys && (forall k :: k in kits && k != kit.value ==> kits[k] == old(kits)[k])
                && r.value == kits[kit.value] && kits[kit.value].event == event.value
                && kits[kit.value].total == if total.Some? then total.value else old(kits)[kit.value].total
    {
      if event.None? || kit.None? || kit.value !in kits { return Err(KitUnknown); }
      var k := kits[kit.value];
      if k.event != event.value { return Err(KitUnknown); }
      if total.Some? {
        if total.value < 1 { return Err(BadQuantity); }
        var collected := set h | h in handouts && handouts[h].kit == kit.value && handouts[h].status == Collected;
        assert collected == CollectedOf(View(), kit.value);
        if total.value < |collected| { return Err(QuantityBelowCollected); }
        k := k.(total := total.value);
      }
      kits := kits[kit.value := k];
      assert total.None? ==> kits == old(kits);
      r := Ok(k);
    }

    method RemoveKit(event: Option<Id>, kit: Option<Id>) returns (r: Reply<(), DoorError>)
      modifies this`kits, this`handouts
      ensures (View(), r) == DeleteKit(cfg, old(View()), event, kit)
      ensures r.Ok? <==>
                && event.Some? && kit.Some? && kit.value in old(kits) && old(kits)[kit.value].event == event.value
                && forall h :: h in old(handouts) && old(handouts)[h].kit == kit.value ==> old(handouts)[h].status == Voided
      ensures r == Err(KitHasHandouts) <==>
                && event.Some? && kit.Some? && kit.value in old(kits) && old(kits)[kit.value].event == event.value
                && exists h :: h in old(handouts) && old(handouts)[h].kit == kit.value && old(handouts)[h].status != Voided
      ensures r.Err? ==> View() == old(View())
      ensures r.Ok? ==> kit.value !in kits && forall k :: k in old(kits) && k != kit.value ==> k in kits && kits[k] == old(kits)[k]
      ensures forall h :: h in old(handouts) && (r.Ok? ==> old(handouts)[h].kit != kit.value) ==> h in handouts && handouts[h] == old(handouts)[h]
      ensures r.Ok? && cfg.foreignKeys ==> forall h :: h in handouts ==> handouts[h].kit != kit.value
    {
      if event.None? || kit.None? || kit.value !in kits { return Err(KitUnknown); }
      if kits[kit.value].event != event.value { return Err(KitUnknown); }
      var active := set h | h in handouts && handouts[h].kit == kit.value && handouts[h].Active();
      assert active == ActiveOf(View(), kit.value);
      NoneActive(View(), kit.value);
      if |active| > 0 { return Err(KitHasHandouts); }
      kits := kits - {kit.value};
      if cfg.foreignKeys {  // ON DELETE CASCADE
        handouts := map h | h in handouts && handouts[h].kit != kit.value :: handouts[h];
      }
      r := Ok(());
    }

    method HandOut(event: Option<Id>, kit: Option<Id>, attendee: Option<Id>, reserve: bool, key: string,
                   staff: Id, now: Time, newId: Id) returns (r: Reply<Handout, DoorError>)
      requires DoorRuns.UniqueHandouts(View())
      modifies this`handouts
      ensures (View(), r) == Collect(old(View()), event, kit, attendee, reserve, key, staff, now, newId)
      ensures newId !in old(handouts) ==>
                Answers(old(View()), View(), r, event, kit, attendee, reserve, key, staff, now, newId)
    {
      if newId !in handouts {
        CollectMeans(View(), event, kit, attendee, reserve, key, staff, now, newId);
      }
      hide Answers;
      if event.None? || kit.None? { return Err(KitUnknown); }
      if attendee.None? { return Err(AttendeeUnknown); }
      var e, k, a := event.value, kit.value, attendee.value;
      if a !in attendees || attendees[a].event != e { return Err(AttendeeUnknown); }
      if attendees[a].status != CheckedIn { return Err(NotCheckedIn); }
      if k !in kits || kits[k].event != e { return Err(KitUnknown); }
      ghost var replayed := Replayed(View(), k, a, key);
      if key != "" {
        if h :| h in handouts && SameKey(handouts[h], k, a, key) {
          assert replayed == Some(h);
          return Ok(handouts[h]);
        }
      }
      assert replayed == None;
      var active := set h | h in handouts && handouts[h].kit == k && handouts[h].Active();
      assert active == ActiveOf(View(), k);
      if |active| >= kits[k].total { return Err(QuantityExhausted); }
      if exists h :: h in handouts && handouts[h].kit == k && handouts[h].attendee == a && handouts[h].Active() {
        return Err(AlreadyCollected);  // unique index on active (kit, attendee)
      }
      var c := Handout(k, e, a, key, Pending, None, None);
      if !reserve {
        c := c.(status := Collected, collectedAt := Some(now), collectedBy := Some(staff));
      }
      handouts := handouts[newId := c];
      r := Ok(c);
    }

    method MoveHandout(event: Option<Id>, handout: Option<Id>, to: HandoutStatus, from: set<HandoutStatus>,
                       staff: Id, now: Time) returns (r: Reply<Handout, DoorError>)
      modifies this`handouts
      ensures (View(), r) == Transition(old(View()), event, handout, to, from, staff, now)
      ensures Voided !in from ==>
                forall k :: ActiveOf(View(), k) ==
                  if r.Ok? && to == Voided then ActiveOf(old(View()), k) - {handout.value} else ActiveOf(old(View()), k)
      ensures r.Ok? <==>
                && event.Some? && handout.Some? && handout.value in old(handouts) && old(handouts)[handout.value].event == event.value
                && old(handouts)[handout.value].status in from && old(handouts)[handout.value].kit in kits
      ensures r.Ok? ==>
                var was := old(handouts)[handout.value];
                && handouts == old(handouts)[handout.value := r.value]
                && r.value == was.(status := to, collectedAt := r.value.collectedAt, collectedBy := r.value.collectedBy)
                && (if to == Collected then r.value.collectedAt == Some(now) && r.value.collectedBy == Some(staff)
                    else r.value.collectedAt == was.collectedAt && r.value.collectedBy == was.collectedBy)
      ensures r.Err? ==> handouts == old(handouts)
      ensures Voided !in from && to !in from && r.Ok? ==>
                Transition(View(), event, handout, to, from, staff, now) == (View(), Err(BadStatus))
      ensures Voided !in from && DoorRuns.Inv(old(View())) ==> DoorRuns.Inv(View())
    {
      if Voided !in from {
        MoveLemmas(View(), event, handout, to, from, staff, now);
      }
      if event.None? || handout.None? || handout.value !in handouts { return Err(HandoutUnknown); }
      var c := handouts[handout.value];
      if c.event != event.value { return Err(HandoutUnknown); }
      if c.status !in from { return Err(BadStatus); }
      c := c.(status := to);
      if to == Collected {
        c := c.(collectedAt := Some(now), collectedBy := Some(staff));
      }
      if c.kit !in kits { return Err(KitUnknown); }  // rolls the transaction back
      handouts := handouts[handout.value := c];
      r := Ok(c);
    }

    // Tallies per kit and status over the event's handouts.
    method CountsByKit(event: Id) returns (counts: map<Id, map<HandoutStatus, nat>>)
      ensures forall k: Id, st :: CountOf(counts, k, st) == |Counted(View(), event, k, st)|
    {
      counts := map[];
      var todo := handouts.Keys;
      ghost var done: set<Id> := {};
      assert forall k: Id, st :: CountedIn(done, event, k, st) == {};
      while todo != {}
        invariant done == handouts.Keys - todo && todo <= handouts.Keys
        invariant forall k: Id, st :: CountOf(counts, k, st) == |CountedIn(done, event, k, st)|
        decreases |todo|
      {
        var h :| h in todo;
        var row := handouts[h];
        ghost var before, done' := counts, done + {h};
        if row.event == event {
          var m := if row.kit in counts then counts[row.kit] else map[];
          var n := if row.status in m then m[row.status] else 0;
          counts := counts[row.kit := m[row.status := n + 1]];
        }
        forall k: Id, st ensures CountOf(counts, k, st) == |CountedIn(done', event, k, st)| {
          assert CountOf(before, k, st) == |CountedIn(done, event, k, st)|;
          OneMoreCounted(done, h, event, k, st);
        }
        todo := todo - {h};
        done := done';
      }
      forall k: Id, st ensures CountedIn(done, event, k, st) == Counted(View(), event, k, st) {
      }
    }

    lemma OneMoreCounted(done: set<Id>, h: Id, event: Id, kit: Id, status: HandoutStatus)
      requires h in handouts && h !in done
      ensures var row := handouts[h];
              |CountedIn(done + {h}, event, kit, status)| == |CountedIn(done, event, kit, status)|
                + if row.event == event && row.kit == kit && row.status == status then 1 else 0
    {
      var row := handouts[h];
      if row.event == event && row.kit == kit && row.status == status {
        assert CountedIn(done + {h}, event, kit, status) == CountedIn(done, event, kit, status) + {h};
      } else {
        assert CountedIn(done + {h}, event, kit, status) == CountedIn(done, event, kit, status);
      }
    }

    ghost function CountedIn(done: set<Id>, event: Id, kit: Id, status: HandoutStatus): set<Id>
      reads this
    {
      set h | h in done && h in handouts && handouts[h].event == event && handouts[h].kit == kit && handouts[h].status == status
    }

    method ListKits(event: Id) returns (out: map<Id, KitWithCounts>)
      ensures forall k :: k in out <==> k in kits && kits[k].event == event
      ensures forall k :: k in out ==>
                && out[k].kit == kits[k]
                && out[k].pending == |Counted(View(), event, k, Pending)|
                && out[k].collected == |Counted(View(), event, k, Collected)|
                && out[k].voided == |Counted(View(), event, k, Voided)|
                && out[k].remaining == Remaining(View(), event, k)
    {
      var counts := CountsByKit(event);
      out := map k | k in kits && kits[k].event == event ::
        var pending, collected := CountOf(counts, k, Pending), CountOf(counts, k, Collected);
        var left := kits[k].total - pending - collected;
        KitWithCounts(kits[k], pending, collected, CountOf(counts, k, Voided), if left < 0 then 0 else left);
    }
  }
}
