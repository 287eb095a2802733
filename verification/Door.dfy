// The door: attendee rows, the append-only scan log and kit handouts, and what each service
// call does to them. Three services share these tables, so one state holds all of them.
module Door {
  import opened Common
  import opened Payload

  datatype Status = Registered | CheckedIn | Cancelled

  datatype Attendee = Attendee(
    order: Option<Id>, unit: nat, event: Id, user: Option<Id>,
    tokenHash: string, status: Status, checkedInAt: Option<Time>)

  datatype Outcome = ScannedIn | AlreadyIn | InvalidCode | WasCancelled | WrongEvent | Reverted
  datatype Means = Qr | Manual

  datatype LogRow = LogRow(event: Id, attendee: Option<Id>, staff: Id, outcome: Outcome, via: Means)

  datatype Kit = Kit(event: Id, total: int)

  datatype HandoutStatus = Pending | Collected | Voided

  datatype Handout = Handout(
    kit: Id, event: Id, attendee: Id, key: string,
    status: HandoutStatus, collectedAt: Option<Time>, collectedBy: Option<Id>)
  {
    predicate Active() { status != Voided }
  }

  datatype State = State(
    attendees: map<Id, Attendee>, log: seq<LogRow>, kits: map<Id, Kit>, handouts: map<Id, Handout>)

  // foreignKeys: the migrations' references hold (Postgres); false for a schema created from the
  // models alone. secret: the QR key, "" when it was never set.
  datatype Config = Config(prims: Primitives, secret: string, foreignKeys: bool)

  datatype DoorError =
    | SecretUnset | EventUnknown | AttendeeUnknown | NotCheckedIn | HandoutsOutstanding
    | BatchTooLarge | ForeignKeyViolation
    | KitUnknown | HandoutUnknown | BadStatus | BadQuantity | QuantityBelowCollected
    | QuantityExhausted | AlreadyCollected | KitHasHandouts | UpgradeRequired

  datatype ScanResult = ScanResult(outcome: Outcome, via: Means, attendee: Option<Id>, checkedInAt: Option<Time>)

  const MAX_BATCH := 50

  // ---------- scans ----------

  // The row a verified code names carries the hash of the code's token.
  predicate TokenMatches(cfg: Config, a: Attendee, rawToken: string) {
    rawToken != "" && cfg.prims.hash(rawToken) == a.tokenHash
  }

  // What a door attempt on an existing row reports. A bad token hides everything else.
  function RowOutcome(a: Attendee, tokenOk: bool, event: Id): Outcome {
    if !tokenOk then InvalidCode
    else if a.event != event then WrongEvent
    else match a.status {
      case Registered => ScannedIn
      case CheckedIn => AlreadyIn
      case Cancelled => WasCancelled
    }
  }

  function Admitted(a: Attendee, now: Time): Attendee {
    a.(status := CheckedIn, checkedInAt := Some(now))
  }

  // One attempt on one row: log it, and flip the row exactly when the outcome is ScannedIn.
  function Attempt(s: State, id: Id, tokenOk: bool, event: Id, staff: Id, via: Means, now: Time)
    : (State, ScanResult)
    requires id in s.attendees
  {
    var a := s.attendees[id];
    var outcome := RowOutcome(a, tokenOk, event);
    var row := if outcome == ScannedIn then Admitted(a, now) else a;
    (s.(attendees := s.attendees[id := row],
        log := s.log + [LogRow(event, Some(id), staff, outcome, via)]),
     ScanResult(outcome, via, Some(id), if outcome == ScannedIn then Some(now) else None))
  }

  function ScanQr(cfg: Config, s: State, event: Option<Id>, code: string, staff: Id, now: Time)
    : (State, Reply<ScanResult, DoorError>)
  {
    if cfg.secret == "" then (s, Err(SecretUnset))
    else if event.None? then (s, Err(EventUnknown))
    else match VerifyPayload(code, cfg.secret, cfg.prims) {
      case Err(_) =>
        (s.(log := s.log + [LogRow(event.value, None, staff, InvalidCode, Qr)]),
         Ok(ScanResult(InvalidCode, Qr, None, None)))
      case Ok(v) =>
        if v.attendee in s.attendees then
          var (s', r) := Attempt(s, v.attendee, TokenMatches(cfg, s.attendees[v.attendee], v.rawToken),
                                 event.value, staff, Qr, now);
          (s', Ok(r))
        else if cfg.foreignKeys then (s, Err(ForeignKeyViolation))
        else
          (s.(log := s.log + [LogRow(event.value, Some(v.attendee), staff, InvalidCode, Qr)]),
           Ok(ScanResult(InvalidCode, Qr, Some(v.attendee), None)))
    }
  }

  function ScanManual(s: State, event: Option<Id>, attendee: Option<Id>, staff: Id, now: Time)
    : (State, Reply<ScanResult, DoorError>)
  {
    if event.None? then (s, Err(EventUnknown))
    else if attendee.None? || attendee.value !in s.attendees then (s, Err(AttendeeUnknown))
    else
      var (s', r) := Attempt(s, attendee.value, true, event.value, staff, Manual, now);
      (s', Ok(r))
  }

  // Codes are scanned one after the other; an infrastructure error stops the batch and keeps
  // what was already scanned.
  function ScanAll(cfg: Config, s: State, event: Option<Id>, codes: seq<string>, staff: Id, clock: nat -> Time)
    : (State, Reply<seq<ScanResult>, DoorError>)
  {
    if codes == [] then (s, Ok([]))
    else
      var n := |codes| - 1;
      var (s1, r1) := ScanAll(cfg, s, event, codes[..n], staff, clock);
      if r1.Err? then (s1, r1)
      else
        var (s2, r2) := ScanQr(cfg, s1, event, codes[n], staff, clock(n));
        (s2, if r2.Err? then Err(r2.error) else Ok(r1.value + [r2.value]))
  }

  predicate HoldsHandout(s: State, attendee: Id) {
    exists h :: h in s.handouts && s.handouts[h].attendee == attendee && s.handouts[h].Active()
  }

  // The row's part of a revert, under its lock. It does not look at handouts.
  function RevertRow(s: State, event: Id, id: Id, staff: Id): (State, Reply<ScanResult, DoorError>) {
    if id !in s.attendees || s.attendees[id].event != event then (s, Err(AttendeeUnknown))
    else if s.attendees[id].status != CheckedIn then (s, Err(NotCheckedIn))
    else
      (s.(attendees := s.attendees[id := s.attendees[id].(status := Registered, checkedInAt := None)],
          log := s.log + [LogRow(event, Some(id), staff, Reverted, Manual)]),
       Ok(ScanResult(Reverted, Manual, Some(id), None)))
  }

  function Revert(s: State, event: Option<Id>, attendee: Option<Id>, staff: Id)
    : (State, Reply<ScanResult, DoorError>)
  {
    if event.None? then (s, Err(EventUnknown))
    else if attendee.None? then (s, Err(AttendeeUnknown))
    else if HoldsHandout(s, attendee.value) then (s, Err(HandoutsOutstanding))
    else RevertRow(s, event.value, attendee.value, staff)
  }

  // ---------- roster ----------

  function CancelMine(s: State, user: Id, attendee: Id): (State, Reply<Attendee, DoorError>) {
    if attendee !in s.attendees || s.attendees[attendee].user != Some(user) then (s, Err(AttendeeUnknown))
    else if s.attendees[attendee].status != Registered then (s, Err(BadStatus))
    else
      var a := s.attendees[attendee].(status := Cancelled);
      (s.(attendees := s.attendees[attendee := a]), Ok(a))
  }

  // One bulk update: the order's REGISTERED rows become CANCELLED.
  function CancelForOrder(s: State, order: Id): State {
    s.(attendees := map id | id in s.attendees ::
      var a := s.attendees[id];
      if a.order == Some(order) && a.status == Registered then a.(status := Cancelled) else a)
  }

  // ---------- kits ----------

  function ActiveOf(s: State, kit: Id): set<Id> {
    set h | h in s.handouts && s.handouts[h].kit == kit && s.handouts[h].Active()
  }

  function CollectedOf(s: State, kit: Id): set<Id> {
    set h | h in s.handouts && s.handouts[h].kit == kit && s.handouts[h].status == Collected
  }

  // A kit id never used before, not even by a handout of a deleted kit.
  predicate FreshKit(s: State, kit: Id) {
    kit !in s.kits && forall h :: h in s.handouts ==> s.handouts[h].kit != kit
  }

  // Plan limits: kits allowed at all, and a cap per event (negative for none).
  function CreateKit(s: State, event: Option<Id>, total: int, allowed: bool, cap: int, newId: Id)
    : (State, Reply<Kit, DoorError>)
  {
    if event.None? then (s, Err(KitUnknown))
    else if total < 1 then (s, Err(BadQuantity))
    else if !allowed then (s, Err(UpgradeRequired))
    else if cap >= 0 && |set k | k in s.kits && s.kits[k].event == event.value| >= cap then (s, Err(UpgradeRequired))
    else
      var k := Kit(event.value, total);
      (s.(kits := s.kits[newId := k]), Ok(k))
  }

  function UpdateKit(s: State, event: Option<Id>, kit: Option<Id>, total: Option<int>)
    : (State, Reply<Kit, DoorError>)
  {
    if event.None? || kit.None? || kit.value !in s.kits || s.kits[kit.value].event != event.value
    then (s, Err(KitUnknown))
    else if total.None? then (s, Ok(s.kits[kit.value]))
    else if total.value < 1 then (s, Err(BadQuantity))
    else if total.value < |CollectedOf(s, kit.value)| then (s, Err(QuantityBelowCollected))
    else
      var k := s.kits[kit.value].(total := total.value);
      (s.(kits := s.kits[kit.value := k]), Ok(k))
  }

  function DeleteKit(cfg: Config, s: State, event: Option<Id>, kit: Option<Id>): (State, Reply<(), DoorError>) {
    if event.None? || kit.None? || kit.value !in s.kits || s.kits[kit.value].event != event.value
    then (s, Err(KitUnknown))
    else if |ActiveOf(s, kit.value)| > 0 then (s, Err(KitHasHandouts))
    else
      var kept := if cfg.foreignKeys then map h | h in s.handouts && s.handouts[h].kit != kit.value :: s.handouts[h]
                  else s.handouts;
      (s.(kits := s.kits - {kit.value}, handouts := kept), Ok(()))
  }

  // Collect's first step, outside the transaction: is the attendee checked in at this event?
  function Eligible(s: State, event: Id, attendee: Id): Reply<(), DoorError> {
    if attendee !in s.attendees || s.attendees[attendee].event != event then Err(AttendeeUnknown)
    else if s.attendees[attendee].status != CheckedIn then Err(NotCheckedIn)
    else Ok(())
  }

  // The row a retry with the same idempotency key converges on.
  ghost function Replayed(s: State, kit: Id, attendee: Id, key: string): (r: Option<Id>)
    ensures r.Some? ==> r.value in s.handouts && SameKey(s.handouts[r.value], kit, attendee, key)
    ensures r.None? ==> forall h :: h in s.handouts ==> !SameKey(s.handouts[h], kit, attendee, key)
  {
    if h :| h in s.handouts && SameKey(s.handouts[h], kit, attendee, key) then Some(h) else None
  }

  predicate SameKey(h: Handout, kit: Id, attendee: Id, key: string) {
    key != "" && h.kit == kit && h.attendee == attendee && h.key == key
  }

  predicate AlreadyHolds(s: State, kit: Id, attendee: Id) {
    exists h :: h in s.handouts && s.handouts[h].kit == kit && s.handouts[h].attendee == attendee && s.handouts[h].Active()
  }

  function NewHandout(event: Id, kit: Id, attendee: Id, reserve: bool, key: string, staff: Id, now: Time): Handout {
    if reserve then Handout(kit, event, attendee, key, Pending, None, None)
    else Handout(kit, event, attendee, key, Collected, Some(now), Some(staff))
  }

  // Collect's second step, one transaction under the kit's row lock. It never looks at the
  // attendee again.
  ghost function CollectTx(s: State, event: Id, kit: Id, attendee: Id, reserve: bool, key: string,
                           staff: Id, now: Time, newId: Id): (State, Reply<Handout, DoorError>)
  {
    if kit !in s.kits || s.kits[kit].event != event then (s, Err(KitUnknown))
    else match Replayed(s, kit, attendee, key) {
      case Some(h) => (s, Ok(s.handouts[h]))
      case None =>
        if |ActiveOf(s, kit)| >= s.kits[kit].total then (s, Err(QuantityExhausted))
        else if AlreadyHolds(s, kit, attendee) then (s, Err(AlreadyCollected))
        else
          var c := NewHandout(event, kit, attendee, reserve, key, staff, now);
          (s.(handouts := s.handouts[newId := c]), Ok(c))
    }
  }

  ghost function Collect(s: State, event: Option<Id>, kit: Option<Id>, attendee: Option<Id>, reserve: bool,
                         key: string, staff: Id, now: Time, newId: Id): (State, Reply<Handout, DoorError>)
  {
    if event.None? || kit.None? then (s, Err(KitUnknown))
    else if attendee.None? then (s, Err(AttendeeUnknown))
    else match Eligible(s, event.value, attendee.value) {
      case Err(e) => (s, Err(e))
      case Ok(_) => CollectTx(s, event.value, kit.value, attendee.value, reserve, key, staff, now, newId)
    }
  }

  // MarkCollected (PENDING to COLLECTED) and Void (PENDING or COLLECTED to VOIDED).
  function Transition(s: State, event: Option<Id>, handout: Option<Id>, to: HandoutStatus,
                      from: set<HandoutStatus>, staff: Id, now: Time): (State, Reply<Handout, DoorError>)
  {
    if event.None? || handout.None? || handout.value !in s.handouts
       || s.handouts[handout.value].event != event.value
    then (s, Err(HandoutUnknown))
    else
      var h := s.handouts[handout.value];
      if h.status !in from then (s, Err(BadStatus))
      else if h.kit !in s.kits then (s, Err(KitUnknown))
      else
        var h' := if to == Collected then h.(status := to, collectedAt := Some(now), collectedBy := Some(staff))
                  else h.(status := to);
        (s.(handouts := s.handouts[handout.value := h']), Ok(h'))
  }

  function MarkCollected(s: State, event: Option<Id>, handout: Option<Id>, staff: Id, now: Time)
    : (State, Reply<Handout, DoorError>)
  {
    Transition(s, event, handout, Collected, {Pending}, staff, now)
  }

  function Void(s: State, event: Option<Id>, handout: Option<Id>, staff: Id, now: Time)
    : (State, Reply<Handout, DoorError>)
  {
    Transition(s, event, handout, Voided, {Pending, Collected}, staff, now)
  }
}
