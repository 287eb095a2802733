// What every run of door, roster and kit calls keeps: handouts belong to people who are checked
// in, the scan log is a faithful history of the rows, and the unique indexes hold.
module DoorRuns {
  import opened Common
  import opened Payload
  import opened Door
  import opened DoorMint

  // ---------- the log as history ----------

  // An attendee's admissions (true) and reverts (false), in log order.
  function DoorEvents(log: seq<LogRow>, attendee: Id): seq<bool> {
    if log == [] then []
    else
      var last := log[|log| - 1];
      DoorEvents(log[..|log| - 1], attendee) +
      if last.attendee != Some(attendee) then []
      else if last.outcome == ScannedIn then [true]
      else if last.outcome == Reverted then [false]
      else []
  }

  function Tally(log: seq<LogRow>, event: Id, outcome: Outcome): nat {
    if log == [] then 0
    else
      var last := log[|log| - 1];
      Tally(log[..|log| - 1], event, outcome) + if last.event == event && last.outcome == outcome then 1 else 0
  }

  // true, false, true, ...
  predicate Alternates(events: seq<bool>) {
    forall i :: 0 <= i < |events| ==> events[i] == (i % 2 == 0)
  }

  // CountByStatus restricted to one status.
  function InStatus(s: State, event: Id, status: Status): set<Id> {
    set a | a in s.attendees && s.attendees[a].event == event && s.attendees[a].status == status
  }

  ghost predicate HistoryOf(s: State, attendee: Id) {
    var events := DoorEvents(s.log, attendee);
    && Alternates(events)
    && (if attendee in s.attendees
        then s.attendees[attendee].status == CheckedIn <==> |events| % 2 == 1
        else events == [])
  }

  ghost predicate StatsOf(s: State, event: Id) {
    |InStatus(s, event, CheckedIn)| == Tally(s.log, event, ScannedIn) - Tally(s.log, event, Reverted)
  }

  ghost predicate History(s: State) {
    && (forall a: Id :: HistoryOf(s, a))
    && (forall e: Id :: StatsOf(s, e))
    && (forall a :: a in s.attendees ==> (s.attendees[a].checkedInAt.Some? <==> s.attendees[a].status == CheckedIn))
  }

  // ---------- table invariants ----------

  ghost predicate Units(s: State) {
    forall a, b :: a in s.attendees && b in s.attendees && a != b && s.attendees[a].order.Some? ==>
      s.attendees[a].order != s.attendees[b].order || s.attendees[a].unit != s.attendees[b].unit
  }

  predicate Linked(s: State, h: Handout) {
    && h.attendee in s.attendees
    && s.attendees[h.attendee].event == h.event
    && (h.kit in s.kits ==> s.kits[h.kit].event == h.event)
    && (h.Active() ==> h.kit in s.kits)
  }

  ghost predicate Links(s: State) {
    forall h :: h in s.handouts ==> Linked(s, s.handouts[h])
  }

  // uq_kit_collections_active and uq_kit_collections_idem.
  ghost predicate UniqueHandouts(s: State) {
    forall g, h :: g in s.handouts && h in s.handouts && g != h
                   && s.handouts[g].kit == s.handouts[h].kit && s.handouts[g].attendee == s.handouts[h].attendee ==>
      && !(s.handouts[g].Active() && s.handouts[h].Active())
      && (s.handouts[g].key == "" || s.handouts[g].key != s.handouts[h].key)
  }

  // The cross-service guarantee: whoever holds a handout is checked in.
  ghost predicate Held(s: State) {
    forall h :: h in s.handouts && s.handouts[h].Active() ==>
      s.handouts[h].attendee in s.attendees && s.attendees[s.handouts[h].attendee].status == CheckedIn
  }

  ghost predicate Core(s: State) {
    History(s) && Units(s) && Links(s) && UniqueHandouts(s)
  }

  ghost predicate Inv(s: State) {
    Core(s) && Held(s)
  }

  const EMPTY := State(map[], [], map[], map[])

  lemma InitInv()
    ensures Inv(EMPTY)
  {
    forall e: Id ensures StatsOf(EMPTY, e) {
      assert InStatus(EMPTY, e, CheckedIn) == {};
    }
  }

  // ---------- runs ----------

  datatype Op =
    | OpAdd(id: Id, event: Id, tokenHash: string)
    | OpMint(order: Id, user: Id, event: Id, quantity: nat, drawn: seq<Minted>)
    | OpCancelMine(user: Id, id: Id)
    | OpCancelForOrder(order: Id)
    | OpScanQr(eventRef: Option<Id>, code: string, staff: Id, now: Time)
    | OpScanManual(eventRef: Option<Id>, attendeeRef: Option<Id>, staff: Id, now: Time)
    | OpRevert(eventRef: Option<Id>, attendeeRef: Option<Id>, staff: Id)
    | OpCreateKit(eventRef: Option<Id>, total: int, allowed: bool, cap: int, newId: Id)
    | OpUpdateKit(eventRef: Option<Id>, kitRef: Option<Id>, newTotal: Option<int>)
    | OpDeleteKit(eventRef: Option<Id>, kitRef: Option<Id>)
    | OpCollect(eventRef: Option<Id>, kitRef: Option<Id>, attendeeRef: Option<Id>, reserve: bool, key: string,
                staff: Id, now: Time, newId: Id)
    | OpMarkCollected(eventRef: Option<Id>, handoutRef: Option<Id>, staff: Id, now: Time)
    | OpVoid(eventRef: Option<Id>, handoutRef: Option<Id>, staff: Id, now: Time)

  function AddManual(s: State, id: Id, event: Id, tokenHash: string): State {
    s.(attendees := s.attendees[id := Attendee(None, 0, event, None, tokenHash, Registered, None)])
  }

  // Ids are fresh when they are drawn; an op whose draws are not is no call at all.
  ghost predicate Fresh(s: State, op: Op) {
    match op {
      case OpAdd(id, _, _) => id !in s.attendees
      case OpMint(_, _, _, quantity, drawn) => quantity <= |drawn| && FreshDraws(s, drawn)
      case OpCreateKit(_, _, _, _, newId) => FreshKit(s, newId)
      case OpCollect(_, _, _, _, _, _, _, newId) => newId !in s.handouts
      case _ => true
    }
  }

  ghost function Apply(cfg: Config, s: State, op: Op): State {
    if !Fresh(s, op) then s
    else match op {
      case OpAdd(id, event, tokenHash) => AddManual(s, id, event, tokenHash)
      case OpMint(order, user, event, quantity, drawn) => Mint(cfg, s, order, user, event, quantity, drawn).0
      case OpCancelMine(user, id) => CancelMine(s, user, id).0
      case OpCancelForOrder(order) => CancelForOrder(s, order)
      case OpScanQr(event, code, staff, now) => ScanQr(cfg, s, event, code, staff, now).0
      case OpScanManual(event, id, staff, now) => ScanManual(s, event, id, staff, now).0
      case OpRevert(event, id, staff) => Revert(s, event, id, staff).0
      case OpCreateKit(event, total, allowed, cap, newId) => CreateKit(s, event, total, allowed, cap, newId).0
      case OpUpdateKit(event, kit, total) => UpdateKit(s, event, kit, total).0
      case OpDeleteKit(event, kit) => DeleteKit(cfg, s, event, kit).0
      case OpCollect(event, kit, attendee, reserve, key, staff, now, newId) =>
        Collect(s, event, kit, attendee, reserve, key, staff, now, newId).0
      case OpMarkCollected(event, h, staff, now) => MarkCollected(s, event, h, staff, now).0
      case OpVoid(event, h, staff, now) => Void(s, event, h, staff, now).0
    }
  }

  ghost function Run(cfg: Config, s: State, ops: seq<Op>): State {
    if ops == [] then s else Apply(cfg, Run(cfg, s, ops[..|ops| - 1]), ops[|ops| - 1])
  }

  // ---------- one change at a time ----------

  lemma AppendEvents(log: seq<LogRow>, row: LogRow, attendee: Id)
    ensures DoorEvents(log + [row], attendee) == DoorEvents(log, attendee) +
              if row.attendee != Some(attendee) then []
              else if row.outcome == ScannedIn then [true]
              else if row.outcome == Reverted then [false]
              else []
  {
    assert (log + [row])[..|log|] == log;
  }

  lemma AppendTally(log: seq<LogRow>, row: LogRow, event: Id, outcome: Outcome)
    ensures Tally(log + [row], event, outcome) ==
              Tally(log, event, outcome) + if row.event == event && row.outcome == outcome then 1 else 0
  {
    assert (log + [row])[..|log|] == log;
  }

  // A log row that neither admits nor reverts says nothing about rows.
  lemma NeutralLog(s: State, row: LogRow)
    requires Core(s) && row.outcome != ScannedIn && row.outcome != Reverted
    ensures Core(s.(log := s.log + [row]))
    ensures Held(s) ==> Held(s.(log := s.log + [row]))
  {
    var s' := s.(log := s.log + [row]);
    forall a: Id ensures HistoryOf(s', a) {
      AppendEvents(s.log, row, a);
      assert HistoryOf(s, a);
    }
    forall e: Id ensures StatsOf(s', e) {
      AppendTally(s.log, row, e, ScannedIn);
      AppendTally(s.log, row, e, Reverted);
      assert StatsOf(s, e) && InStatus(s', e, CheckedIn) == InStatus(s, e, CheckedIn);
    }
  }

  // Flipping one row into or out of CHECKED_IN together with its log row.
  predicate Flips(a: Attendee, a': Attendee, row: LogRow, id: Id) {
    && a' == a.(status := a'.status, checkedInAt := a'.checkedInAt)
    && row.attendee == Some(id) && row.event == a.event
    && (if row.outcome == ScannedIn then a.status == Registered && a'.status == CheckedIn && a'.checkedInAt.Some?
        else row.outcome == Reverted && a.status == CheckedIn && a'.status == Registered && a'.checkedInAt.None?)
  }

  lemma FlipHistory(s: State, id: Id, a': Attendee, row: LogRow, b: Id)
    requires History(s) && id in s.attendees && Flips(s.attendees[id], a', row, id)
    ensures HistoryOf(s.(attendees := s.attendees[id := a'], log := s.log + [row]), b)
  {
    AppendEvents(s.log, row, b);
    assert HistoryOf(s, b);
    var before := DoorEvents(s.log, b);
    if b == id {
      assert DoorEvents(s.log + [row], b) == before + [row.outcome == ScannedIn];
    } else {
      assert DoorEvents(s.log + [row], b) == before;
    }
  }

  lemma FlipStats(s: State, id: Id, a': Attendee, row: LogRow, e: Id)
    requires StatsOf(s, e) && id in s.attendees && Flips(s.attendees[id], a', row, id)
    ensures StatsOf(s.(attendees := s.attendees[id := a'], log := s.log + [row]), e)
  {
    AppendTally(s.log, row, e, ScannedIn);
    AppendTally(s.log, row, e, Reverted);
    FlipCount(s, id, a', row, e);
  }

  lemma FlipCount(s: State, id: Id, a': Attendee, row: LogRow, e: Id)
    requires id in s.attendees && Flips(s.attendees[id], a', row, id)
    ensures var s' := s.(attendees := s.attendees[id := a'], log := s.log + [row]);
            |InStatus(s', e, CheckedIn)| == |InStatus(s, e, CheckedIn)| +
              if row.event != e then 0 else if row.outcome == ScannedIn then 1 else -1
  {
    var s' := s.(attendees := s.attendees[id := a'], log := s.log + [row]);
    var before, after := InStatus(s, e, CheckedIn), InStatus(s', e, CheckedIn);
    if row.event != e {
      assert before == after;
    } else if row.outcome == ScannedIn {
      assert after == before + {id};
    } else {
      assert after == before - {id};
      CardRemove(before, id);
    }
  }

  lemma Flip(s: State, id: Id, a': Attendee, row: LogRow)
    requires Core(s) && id in s.attendees && Flips(s.attendees[id], a', row, id)
    ensures Core(s.(attendees := s.attendees[id := a'], log := s.log + [row]))
  {
    var s' := s.(attendees := s.attendees[id := a'], log := s.log + [row]);
    forall b: Id ensures HistoryOf(s', b) {
      FlipHistory(s, id, a', row, b);
    }
    forall e: Id ensures StatsOf(s', e) {
      FlipStats(s, id, a', row, e);
    }
    forall h | h in s'.handouts ensures Linked(s', s'.handouts[h]) {
      assert Linked(s, s.handouts[h]);
    }
  }

  // Rows added as REGISTERED, or moved from REGISTERED to CANCELLED, leave the history alone.
  predicate QuietRow(a: Attendee, a': Attendee) {
    a' == a || (a.status == Registered && a' == a.(status := Cancelled))
  }

  ghost predicate QuietRoster(s: State, s': State) {
    && s' == s.(attendees := s'.attendees)
    && (forall a :: a in s.attendees ==> a in s'.attendees && QuietRow(s.attendees[a], s'.attendees[a]))
    && (forall a :: a in s'.attendees && a !in s.attendees ==>
          s'.attendees[a].status == Registered && s'.attendees[a].checkedInAt.None?)
  }

  lemma QuietRosterKeeps(s: State, s': State)
    requires Core(s) && QuietRoster(s, s') && Units(s')
    ensures Core(s') && (Held(s) ==> Held(s'))
  {
    forall a: Id ensures HistoryOf(s', a) {
      assert HistoryOf(s, a);
    }
    forall e: Id ensures StatsOf(s', e) {
      assert StatsOf(s, e);
      assert InStatus(s', e, CheckedIn) == InStatus(s, e, CheckedIn);
    }
    forall h | h in s'.handouts ensures Linked(s', s'.handouts[h]) {
      assert Linked(s, s.handouts[h]);
    }
  }

  // Changes to kits and handouts cannot disturb the history.
  lemma KitsKeepHistory(s: State, s': State)
    requires Core(s) && s' == s.(kits := s'.kits, handouts := s'.handouts)
    ensures History(s') && Units(s')
  {
    forall a: Id ensures HistoryOf(s', a) {
      assert HistoryOf(s, a);
    }
    forall e: Id ensures StatsOf(s', e) {
      assert StatsOf(s, e);
      assert InStatus(s', e, CheckedIn) == InStatus(s, e, CheckedIn);
    }
  }

  // ---------- each call ----------

  lemma AttemptKeeps(s: State, id: Id, tokenOk: bool, event: Id, staff: Id, via: Means, now: Time)
    requires Inv(s) && id in s.attendees
    ensures Inv(Attempt(s, id, tokenOk, event, staff, via, now).0)
  {
    var a := s.attendees[id];
    var outcome := RowOutcome(a, tokenOk, event);
    var row := LogRow(event, Some(id), staff, outcome, via);
    if outcome == ScannedIn {
      Flip(s, id, Admitted(a, now), row);
    } else {
      assert s.attendees[id := a] == s.attendees;
      NeutralLog(s, row);
    }
  }

  lemma ScanQrKeeps(cfg: Config, s: State, event: Option<Id>, code: string, staff: Id, now: Time)
    requires Inv(s)
    ensures Inv(ScanQr(cfg, s, event, code, staff, now).0)
  {
    if cfg.secret != "" && event.Some? {
      match VerifyPayload(code, cfg.secret, cfg.prims) {
        case Err(_) =>
          NeutralLog(s, LogRow(event.value, None, staff, InvalidCode, Qr));
        case Ok(v) =>
          if v.attendee in s.attendees {
            AttemptKeeps(s, v.attendee, TokenMatches(cfg, s.attendees[v.attendee], v.rawToken),
                         event.value, staff, Qr, now);
          } else if !cfg.foreignKeys {
            NeutralLog(s, LogRow(event.value, Some(v.attendee), staff, InvalidCode, Qr));
          }
      }
    }
  }

  // The revert guard is what keeps Held: without outstanding handouts nobody is stranded.
  lemma RevertKeeps(s: State, event: Option<Id>, attendee: Option<Id>, staff: Id)
    requires Inv(s)
    ensures Inv(Revert(s, event, attendee, staff).0)
  {
    var (s', r) := Revert(s, event, attendee, staff);
    if r.Ok? {
      var id := attendee.value;
      Flip(s, id, s.attendees[id].(status := Registered, checkedInAt := None),
           LogRow(event.value, Some(id), staff, Reverted, Manual));
      forall h | h in s'.handouts && s'.handouts[h].Active()
        ensures s'.attendees[s'.handouts[h].attendee].status == CheckedIn
      {
        assert !HoldsHandout(s, id);
        assert s.handouts[h].attendee != id;
      }
    }
  }

  lemma MintKeeps(cfg: Config, s: State, order: Id, user: Id, event: Id, n: nat, drawn: seq<Minted>)
    requires Inv(s) && n <= |drawn| && FreshDraws(s, drawn)
    ensures Inv(Mint(cfg, s, order, user, event, n, drawn).0)
  {
    MintFills(cfg, s, order, user, event, n, drawn);
    var s' := Mint(cfg, s, order, user, event, n, drawn).0;
    forall a, b | a in s'.attendees && b in s'.attendees && a != b && s'.attendees[a].order.Some?
      ensures s'.attendees[a].order != s'.attendees[b].order || s'.attendees[a].unit != s'.attendees[b].unit
    {
      NewUnits(s, s', a, b, order);
    }
    QuietRosterKeeps(s, s');
  }

  lemma NewUnits(s: State, s': State, a: Id, b: Id, order: Id)
    requires Units(s) && a in s'.attendees && b in s'.attendees && a != b && s'.attendees[a].order.Some?
    requires forall x :: x in s.attendees ==> x in s'.attendees && s'.attendees[x] == s.attendees[x]
    requires forall x :: x in s'.attendees && x !in s.attendees ==>
               s'.attendees[x].order == Some(order) && !UnitExists(s, order, s'.attendees[x].unit)
    requires forall x, y :: x in s'.attendees && y in s'.attendees && x !in s.attendees && y !in s.attendees && x != y ==>
               s'.attendees[x].unit != s'.attendees[y].unit
    ensures s'.attendees[a].order != s'.attendees[b].order || s'.attendees[a].unit != s'.attendees[b].unit
  {
  }

  lemma CollectTxKeepsCore(s: State, event: Id, kit: Id, attendee: Id, reserve: bool, key: string,
                           staff: Id, now: Time, newId: Id)
    requires Core(s) && newId !in s.handouts
    requires attendee in s.attendees && s.attendees[attendee].event == event
    ensures Core(CollectTx(s, event, kit, attendee, reserve, key, staff, now, newId).0)
  {
    hide History;
    var s' := CollectTx(s, event, kit, attendee, reserve, key, staff, now, newId).0;
    KitsKeepHistory(s, s');
    forall h | h in s'.handouts ensures Linked(s', s'.handouts[h]) {
      assert h in s.handouts ==> Linked(s, s.handouts[h]);
    }
  }

  // A whole Collect: its read and its transaction see the same attendee.
  lemma CollectKeeps(s: State, event: Option<Id>, kit: Option<Id>, attendee: Option<Id>, reserve: bool, key: string,
                     staff: Id, now: Time, newId: Id)
    requires Inv(s) && newId !in s.handouts
    ensures Inv(Collect(s, event, kit, attendee, reserve, key, staff, now, newId).0)
  {
    hide Core;
    if event.Some? && kit.Some? && attendee.Some? && Eligible(s, event.value, attendee.value).Ok? {
      CollectTxKeepsCore(s, event.value, kit.value, attendee.value, reserve, key, staff, now, newId);
    }
  }

  lemma TransitionKeeps(s: State, event: Option<Id>, handout: Option<Id>, to: HandoutStatus,
                        from: set<HandoutStatus>, staff: Id, now: Time)
    requires Inv(s) && Voided !in from
    ensures Inv(Transition(s, event, handout, to, from, staff, now).0)
  {
    hide History;
    var s' := Transition(s, event, handout, to, from, staff, now).0;
    KitsKeepHistory(s, s');
    forall h | h in s'.handouts ensures Linked(s', s'.handouts[h]) {
      assert Linked(s, s.handouts[h]);
    }
  }

  lemma DeleteKitKeeps(cfg: Config, s: State, event: Option<Id>, kit: Option<Id>)
    requires Inv(s)
    ensures Inv(DeleteKit(cfg, s, event, kit).0)
  {
    var (s', r) := DeleteKit(cfg, s, event, kit);
    KitsKeepHistory(s, s');
    if r.Ok? {
      assert ActiveOf(s, kit.value) == {};
      forall h | h in s'.handouts ensures Linked(s', s'.handouts[h]) {
        assert Linked(s, s.handouts[h]);
        assert h !in ActiveOf(s, kit.value);
      }
    }
  }

  lemma RosterOpKeeps(cfg: Config, s: State, op: Op)
    requires Inv(s) && (op.OpAdd? || op.OpMint? || op.OpCancelMine? || op.OpCancelForOrder?)
    ensures Inv(Apply(cfg, s, op))
  {
    hide History, Links, UniqueHandouts, Held;
    if Fresh(s, op) {
      var s' := Apply(cfg, s, op);
      match op {
        case OpMint(order, user, event, quantity, drawn) => MintKeeps(cfg, s, order, user, event, quantity, drawn);
        case _ => QuietRosterKeeps(s, s');
      }
    }
  }

  lemma ScanOpKeeps(cfg: Config, s: State, op: Op)
    requires Inv(s) && (op.OpScanQr? || op.OpScanManual? || op.OpRevert?)
    ensures Inv(Apply(cfg, s, op))
  {
    match op {
      case OpScanQr(event, code, staff, now) => ScanQrKeeps(cfg, s, event, code, staff, now);
      case OpScanManual(event, id, staff, now) =>
        if event.Some? && id.Some? && id.value in s.attendees {
          AttemptKeeps(s, id.value, true, event.value, staff, Manual, now);
        }
      case OpRevert(event, id, staff) => RevertKeeps(s, event, id, staff);
    }
  }

  lemma KitOpKeeps(cfg: Config, s: State, op: Op)
    requires Inv(s)
    requires op.OpCreateKit? || op.OpUpdateKit? || op.OpDeleteKit? || op.OpCollect? || op.OpMarkCollected? || op.OpVoid?
    ensures Inv(Apply(cfg, s, op))
  {
    hide Inv;
    if Fresh(s, op) {
      match op {
        case OpMarkCollected(event, h, staff, now) => TransitionKeeps(s, event, h, Collected, {Pending}, staff, now);
        case OpVoid(event, h, staff, now) => TransitionKeeps(s, event, h, Voided, {Pending, Collected}, staff, now);
        case OpDeleteKit(event, kit) => DeleteKitKeeps(cfg, s, event, kit);
        case OpCollect(event, kit, attendee, reserve, key, staff, now, newId) =>
          CollectKeeps(s, event, kit, attendee, reserve, key, staff, now, newId);
        case _ => KitRowKeeps(s, Apply(cfg, s, op));
      }
    }
  }

  lemma ApplyKeeps(cfg: Config, s: State, op: Op)
    requires Inv(s)
    ensures Inv(Apply(cfg, s, op))
  {
    if op.OpAdd? || op.OpMint? || op.OpCancelMine? || op.OpCancelForOrder? {
      RosterOpKeeps(cfg, s, op);
    } else if op.OpScanQr? || op.OpScanManual? || op.OpRevert? {
      ScanOpKeeps(cfg, s, op);
    } else {
      KitOpKeeps(cfg, s, op);
    }
  }

  // Adding an unused kit, or changing a kit's total.
  lemma KitRowKeeps(s: State, s': State)
    requires Inv(s) && s' == s.(kits := s'.kits)
    requires forall k :: k in s.kits ==> k in s'.kits && s'.kits[k].event == s.kits[k].event
    requires forall k :: k in s'.kits && k !in s.kits ==> FreshKit(s, k)
    ensures Inv(s')
  {
    KitsKeepHistory(s, s');
    forall h | h in s'.handouts ensures Linked(s', s'.handouts[h]) {
      assert Linked(s, s.handouts[h]);
    }
  }

  // The main theorem: all of it, in every state every run reaches.
  lemma {:induction false} EveryRunKeepsInv(cfg: Config, ops: seq<Op>)
    ensures Inv(Run(cfg, EMPTY, ops))
  {
    if ops == [] {
      InitInv();
    } else {
      EveryRunKeepsInv(cfg, ops[..|ops| - 1]);
      ApplyKeeps(cfg, Run(cfg, EMPTY, ops[..|ops| - 1]), ops[|ops| - 1]);
    }
  }
}
