// Four door calls read before they write. A Collect reads the attendee's status, a revert counts the
// attendee's handouts, and a cancellation or a name correction loads the whole row it will save.
// What can happen in between.
module DoorRace {
  import opened Common
  import Payload
  import opened Door
  import opened DoorMint
  import opened DoorRuns
  import opened DoorStock

  // A call between its read and its write. `seen` counts the admissions and reverts the log held for
  // the attendee at a Collect's read.
  datatype Call =
    | Collecting(event: Id, attendee: Id, seen: nat)
    | Reverting(event: Id, attendee: Id)
    | Saving(attendee: Id, row: Attendee)

  datatype Racing = Racing(db: State, calls: map<Id, Call>)

  datatype Step =
    | Whole(op: Op)
    | Read(call: Id, event: Id, attendee: Id)
    | Commit(call: Id, kit: Id, reserve: bool, key: string, staff: Id, now: Time, newId: Id)
    | Guard(call: Id, event: Id, attendee: Id)
    | Flip(call: Id, staff: Id)
    | Load(call: Id, attendee: Id, canceller: Option<Id>)   // a cancellation by this user, or a correction
    | Save(call: Id)

  // The row a cancellation or a correction will write, if it accepts the one it loaded.
  function Copied(s: State, attendee: Id, canceller: Option<Id>): Option<Attendee> {
    if attendee !in s.attendees then None
    else if canceller.None? then Some(s.attendees[attendee])
    else if CancelMine(s, canceller.value, attendee).1.Ok? then Some(CancelMine(s, canceller.value, attendee).1.value)
    else None
  }

  ghost function Next(cfg: Config, r: Racing, step: Step): Racing {
    match step {
      case Whole(op) => r.(db := Apply(cfg, r.db, op))
      case Read(call, event, attendee) =>
        if call !in r.calls && Eligible(r.db, event, attendee).Ok?
        then r.(calls := r.calls[call := Collecting(event, attendee, |DoorEvents(r.db.log, attendee)|)])
        else r
      case Commit(call, kit, reserve, key, staff, now, newId) =>
        if call in r.calls && r.calls[call].Collecting? && newId !in r.db.handouts then
          var c := r.calls[call];
          Racing(CollectTx(r.db, c.event, kit, c.attendee, reserve, key, staff, now, newId).0, r.calls - {call})
        else r
      case Guard(call, event, attendee) =>
        if call !in r.calls && !HoldsHandout(r.db, attendee) then r.(calls := r.calls[call := Reverting(event, attendee)]) else r
      case Flip(call, staff) =>
        if call in r.calls && r.calls[call].Reverting? then
          Racing(RevertRow(r.db, r.calls[call].event, r.calls[call].attendee, staff).0, r.calls - {call})
        else r
      case Load(call, attendee, canceller) =>
        if call !in r.calls && Copied(r.db, attendee, canceller).Some?
        then r.(calls := r.calls[call := Saving(attendee, Copied(r.db, attendee, canceller).value)])
        else r
      case Save(call) =>
        if call in r.calls && r.calls[call].Saving? then
          Racing(SaveRow(r.db, r.calls[call].attendee, r.calls[call].row), r.calls - {call})
        else r
    }
  }

  function SaveRow(s: State, attendee: Id, row: Attendee): State {
    s.(attendees := s.attendees[attendee := row])
  }

  ghost function Race(cfg: Config, steps: seq<Step>): Racing {
    if steps == [] then Racing(EMPTY, map[])
    else Next(cfg, Race(cfg, steps[..|steps| - 1]), steps[|steps| - 1])
  }

  // ---------- what a read fixes for good ----------

  predicate SameTicket(a: Attendee, b: Attendee) {
    a == b.(status := a.status, checkedInAt := a.checkedInAt)
  }

  predicate Stamped(a: Attendee) {
    a.checkedInAt.Some? <==> a.status == CheckedIn
  }

  // A Collect's row was CHECKED_IN in that event; a copy differs from the row in its status only.
  ghost predicate GoodCall(s: State, c: Call) {
    match c
    case Collecting(event, a, seen) =>
      a in s.attendees && s.attendees[a].event == event && seen % 2 == 1 && seen <= |DoorEvents(s.log, a)|
    case Reverting(_, _) => true
    case Saving(a, row) => a in s.attendees && SameTicket(row, s.attendees[a]) && Stamped(row)
  }

  ghost predicate GoodCalls(r: Racing) {
    forall call :: call in r.calls ==> GoodCall(r.db, r.calls[call])
  }

  // The log is append-only and rows never leave or change but for their status.
  ghost predicate Grows(s: State, s': State) {
    && s.log <= s'.log
    && forall a :: a in s.attendees ==> a in s'.attendees && SameTicket(s'.attendees[a], s.attendees[a])
  }

  lemma ApplyGrows(cfg: Config, s: State, op: Op)
    ensures Grows(s, Apply(cfg, s, op))
  {
    if Fresh(s, op) && op.OpMint? {
      MintFills(cfg, s, op.order, op.user, op.event, op.quantity, op.drawn);
      MintOnlyRoster(cfg, s, op.order, op.user, op.event, op.quantity, op.drawn);
    }
  }

  lemma {:induction false} EventsGrow(log: seq<LogRow>, log': seq<LogRow>, a: Id)
    requires log <= log'
    ensures DoorEvents(log, a) <= DoorEvents(log', a)
  {
    if |log'| == |log| {
      assert log == log';
    } else {
      EventsGrow(log, log'[..|log'| - 1], a);
    }
  }

  lemma NextGrows(cfg: Config, r: Racing, step: Step)
    requires GoodCalls(r)
    ensures Grows(r.db, Next(cfg, r, step).db)
  {
    if step.Whole? {
      ApplyGrows(cfg, r.db, step.op);
    } else if step.Save? && step.call in r.calls {
      assert GoodCall(r.db, r.calls[step.call]);
    }
  }

  lemma GoodCallKept(s: State, s': State, c: Call)
    requires GoodCall(s, c) && Grows(s, s')
    ensures GoodCall(s', c)
  {
    if c.Collecting? {
      EventsGrow(s.log, s'.log, c.attendee);
    }
  }

  lemma NewCallGood(cfg: Config, r: Racing, step: Step, call: Id)
    requires Inv(r.db) && call !in r.calls && call in Next(cfg, r, step).calls
    ensures GoodCall(Next(cfg, r, step).db, Next(cfg, r, step).calls[call])
  {
    if step.Read? {
      assert HistoryOf(r.db, step.attendee);
    }
  }

  lemma GoodCallsKept(cfg: Config, r: Racing, step: Step)
    requires Inv(r.db) && GoodCalls(r)
    ensures GoodCalls(Next(cfg, r, step))
  {
    var r' := Next(cfg, r, step);
    NextGrows(cfg, r, step);
    forall call | call in r'.calls ensures GoodCall(r'.db, r'.calls[call]) {
      if call in r.calls {
        assert r'.calls[call] == r.calls[call];
        GoodCallKept(r.db, r'.db, r.calls[call]);
      } else {
        NewCallGood(cfg, r, step, call);
      }
    }
  }

  // ---------- when a write is safe ----------

  // The transaction will insert a handout (it is not a retry, in stock, and not a duplicate).
  ghost predicate Inserts(s: State, c: Call, kit: Id, key: string)
    requires c.Collecting?
  {
    && kit in s.kits && s.kits[kit].event == c.event
    && Replayed(s, kit, c.attendee, key).None?
    && |ActiveOf(s, kit)| < s.kits[kit].total
    && !AlreadyHolds(s, kit, c.attendee)
  }

  // The attendee's admissions and reverts since the read cancel out: every revert was re-scanned.
  ghost predicate Undisturbed(s: State, c: Call)
    requires c.Collecting?
  {
    (|DoorEvents(s.log, c.attendee)| - c.seen) % 2 == 0
  }

  predicate Inside(s: State, a: Id) {
    a in s.attendees && s.attendees[a].status == CheckedIn
  }

  // A Collect inserts only for somebody whose reverts since its read were all re-scanned; a revert
  // finds no handout when it takes the row out; a saved copy agrees with the row on being inside.
  ghost predicate Harmless(r: Racing, step: Step) {
    match step
    case Commit(call, kit, _, key, _, _, newId) =>
      call in r.calls && r.calls[call].Collecting? && newId !in r.db.handouts && Inserts(r.db, r.calls[call], kit, key)
      ==> Undisturbed(r.db, r.calls[call])
    case Flip(call, staff) =>
      call in r.calls && r.calls[call].Reverting? && RevertRow(r.db, r.calls[call].event, r.calls[call].attendee, staff).1.Ok?
      ==> !HoldsHandout(r.db, r.calls[call].attendee)
    case Save(call) =>
      call in r.calls && r.calls[call].Saving?
      ==> (r.calls[call].row.status == CheckedIn <==> Inside(r.db, r.calls[call].attendee))
    case _ => true
  }

  lemma CommitSafeIff(s: State, c: Call, kit: Id, reserve: bool, key: string, staff: Id, now: Time, newId: Id)
    requires Inv(s) && c.Collecting? && GoodCall(s, c) && newId !in s.handouts
    ensures Inv(CollectTx(s, c.event, kit, c.attendee, reserve, key, staff, now, newId).0)
            <==> (Inserts(s, c, kit, key) ==> Undisturbed(s, c))
  {
    var s' := CollectTx(s, c.event, kit, c.attendee, reserve, key, staff, now, newId).0;
    CollectTxKeepsCore(s, c.event, kit, c.attendee, reserve, key, staff, now, newId);
    assert HistoryOf(s, c.attendee);
    assert Undisturbed(s, c) <==> s.attendees[c.attendee].status == CheckedIn;
    if Inserts(s, c, kit, key) {
      assert s'.handouts[newId].Active();
      assert s'.handouts[newId].attendee == c.attendee;
    }
  }

  // A revert whose guard was read earlier is safe if and only if there is no handout at its flip.
  lemma FlipSafeIff(s: State, event: Id, a: Id, staff: Id)
    requires Inv(s)
    ensures Inv(RevertRow(s, event, a, staff).0) <==> (RevertRow(s, event, a, staff).1.Ok? ==> !HoldsHandout(s, a))
  {
    var (s', r) := RevertRow(s, event, a, staff);
    if !HoldsHandout(s, a) {
      RevertKeeps(s, Some(event), Some(a), staff);
    } else if r.Ok? {
      var h :| h in s.handouts && s.handouts[h].attendee == a && s.handouts[h].Active();
      assert s'.handouts[h].Active() && s'.attendees[a].status == Registered;
    }
  }

  // Saving a copy loaded earlier is safe if and only if it and the row agree on CHECKED_IN.
  lemma SaveSafeIff(s: State, a: Id, row: Attendee)
    requires Inv(s) && a in s.attendees && SameTicket(row, s.attendees[a]) && Stamped(row)
    ensures Inv(SaveRow(s, a, row)) <==> (row.status == CheckedIn <==> Inside(s, a))
  {
    var s' := SaveRow(s, a, row);
    assert HistoryOf(s, a);
    if row.status == CheckedIn <==> Inside(s, a) {
      SaveKeeps(s, a, row);
    } else {
      assert !HistoryOf(s', a);
    }
  }

  lemma SaveKeeps(s: State, a: Id, row: Attendee)
    requires Inv(s) && a in s.attendees && SameTicket(row, s.attendees[a]) && Stamped(row)
    requires row.status == CheckedIn <==> Inside(s, a)
    ensures Inv(SaveRow(s, a, row))
  {
    var s' := SaveRow(s, a, row);
    forall b: Id ensures HistoryOf(s', b) {
      assert HistoryOf(s, b);
    }
    forall e: Id ensures StatsOf(s', e) {
      assert StatsOf(s, e) && InStatus(s', e, CheckedIn) == InStatus(s, e, CheckedIn);
    }
    forall h | h in s'.handouts ensures Linked(s', s'.handouts[h]) {
      assert Linked(s, s.handouts[h]);
    }
  }

  // One step of any interleaving keeps the invariant exactly when it is harmless.
  lemma StepSafeIff(cfg: Config, r: Racing, step: Step)
    requires Inv(r.db) && GoodCalls(r)
    ensures Inv(Next(cfg, r, step).db) <==> Harmless(r, step)
  {
    hide Inv;
    match step {
      case Whole(op) => ApplyKeeps(cfg, r.db, op);
      case Commit(call, kit, reserve, key, staff, now, newId) =>
        if call in r.calls && r.calls[call].Collecting? && newId !in r.db.handouts {
          assert GoodCall(r.db, r.calls[call]);
          CommitSafeIff(r.db, r.calls[call], kit, reserve, key, staff, now, newId);
        }
      case Flip(call, staff) =>
        if call in r.calls && r.calls[call].Reverting? {
          FlipSafeIff(r.db, r.calls[call].event, r.calls[call].attendee, staff);
        }
      case Save(call) =>
        if call in r.calls && r.calls[call].Saving? {
          assert GoodCall(r.db, r.calls[call]);
          SaveSafeIff(r.db, r.calls[call].attendee, r.calls[call].row);
        }
      case _ =>
    }
  }

  ghost predicate SafeThroughout(cfg: Config, steps: seq<Step>) {
    Inv(Race(cfg, steps).db) && (steps != [] ==> SafeThroughout(cfg, steps[..|steps| - 1]))
  }

  ghost predicate AllHarmless(cfg: Config, steps: seq<Step>) {
    steps != [] ==>
      var init := steps[..|steps| - 1];
      AllHarmless(cfg, init) && Harmless(Race(cfg, init), steps[|steps| - 1])
  }

  // Over whole runs: the guarantee holds throughout exactly when every step was harmless.
  lemma {:induction false} RaceSafeIff(cfg: Config, steps: seq<Step>)
    ensures SafeThroughout(cfg, steps) <==> AllHarmless(cfg, steps)
    ensures AllHarmless(cfg, steps) ==> GoodCalls(Race(cfg, steps))
  {
    if steps == [] {
      InitInv();
    } else {
      var n := |steps| - 1;
      RaceSafeIff(cfg, steps[..n]);
      if AllHarmless(cfg, steps[..n]) {
        StepSafeIff(cfg, Race(cfg, steps[..n]), steps[n]);
        if Harmless(Race(cfg, steps[..n]), steps[n]) {
          GoodCallsKept(cfg, Race(cfg, steps[..n]), steps[n]);
        }
      }
    }
  }

  // ---------- schedules without overlap ----------

  // The call a step finishes.
  predicate Finishes(step: Step, call: Id) {
    (step.Commit? || step.Flip? || step.Save?) && step.call == call
  }

  // No revert of an attendee commits while a Collect or a row save for them is in flight, no handout
  // goes to them while a revert is, and nobody admits them while a row save is.
  ghost predicate Quiet(cfg: Config, r: Racing, step: Step) {
    var s, s' := r.db, Next(cfg, r, step).db;
    forall call :: call in r.calls && !Finishes(step, call) ==>
      var a := r.calls[call].attendee;
      match r.calls[call]
      case Collecting(_, _, _) => Inside(s, a) ==> Inside(s', a)
      case Reverting(_, _) => HoldsHandout(s', a) ==> HoldsHandout(s, a)
      case Saving(_, _) => Inside(s', a) <==> Inside(s, a)
  }

  // What each call in flight read is still so.
  ghost predicate StillTrue(s: State, c: Call) {
    match c
    case Collecting(_, a, _) => Inside(s, a)
    case Reverting(_, a) => !HoldsHandout(s, a)
    case Saving(a, row) => row.status == CheckedIn <==> Inside(s, a)
  }

  ghost predicate AllStillTrue(r: Racing) {
    forall call :: call in r.calls ==> StillTrue(r.db, r.calls[call])
  }

  ghost predicate AllQuiet(cfg: Config, steps: seq<Step>) {
    steps != [] ==>
      var init := steps[..|steps| - 1];
      AllQuiet(cfg, init) && Quiet(cfg, Race(cfg, init), steps[|steps| - 1])
  }

  lemma StillTrueIsHarmless(r: Racing, step: Step)
    requires Inv(r.db) && GoodCalls(r) && AllStillTrue(r)
    ensures Harmless(r, step)
  {
    if (step.Commit? || step.Flip? || step.Save?) && step.call in r.calls {
      var c := r.calls[step.call];
      assert StillTrue(r.db, c) && GoodCall(r.db, c);
      if c.Collecting? {
        assert HistoryOf(r.db, c.attendee);
      }
    }
  }

  lemma QuietKeepsTrue(cfg: Config, r: Racing, step: Step)
    requires AllStillTrue(r) && Quiet(cfg, r, step)
    ensures AllStillTrue(Next(cfg, r, step))
  {
    var r' := Next(cfg, r, step);
    forall call | call in r'.calls ensures StillTrue(r'.db, r'.calls[call]) {
      if call in r.calls && !Finishes(step, call) {
        assert StillTrue(r.db, r.calls[call]);
        assert r'.calls[call] == r.calls[call];
      } else if call in r.calls {
        assert StillTrue(r.db, r.calls[call]);
      }
    }
  }

  lemma {:induction false} QuietRunsAreSafe(cfg: Config, steps: seq<Step>)
    requires AllQuiet(cfg, steps)
    ensures SafeThroughout(cfg, steps) && AllStillTrue(Race(cfg, steps))
  {
    if steps != [] {
      var n := |steps| - 1;
      QuietRunsAreSafe(cfg, steps[..n]);
      RaceSafeIff(cfg, steps[..n]);
      StillTrueIsHarmless(Race(cfg, steps[..n]), steps[n]);
      StepSafeIff(cfg, Race(cfg, steps[..n]), steps[n]);
      QuietKeepsTrue(cfg, Race(cfg, steps[..n]), steps[n]);
    } else {
      InitInv();
    }
  }

  // The attendee a step is about, if it can admit, revert, cancel or hand out to one.
  function About(cfg: Config, r: Racing, step: Step): Option<Id> {
    match step
    case Whole(op) => AboutOp(cfg, op)
    case Read(_, _, a) => Some(a)
    case Guard(_, _, a) => Some(a)
    case Load(_, a, _) => Some(a)
    case Commit(call, _, _, _, _, _, _) => if call in r.calls then Some(r.calls[call].attendee) else None
    case Flip(call, _) => if call in r.calls then Some(r.calls[call].attendee) else None
    case Save(call) => if call in r.calls then Some(r.calls[call].attendee) else None
  }

  function AboutOp(cfg: Config, op: Op): Option<Id> {
    match op
    case OpScanQr(_, code, _, _) =>
      var v := Payload.VerifyPayload(code, cfg.secret, cfg.prims);
      if v.Ok? then Some(v.value.attendee) else None
    case OpScanManual(_, a, _, _) => a
    case OpRevert(_, a, _) => a
    case OpCollect(_, _, a, _, _, _, _, _) => a
    case OpCancelMine(_, a) => Some(a)
    case _ => None
  }

  // Calls on one attendee do not overlap: while one is in flight, the only step about its attendee is
  // the one that finishes it.
  predicate Exclusive(cfg: Config, r: Racing, step: Step) {
    forall call :: call in r.calls && About(cfg, r, step) == Some(r.calls[call].attendee) ==> Finishes(step, call)
  }

  ghost predicate AllExclusive(cfg: Config, steps: seq<Step>) {
    steps != [] ==>
      var init := steps[..|steps| - 1];
      AllExclusive(cfg, init) && Exclusive(cfg, Race(cfg, init), steps[|steps| - 1])
  }

  // A step about somebody else neither moves this attendee in or out nor hands anything to them.
  lemma Elsewhere(cfg: Config, s: State, op: Op, a: Id)
    requires AboutOp(cfg, op) != Some(a)
    ensures var s' := Apply(cfg, s, op);
            (Inside(s', a) <==> Inside(s, a)) && (HoldsHandout(s', a) ==> HoldsHandout(s, a))
  {
    var s' := Apply(cfg, s, op);
    if Fresh(s, op) && op.OpMint? {
      MintFills(cfg, s, op.order, op.user, op.event, op.quantity, op.drawn);
      MintOnlyRoster(cfg, s, op.order, op.user, op.event, op.quantity, op.drawn);
    }
    if h :| h in s'.handouts && s'.handouts[h].attendee == a && s'.handouts[h].Active() {
      assert h in s.handouts && s.handouts[h].attendee == a && s.handouts[h].Active();
    }
  }

  lemma ElsewhereStep(cfg: Config, r: Racing, step: Step, a: Id)
    requires About(cfg, r, step) != Some(a)
    ensures var s, s' := r.db, Next(cfg, r, step).db;
            (Inside(s', a) <==> Inside(s, a)) && (HoldsHandout(s', a) ==> HoldsHandout(s, a))
  {
    if step.Whole? {
      Elsewhere(cfg, r.db, step.op, a);
    }
  }

  lemma ExclusiveIsQuiet(cfg: Config, r: Racing, step: Step)
    requires Exclusive(cfg, r, step)
    ensures Quiet(cfg, r, step)
  {
    forall call | call in r.calls && !Finishes(step, call)
      ensures var s, s', a := r.db, Next(cfg, r, step).db, r.calls[call].attendee;
              (Inside(s', a) <==> Inside(s, a)) && (HoldsHandout(s', a) ==> HoldsHandout(s, a))
    {
      ElsewhereStep(cfg, r, step, r.calls[call].attendee);
    }
  }

  // Calls on different attendees may interleave as they like.
  lemma {:induction false} ExclusiveRunsAreSafe(cfg: Config, steps: seq<Step>)
    requires AllExclusive(cfg, steps)
    ensures AllQuiet(cfg, steps) && SafeThroughout(cfg, steps)
  {
    if steps != [] {
      var n := |steps| - 1;
      ExclusiveRunsAreSafe(cfg, steps[..n]);
      ExclusiveIsQuiet(cfg, Race(cfg, steps[..n]), steps[n]);
    }
    QuietRunsAreSafe(cfg, steps);
  }

  // Nothing but a revert takes a CHECKED_IN row out of that status.
  lemma OnlyRevertLeaves(cfg: Config, s: State, op: Op, a: Id)
    requires a in s.attendees && s.attendees[a].status == CheckedIn
    ensures var s' := Apply(cfg, s, op);
            a in s'.attendees &&
            (s'.attendees[a].status == CheckedIn ||
             (op.OpRevert? && op.attendeeRef == Some(a) && Revert(s, op.eventRef, op.attendeeRef, op.staff).1.Ok?))
  {
    if Fresh(s, op) && op.OpMint? {
      MintFills(cfg, s, op.order, op.user, op.event, op.quantity, op.drawn);
    }
  }

  // ---------- the windows are real ----------

  // Read, revert (accepted, nothing is held yet), commit: from any state.
  lemma RevertInTheWindow(cfg: Config, s: State, event: Id, kit: Id, a: Id, staff: Id)
    requires Inv(s) && kit in s.kits && s.kits[kit].event == event && |ActiveOf(s, kit)| < s.kits[kit].total
    requires Eligible(s, event, a).Ok? && !HoldsHandout(s, a) && 0 !in s.handouts
    ensures var r1 := Next(cfg, Racing(s, map[]), Read(1, event, a));
            var r2 := Next(cfg, r1, Whole(OpRevert(Some(event), Some(a), staff)));
            var r3 := Next(cfg, r2, Commit(1, kit, false, "", staff, 0, 0));
            Inv(r2.db) && !Held(r3.db)
  {
    var r1 := Next(cfg, Racing(s, map[]), Read(1, event, a));
    ApplyKeeps(cfg, s, OpRevert(Some(event), Some(a), staff));
    var r2 := Next(cfg, r1, Whole(OpRevert(Some(event), Some(a), staff)));
    assert r2.db.attendees[a].status == Registered;
    assert ActiveOf(r2.db, kit) == ActiveOf(s, kit);
    assert Replayed(r2.db, kit, a, "") == None;
    var r3 := Next(cfg, r2, Commit(1, kit, false, "", staff, 0, 0));
    assert r3.db.handouts[0].Active() && r3.db.handouts[0].attendee == a;
  }

  // Guard, a whole Collect, flip: the revert's own window, from any state.
  lemma CollectInTheWindow(cfg: Config, s: State, event: Id, kit: Id, a: Id, staff: Id)
    requires Inv(s) && kit in s.kits && s.kits[kit].event == event && |ActiveOf(s, kit)| < s.kits[kit].total
    requires Eligible(s, event, a).Ok? && !HoldsHandout(s, a) && 0 !in s.handouts
    ensures var r1 := Next(cfg, Racing(s, map[]), Guard(1, event, a));
            var r2 := Next(cfg, r1, Whole(OpCollect(Some(event), Some(kit), Some(a), false, "", staff, 0, 0)));
            var r3 := Next(cfg, r2, Flip(1, staff));
            Inv(r2.db) && !Held(r3.db)
  {
    var r1 := Next(cfg, Racing(s, map[]), Guard(1, event, a));
    var op := OpCollect(Some(event), Some(kit), Some(a), false, "", staff, 0, 0);
    ApplyKeeps(cfg, s, op);
    var r2 := Next(cfg, r1, Whole(op));
    assert Replayed(s, kit, a, "") == None;
    assert !AlreadyHolds(s, kit, a);
    assert r2.db.handouts[0].Active() && r2.db.handouts[0].attendee == a;
    FlipSafeIff(r2.db, event, a, staff);
    var r3 := Next(cfg, r2, Flip(1, staff));
    assert r3.db.handouts[0].Active() && r3.db.attendees[a].status == Registered;
  }

  lemma RaceSnoc(cfg: Config, steps: seq<Step>, step: Step)
    ensures Race(cfg, steps + [step]) == Next(cfg, Race(cfg, steps), step)
  {
    assert (steps + [step])[..|steps|] == steps;
  }

  // One attendee added and admitted, and a one-unit kit.
  function OneInside(): seq<Step> {
    [Whole(OpAdd(7, 0, ""))] + [Whole(OpScanManual(Some(0), Some(7), 0, 0))] + [Whole(OpCreateKit(Some(0), 1, true, -1, 1))]
  }

  lemma OneInsideState(cfg: Config)
    ensures var r := Race(cfg, OneInside());
            && r.calls == map[] && Inv(r.db) && 1 in r.db.kits && r.db.kits[1] == Kit(0, 1) && ActiveOf(r.db, 1) == {}
            && Eligible(r.db, 0, 7).Ok? && !HoldsHandout(r.db, 7) && r.db.handouts == map[]
  {
    var s1, s2, s3 := OpAdd(7, 0, ""), OpScanManual(Some(0), Some(7), 0, 0), OpCreateKit(Some(0), 1, true, -1, 1);
    assert [] + [Whole(s1)] == [Whole(s1)];
    RaceSnoc(cfg, [], Whole(s1));
    RaceSnoc(cfg, [Whole(s1)], Whole(s2));
    RaceSnoc(cfg, [Whole(s1)] + [Whole(s2)], Whole(s3));
    InitInv();
    ApplyKeeps(cfg, EMPTY, s1);
    ApplyKeeps(cfg, Apply(cfg, EMPTY, s1), s2);
    ApplyKeeps(cfg, Apply(cfg, Apply(cfg, EMPTY, s1), s2), s3);
  }

  // Both windows are reached from an empty database; so is a third: a name correction loaded before
  // an admission takes the admission back when it saves.
  lemma WindowsReached(cfg: Config)
    ensures !Held(Race(cfg, OneInside() + [Read(1, 0, 7)] + [Whole(OpRevert(Some(0), Some(7), 0))] + [Commit(1, 1, false, "", 0, 0, 0)]).db)
    ensures !Held(Race(cfg, OneInside() + [Guard(1, 0, 7)] + [Whole(OpCollect(Some(0), Some(1), Some(7), false, "", 0, 0, 0))]
                              + [Flip(1, 0)]).db)
    ensures !HistoryOf(Race(cfg, [Whole(OpAdd(7, 0, ""))] + [Load(1, 7, None)] + [Whole(OpScanManual(Some(0), Some(7), 0, 0))] + [Save(1)]).db, 7)
  {
    OneInsideState(cfg);
    var s := Race(cfg, OneInside()).db;
    var a := OneInside() + [Read(1, 0, 7)];
    RaceSnoc(cfg, OneInside(), Read(1, 0, 7));
    RaceSnoc(cfg, a, Whole(OpRevert(Some(0), Some(7), 0)));
    RaceSnoc(cfg, a + [Whole(OpRevert(Some(0), Some(7), 0))], Commit(1, 1, false, "", 0, 0, 0));
    RevertInTheWindow(cfg, s, 0, 1, 7, 0);
    var b := OneInside() + [Guard(1, 0, 7)];
    var collect := Whole(OpCollect(Some(0), Some(1), Some(7), false, "", 0, 0, 0));
    RaceSnoc(cfg, OneInside(), Guard(1, 0, 7));
    RaceSnoc(cfg, b, collect);
    RaceSnoc(cfg, b + [collect], Flip(1, 0));
    CollectInTheWindow(cfg, s, 0, 1, 7, 0);
    SaveWindow(cfg);
  }

  lemma SaveWindow(cfg: Config)
    ensures !HistoryOf(Race(cfg, [Whole(OpAdd(7, 0, ""))] + [Load(1, 7, None)] + [Whole(OpScanManual(Some(0), Some(7), 0, 0))] + [Save(1)]).db, 7)
  {
    var add, load, scan := Whole(OpAdd(7, 0, "")), Load(1, 7, None), Whole(OpScanManual(Some(0), Some(7), 0, 0));
    assert [] + [add] == [add];
    RaceSnoc(cfg, [], add);
    RaceSnoc(cfg, [add], load);
    RaceSnoc(cfg, [add] + [load], scan);
    RaceSnoc(cfg, [add] + [load] + [scan], Save(1));
    var r := Race(cfg, [add] + [load] + [scan]);
    var row := LogRow(0, Some(7), 0, ScannedIn, Manual);
    assert r.db.log == [] + [row];
    AppendEvents([], row, 7);
  }
}
