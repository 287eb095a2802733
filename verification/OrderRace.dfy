// A call on an order loads it before its transaction starts, a claim looks its ticket type up before, and
// a staff call on a type loads the row it will save, or whose sales it counts. What can happen in between.
module OrderRace {
  import opened Common
  import opened Orders
  import opened OrderRuns

  // A call between its load and its transaction. A sweep is one such call per order it picked.
  datatype Call =
    | Acting(order: nat, copy: Order, what: Intent)
    | Claiming(claimed: Order)
    | Editing(ticket: Id, row: Ticket)   // an edit, an activation or a pause
    | Deleting(ticket: Id)

  datatype Racing = Racing(db: State, calls: map<Id, Call>)

  datatype Step =
    | Whole(op: Op)
    | Begin(call: Id, order: nat, what: Intent, now: Time)
    | Ask(call: Id, user: Id, event: Id, ticket: Id, quantity: int, key: string, claim: Claim, now: Time)
    | Load(call: Id, ticket: Id, change: Change)
    | Count(call: Id, ticket: Id)
    | Finish(call: Id)

  // The status a call demands of the order it loads.
  predicate Accepts(o: Order, what: Intent, now: Time) {
    match what
    case Pay(_, _, _) => o.status == PendingPayment
    case Link(_) => o.status == PendingPayment || o.status == Confirmed
    case Cancel => !o.status.Terminal() || o.status == Confirmed
    case Expire => Overdue(o, now)
  }

  // A new key, on a type that is for sale as far as the catalogue says.
  predicate MayClaim(s: State, user: Id, event: Id, ticket: Id, quantity: int, key: string, claim: Claim) {
    && quantity > 0 && (key == "" || FindByKey(s.orders, user, key).None?)
    && ticket in s.tickets && Refusal(s.tickets[ticket], event, quantity, claim).None?
  }

  // What a call keeps of what it read, when it goes on.
  function Begun(s: State, step: Step): Option<Call> {
    match step
    case Whole(_) => None
    case Begin(_, i, what, now) => if i < |s.orders| && Accepts(s.orders[i], what, now) then Some(Acting(i, s.orders[i], what)) else None
    case Ask(_, user, event, ticket, quantity, key, claim, now) =>
      if MayClaim(s, user, event, ticket, quantity, key, claim)
      then Some(Claiming(NewOrder(user, event, ticket, s.tickets[ticket], quantity, key, now))) else None
    case Load(_, ticket, change) =>
      if ticket in s.tickets && Edited(s.tickets[ticket], change).Ok?
      then Some(Editing(ticket, Edited(s.tickets[ticket], change).value)) else None
    case Count(_, ticket) => if ticket in s.tickets && s.tickets[ticket].sold <= 0 then Some(Deleting(ticket)) else None
    case Finish(_) => None
  }

  // Its transaction, whenever it comes.
  function Done(s: State, c: Call): State {
    match c
    case Acting(i, copy, what) => if i < |s.orders| then Commit(s, i, copy, what).0 else s
    case Claiming(row) => Place(s, row).0
    case Editing(ticket, row) => SaveTicket(s, ticket, row)
    case Deleting(ticket) => DropTicket(s, ticket)
  }

  function Next(r: Racing, step: Step): Racing {
    match step
    case Whole(op) => r.(db := Apply(r.db, op))
    case Finish(call) => if call in r.calls then Racing(Done(r.db, r.calls[call]), r.calls - {call}) else r
    case _ =>
      if step.call !in r.calls && Begun(r.db, step).Some?
      then r.(calls := r.calls[step.call := Begun(r.db, step).value]) else r
  }

  // A claim, an edit and a deletion are their reads and then their transactions.
  lemma WholeIsDone(s: State, step: Step)
    requires Begun(s, step).Some?
    ensures step.Ask? ==>
              Done(s, Begun(s, step).value)
                == CreateOrder(s, step.user, step.event, step.ticket, step.quantity, step.key, step.claim, step.now).0
    ensures step.Load? ==> Done(s, Begun(s, step).value) == EditTicket(s, step.ticket, step.change).0
    ensures step.Count? ==> Done(s, Begun(s, step).value) == DeleteTicket(s, step.ticket).0
  {
  }

  function Race(steps: seq<Step>): Racing {
    if steps == [] then Racing(EMPTY, map[])
    else Next(Race(steps[..|steps| - 1]), steps[|steps| - 1])
  }

  // What a read fixes for good: an order's claim, and that its copy held units; a claim's own row; that
  // a saved row does not oversell by itself.
  predicate GoodCall(s: State, c: Call) {
    match c
    case Acting(i, copy, _) => i < |s.orders| && SameClaim(copy, s.orders[i]) && SoundCopy(copy)
    case Claiming(row) => Claimable(row)
    case Editing(_, row) => row.sold <= row.total
    case Deleting(_) => true
  }

  ghost predicate GoodCalls(r: Racing) {
    forall call :: call in r.calls ==> GoodCall(r.db, r.calls[call])
  }

  // A call on an order is refused, or finds the order still holding units; a saved row carries the
  // type's counter of that moment; nothing is sold of a deleted type.
  predicate Harmless(r: Racing, step: Step) {
    step.Finish? && step.call in r.calls ==>
      match r.calls[step.call]
      case Acting(i, copy, what) => i < |r.db.orders| ==> Commit(r.db, i, copy, what).1.Err? || r.db.orders[i].status.Live()
      case Claiming(_) => true
      case Editing(ticket, row) => row.sold == SoldOf(r.db, ticket)
      case Deleting(ticket) => SoldOf(r.db, ticket) == 0
  }

  lemma StepSafeIff(r: Racing, step: Step)
    requires Inv(r.db) && GoodCalls(r)
    ensures Inv(Next(r, step).db) <==> Harmless(r, step)
  {
    hide Inv, Apply, Commit, Place;
    if step.Whole? {
      ApplyKeeps(r.db, step.op);
    } else if step.Finish? && step.call in r.calls {
      assert GoodCall(r.db, r.calls[step.call]);
      match r.calls[step.call]
      case Acting(i, copy, what) => CommitConservesIff(r.db, i, copy, what);
      case Claiming(row) => PlaceKeeps(r.db, row);
      case Editing(ticket, row) => SaveConservesIff(r.db, ticket, row);
      case Deleting(ticket) => DropSafeIff(r.db, ticket);
    }
  }

  lemma DropSafeIff(s: State, ticket: Id)
    requires Inv(s)
    ensures Inv(DropTicket(s, ticket)) <==> SoldOf(s, ticket) == 0
  {
    if ticket in s.tickets {
      DropConservesIff(s, ticket);
    } else {
      assert s.tickets - {ticket} == s.tickets;
    }
  }

  // Orders only accumulate, and no call changes an order's claim.
  ghost predicate Grows(s: State, s': State) {
    && |s.orders| <= |s'.orders|
    && forall i :: 0 <= i < |s.orders| ==> SameClaim(s.orders[i], s'.orders[i])
  }

  lemma ApplyGrows(s: State, op: Op)
    requires Inv(s)
    ensures Grows(s, Apply(s, op))
  {
    forall i | 0 <= i < |s.orders| ensures i < |Apply(s, op).orders| && SameClaim(s.orders[i], Apply(s, op).orders[i]) {
      ApplyRank(s, op, i);
    }
    if op.OpSweep? && Selection(s.orders, op.picks, op.now, op.limit) {
      SweepExact(s, op.picks, op.known);
    }
  }

  lemma DoneGrows(s: State, c: Call)
    requires GoodCall(s, c)
    ensures Grows(s, Done(s, c))
  {
  }

  lemma BegunGood(s: State, step: Step)
    requires Inv(s) && Begun(s, step).Some?
    ensures GoodCall(s, Begun(s, step).value)
  {
    if step.Begin? {
      assert SoundOrder(s, s.orders[step.order]);
    }
  }

  lemma GoodCallsKept(r: Racing, step: Step)
    requires Inv(r.db) && GoodCalls(r)
    ensures GoodCalls(Next(r, step))
  {
    hide Inv, Apply, Begun, Done;
    var r' := Next(r, step);
    if step.Whole? {
      ApplyGrows(r.db, step.op);
    } else if step.Finish? && step.call in r.calls {
      assert GoodCall(r.db, r.calls[step.call]);
      DoneGrows(r.db, r.calls[step.call]);
    } else if r'.calls != r.calls {
      BegunGood(r.db, step);
    }
    forall call | call in r'.calls ensures GoodCall(r'.db, r'.calls[call]) {
      if call in r.calls {
        assert GoodCall(r.db, r.calls[call]);
      }
    }
  }

  ghost predicate SafeThroughout(steps: seq<Step>) {
    Inv(Race(steps).db) && (steps != [] ==> SafeThroughout(steps[..|steps| - 1]))
  }

  predicate AllHarmless(steps: seq<Step>) {
    steps != [] ==>
      var init := steps[..|steps| - 1];
      AllHarmless(init) && Harmless(Race(init), steps[|steps| - 1])
  }

  // Over whole runs of any interleaving: the counters stay right throughout exactly when every
  // transaction was harmless when it came.
  lemma {:induction false} RaceSafeIff(steps: seq<Step>)
    ensures SafeThroughout(steps) <==> AllHarmless(steps)
    ensures AllHarmless(steps) ==> GoodCalls(Race(steps))
  {
    hide Harmless, Next, Inv, GoodCalls;
    if steps == [] {
      NothingYet();
    } else {
      var n := |steps| - 1;
      RaceSafeIff(steps[..n]);
      if AllHarmless(steps[..n]) {
        StepSafeIff(Race(steps[..n]), steps[n]);
        if Harmless(Race(steps[..n]), steps[n]) {
          GoodCallsKept(Race(steps[..n]), steps[n]);
        }
      }
    }
  }

  lemma NothingYet()
    ensures Inv(EMPTY) && GoodCalls(Racing(EMPTY, map[]))
  {
  }

  // ---------- schedules without overlap ----------

  predicate Concerns(op: Op, i: nat) {
    match op
    case OpPay(j, _, _, _, _) => j == i
    case OpLink(j, _) => j == i
    case OpCancel(_, _, j, _) => j == i
    case OpSweep(picks, _, _, _) => i in picks
    case _ => false
  }

  predicate OfType(s: State, i: nat, ticket: Id) {
    i < |s.orders| && s.orders[i].ticket == ticket
  }

  // The step may claim or give back units of the type.
  predicate Trades(r: Racing, step: Step, ticket: Id) {
    match step
    case Whole(OpCreate(_, _, id, _, _, _, _)) => id == ticket
    case Whole(OpCancel(_, _, i, _)) => OfType(r.db, i, ticket)
    case Whole(OpSweep(picks, _, _, _)) => exists k :: 0 <= k < |picks| && OfType(r.db, picks[k], ticket)
    case Finish(call) =>
      call in r.calls &&
      (match r.calls[call]
       case Acting(_, copy, what) => (what.Cancel? || what.Expire?) && copy.ticket == ticket
       case Claiming(row) => row.ticket == ticket
       case _ => false)
    case _ => false
  }

  // A step leaves alone every order that has a call in flight, other than to finish that call, and
  // trades no units of a type that has a staff call in flight.
  predicate Exclusive(r: Racing, step: Step) {
    forall call :: call in r.calls ==>
      match r.calls[call]
      case Acting(i, _, _) => (step.Whole? ==> !Concerns(step.op, i)) && (step.Begin? ==> step.order != i)
      case Claiming(_) => true
      case Editing(ticket, _) => !Trades(r, step, ticket)
      case Deleting(ticket) => !Trades(r, step, ticket)
  }

  predicate AllExclusive(steps: seq<Step>) {
    steps != [] ==>
      var init := steps[..|steps| - 1];
      AllExclusive(init) && Exclusive(Race(init), steps[|steps| - 1])
  }

  // What a call read is still so, and no two calls are on one order.
  predicate StillSo(s: State, c: Call) {
    match c
    case Acting(i, copy, _) => i < |s.orders| && s.orders[i] == copy && copy.status.Live()
    case Claiming(_) => true
    case Editing(ticket, row) => row.sold == SoldOf(s, ticket)
    case Deleting(ticket) => SoldOf(s, ticket) == 0
  }

  predicate Apart(a: Call, b: Call) {
    a.Acting? && b.Acting? ==> a.order != b.order
  }

  ghost predicate Current(r: Racing) {
    && (forall call :: call in r.calls ==> StillSo(r.db, r.calls[call]))
    && (forall a, b :: a in r.calls && b in r.calls && a != b ==> Apart(r.calls[a], r.calls[b]))
  }

  lemma ApplyElsewhere(s: State, op: Op, i: nat)
    requires Inv(s) && i < |s.orders| && !Concerns(op, i)
    ensures i < |Apply(s, op).orders| && Apply(s, op).orders[i] == s.orders[i]
  {
    if op.OpSweep? && Selection(s.orders, op.picks, op.now, op.limit) {
      SweepExact(s, op.picks, op.known);
    }
  }

  lemma {:induction false} SameHolding(orders: seq<Order>, orders': seq<Order>, ticket: Id)
    requires |orders'| == |orders| && forall i :: 0 <= i < |orders| ==> Units(orders'[i], ticket) == Units(orders[i], ticket)
    ensures Holding(orders', ticket) == Holding(orders, ticket)
  {
    if orders != [] {
      SameHolding(orders[..|orders| - 1], orders'[..|orders| - 1], ticket);
    }
  }

  // A sweep that picked no order of a type leaves its counter alone.
  lemma SweepSold(s: State, op: Op, ticket: Id)
    requires Inv(s) && op.OpSweep? && forall k :: 0 <= k < |op.picks| ==> !OfType(s, op.picks[k], ticket)
    ensures SoldOf(Apply(s, op), ticket) == SoldOf(s, ticket)
  {
    var s' := Apply(s, op);
    ApplyKeeps(s, op);
    SoldIsHeld(s, ticket);
    SoldIsHeld(s', ticket);
    hide Inv;
    if Selection(s.orders, op.picks, op.now, op.limit) {
      SweepExact(s, op.picks, op.known);
      forall i | 0 <= i < |s.orders| ensures Units(s'.orders[i], ticket) == Units(s.orders[i], ticket) {
        if i in op.picks {
          assert !OfType(s, i, ticket);
        }
      }
      SameHolding(s.orders, s'.orders, ticket);
    }
  }

  lemma ApplySold(r: Racing, op: Op, ticket: Id)
    requires Inv(r.db) && !Trades(r, Whole(op), ticket)
    ensures SoldOf(Apply(r.db, op), ticket) == SoldOf(r.db, ticket)
  {
    if op.OpSweep? {
      SweepSold(r.db, op, ticket);
    } else {
      NeverNegative(r.db, ticket);
    }
  }

  lemma DoneSold(r: Racing, call: Id, ticket: Id)
    requires call in r.calls && StillSo(r.db, r.calls[call]) && !Trades(r, Finish(call), ticket)
    ensures SoldOf(Done(r.db, r.calls[call]), ticket) == SoldOf(r.db, ticket)
  {
  }

  // Another order's row is left alone by a call that finishes.
  lemma DoneElsewhere(s: State, c: Call, d: Call)
    requires d.Acting? && StillSo(s, d) && Apart(c, d)
    ensures StillSo(Done(s, c), d)
  {
  }

  lemma NextCalls(r: Racing, step: Step)
    requires Current(r) && Exclusive(r, step)
    ensures var calls' := Next(r, step).calls;
            forall a, b :: a in calls' && b in calls' && a != b ==> Apart(calls'[a], calls'[b])
  {
    hide StillSo, Done;
  }

  lemma BegunStillSo(s: State, step: Step)
    requires Inv(s) && Begun(s, step).Some?
    ensures StillSo(s, Begun(s, step).value)
  {
    if step.Count? {
      NeverNegative(s, step.ticket);
    }
  }

  lemma KeptStillSo(r: Racing, step: Step, call: Id)
    requires Inv(r.db) && Current(r) && Exclusive(r, step) && call in r.calls && call in Next(r, step).calls
    ensures StillSo(Next(r, step).db, r.calls[call])
  {
    hide Inv, Apply, Done, Begun;
    var c := r.calls[call];
    assert StillSo(r.db, c);
    if step.Whole? {
      if c.Acting? {
        ApplyElsewhere(r.db, step.op, c.order);
      } else if !c.Claiming? {
        ApplySold(r, step.op, c.ticket);
      }
    } else if step.Finish? && step.call in r.calls {
      var d := r.calls[step.call];
      assert StillSo(r.db, d) && Apart(d, c);
      if c.Acting? {
        DoneElsewhere(r.db, d, c);
      } else if !c.Claiming? {
        DoneSold(r, step.call, c.ticket);
      }
    }
  }

  lemma ExclusiveStep(r: Racing, step: Step)
    requires Inv(r.db) && GoodCalls(r) && Current(r) && Exclusive(r, step)
    ensures Harmless(r, step) && Current(Next(r, step))
  {
    var r' := Next(r, step);
    NextCalls(r, step);
    hide Inv, Apply, Done, Begun, Exclusive, Commit;
    forall call | call in r'.calls ensures StillSo(r'.db, r'.calls[call]) {
      if call in r.calls {
        KeptStillSo(r, step, call);
      } else {
        BegunStillSo(r.db, step);
      }
    }
    if step.Finish? && step.call in r.calls {
      assert StillSo(r.db, r.calls[step.call]);
    }
  }

  // Calls on different orders may interleave as they like, and so may claims, as long as no unit of a
  // type is claimed or given back between a staff call's read of the type and its write.
  lemma {:induction false} ExclusiveRunsConserve(steps: seq<Step>)
    requires AllExclusive(steps)
    ensures SafeThroughout(steps) && Current(Race(steps))
  {
    hide Harmless, Next, Inv, GoodCalls, Exclusive;
    RaceSafeIff([]);
    if steps != [] {
      var n := |steps| - 1;
      ExclusiveRunsConserve(steps[..n]);
      RaceSafeIff(steps[..n]);
      ExclusiveStep(Race(steps[..n]), steps[n]);
      StepSafeIff(Race(steps[..n]), steps[n]);
    }
  }

  // The windows are real. A payment that loaded its order before a cancel confirms an order whose
  // units are already back on sale.
  lemma PaidAfterCancel(s: State, i: nat, session: string, now: Time)
    requires Inv(s) && i < |s.orders| && s.orders[i].status == PendingPayment && SessionFree(s.orders, i, session)
    ensures var r1 := Next(Racing(s, map[]), Begin(1, i, Pay(session, "", now), now));
            var r2 := Next(r1, Whole(OpCancel(s.orders[i].user, false, i, true)));
            var r3 := Next(r2, Finish(1));
            Inv(r2.db) && r3.db.orders[i].status == Confirmed && !Conserved(r3.db)
  {
    var r1 := Next(Racing(s, map[]), Begin(1, i, Pay(session, "", now), now));
    var op := OpCancel(s.orders[i].user, false, i, true);
    CancelledRow(s, i);
    var db := Apply(s, op);
    assert SessionFree(db.orders, i, session) by {
      forall j | 0 <= j < |s.orders| && j != i ensures db.orders[j].session != Some(session) {
        assert db.orders[j] == s.orders[j];
      }
    }
    PaidOnCancelled(db, i, s.orders[i], session, now);
  }

  lemma CancelledRow(s: State, i: nat)
    requires Inv(s) && i < |s.orders| && s.orders[i].status == PendingPayment
    ensures var db := Apply(s, OpCancel(s.orders[i].user, false, i, true));
            && Inv(db) && db.orders == s.orders[i := s.orders[i].(status := Cancelled)]
            && s.orders[i].quantity > 0 && s.orders[i].ticket in db.tickets
  {
    ApplyKeeps(s, OpCancel(s.orders[i].user, false, i, true));
    ReleaseNeverUnderflows(s, i, Cancel);
    assert SoundOrder(s, s.orders[i]);
  }

  lemma PaidOnCancelled(db: State, i: nat, copy: Order, session: string, now: Time)
    requires Conserved(db) && i < |db.orders| && db.orders[i].status == Cancelled && SessionFree(db.orders, i, session)
    requires copy.status == PendingPayment && copy.quantity > 0 && copy.ticket in db.tickets && copy.ticket == db.orders[i].ticket
    ensures var db' := Commit(db, i, copy, Pay(session, "", now)).0;
            db'.orders[i].status == Confirmed && !Conserved(db')
  {
    CommitEffect(db, i, copy, Pay(session, "", now), copy.ticket);
  }

  // A claim between a staff call's load and its save: the unit is sold, and the counter says it is not.
  lemma StaleSave(s: State, ticket: Id, change: Change, claimed: Order)
    requires Inv(s) && ticket in s.tickets && Edited(s.tickets[ticket], change).Ok?
    requires Claimable(claimed) && claimed.ticket == ticket && Place(s, claimed).1.Ok?
    ensures var row := Edited(s.tickets[ticket], change).value;
            !Conserved(SaveTicket(Place(s, claimed).0, ticket, row))
  {
    var s1, row := Place(s, claimed).0, Edited(s.tickets[ticket], change).value;
    PlaceKeeps(s, claimed);
    assert s1.tickets[ticket].sold == s.tickets[ticket].sold + claimed.quantity;
    SoldIsHeld(s1, ticket);
    assert SaveTicket(s1, ticket, row).tickets[ticket] == row;
  }

  // ---------- the windows are reached ----------

  lemma RaceSnoc(steps: seq<Step>, step: Step)
    ensures Race(steps + [step]) == Next(Race(steps), step)
  {
    assert (steps + [step])[..|steps|] == steps;
  }

  const TICKET := Ticket(1, 1, 0, true, None, 100)
  const ORDER := Order(7, 1, 2, 1, 100, PendingPayment, None, Some(HOLD_TTL), None, None, None)
  const BUY := OpCreate(7, 1, 2, 1, "", Claim(true, true, false, None, true), 0)

  // A one-ticket type on sale.
  function OneType(): seq<Step> {
    [Whole(OpNewTicket(2, 1, 100, 1, None))] + [Whole(OpEditTicket(2, SetActive(true)))]
  }

  function OneOrder(): seq<Step> {
    OneType() + [Whole(BUY)]
  }

  lemma OneTypeState()
    ensures Race(OneType()) == Racing(State([], map[2 := TICKET]), map[]) && Inv(Race(OneType()).db)
  {
    var add, activate := Whole(OpNewTicket(2, 1, 100, 1, None)), Whole(OpEditTicket(2, SetActive(true)));
    assert [] + [add] == [add];
    RaceSnoc([], add);
    RaceSnoc([add], activate);
    TypeRows();
    ApplyKeeps(EMPTY, add.op);
    ApplyKeeps(Apply(EMPTY, add.op), activate.op);
    NothingYet();
    hide Inv, Apply, Race;
    assert Race([]) == Racing(EMPTY, map[]) by { EmptyRace(); }
  }

  lemma EmptyRace()
    ensures Race([]) == Racing(EMPTY, map[])
  {
  }

  lemma TypeRows()
    ensures Apply(Apply(EMPTY, OpNewTicket(2, 1, 100, 1, None)), OpEditTicket(2, SetActive(true))) == State([], map[2 := TICKET])
  {
    assert map[2 := TICKET.(active := false)][2 := TICKET] == map[2 := TICKET];
  }

  lemma OneOrderState()
    ensures Race(OneOrder()) == Racing(State([ORDER], map[2 := TICKET.(sold := 1)]), map[]) && Inv(Race(OneOrder()).db)
  {
    OneTypeState();
    RaceSnoc(OneType(), Whole(BUY));
    Bought();
    ApplyKeeps(Race(OneType()).db, BUY);
    hide Inv, Apply, Race, OneType;
  }

  lemma Bought()
    ensures Apply(State([], map[2 := TICKET]), BUY) == State([ORDER], map[2 := TICKET.(sold := 1)])
  {
    var s := State([], map[2 := TICKET]);
    assert s.tickets[2 := TICKET.(sold := 1)] == map[2 := TICKET.(sold := 1)];
    assert Place(s, ORDER) == (State([] + [ORDER], map[2 := TICKET.(sold := 1)]), Ok(0));
  }

  const CANCELLED := State([ORDER.(status := Cancelled)], map[2 := TICKET])
  const PAID := State([ORDER.(status := Confirmed, session := Some("s"), paidAt := Some(0))], map[2 := TICKET])

  lemma CancelledThenPaid()
    ensures Apply(State([ORDER], map[2 := TICKET.(sold := 1)]), OpCancel(7, false, 0, true)) == CANCELLED
    ensures Done(CANCELLED, Acting(0, ORDER, Pay("s", "", 0))) == PAID
  {
    assert [ORDER][0 := CANCELLED.orders[0]] == CANCELLED.orders && CANCELLED.orders[0 := PAID.orders[0]] == PAID.orders;
    assert map[2 := TICKET.(sold := 1)][2 := TICKET] == map[2 := TICKET];
    assert TICKET.(sold := 1).(sold := 0) == TICKET;
  }

  // From an empty database: bought, paying, cancelled, paid. The order is confirmed, its unit is on sale.
  lemma PaidAfterCancelReached()
    ensures Race(OneOrder() + [Begin(1, 0, Pay("s", "", 0), 0)] + [Whole(OpCancel(7, false, 0, true))] + [Finish(1)]).db == PAID
  {
    var begin, cancel := Begin(1, 0, Pay("s", "", 0), 0), Whole(OpCancel(7, false, 0, true));
    OneOrderState();
    CancelledThenPaid();
    RaceSnoc(OneOrder(), begin);
    RaceSnoc(OneOrder() + [begin], cancel);
    RaceSnoc(OneOrder() + [begin] + [cancel], Finish(1));
    hide Race, OneOrder, Inv, Apply, Done;
  }

  // From an empty database: staff load the type to reprice it, the only unit is sold, staff save. The
  // order holds its unit, and the unit is on sale again.
  lemma SoldTwice()
    ensures var load := Load(1, 2, Update(None, Some(200), None));
            Race(OneType() + [load] + [Whole(BUY)] + [Finish(1)]).db == State([ORDER], map[2 := TICKET.(price := 200)])
  {
    var load := Load(1, 2, Update(None, Some(200), None));
    OneTypeState();
    OneOrderState();
    RaceSnoc(OneType(), load);
    RaceSnoc(OneType(), Whole(BUY));
    RaceSnoc(OneType() + [load], Whole(BUY));
    RaceSnoc(OneType() + [load] + [Whole(BUY)], Finish(1));
  }

  // The same with a deletion: the order holds a unit of a type that is gone, and can no longer be cancelled.
  lemma SoldAndGone()
    ensures var db := Race(OneType() + [Count(1, 2)] + [Whole(BUY)] + [Finish(1)]).db;
            db == State([ORDER], map[]) && CancelOrder(db, 7, false, 0, true) == (db, Err(TicketGone))
  {
    OneTypeState();
    OneOrderState();
    RaceSnoc(OneType(), Count(1, 2));
    RaceSnoc(OneType(), Whole(BUY));
    RaceSnoc(OneType() + [Count(1, 2)], Whole(BUY));
    RaceSnoc(OneType() + [Count(1, 2)] + [Whole(BUY)], Finish(1));
  }
}
