// The order service and the ticket store it calls: rows updated in place, each call proved to do
// what Orders says.
module OrderService {
  import opened Common
  import opened Orders
  import opened OrderRuns
  import opened OrderLaws
  import OrderSweep

  // A sweep over its first picks is the sweep of that prefix.
  lemma SweepStep(s: State, copies: seq<Order>, picks: seq<nat>, known: Id -> bool, k: nat)
    requires k < |picks| && |copies| == |s.orders| && forall j :: 0 <= j < |picks| ==> picks[j] < |s.orders|
    ensures var (s1, done) := Sweep(s, copies, picks[..k], known);
            Sweep(s, copies, picks[..k + 1], known) ==
              if !known(copies[picks[k]].event) then (s1, done)
              else
                var (s2, r) := Commit(s1, picks[k], copies[picks[k]], Expire);
                (s2, if r.Ok? then done + 1 else done)
  {
    assert picks[..k + 1][..k] == picks[..k];
  }

  class OrderDesk {
    var orders: seq<Order>
    var tickets: map<Id, Ticket>

    function View(): State
      reads this
    {
      State(orders, tickets)
    }

    constructor ()
      ensures View() == EMPTY
    {
      orders, tickets := [], map[];
    }

    // ---------- the ticket store, joined to the caller's transaction ----------

    method Reserve(id: Id, n: int) returns (r: Reply<(), StoreError>)
      modifies this`tickets
      ensures r == match ReserveTx(old(tickets), id, n) case Ok(_) => Ok(()) case Err(e) => Err(e)
      ensures tickets == match ReserveTx(old(tickets), id, n) case Ok(after) => after case Err(_) => old(tickets)
      ensures r.Ok? <==>
                && n > 0 && id in old(tickets) && old(tickets)[id].active && old(tickets)[id].sold + n <= old(tickets)[id].total
                && (old(tickets)[id].maxPerOrder.Some? ==> n <= old(tickets)[id].maxPerOrder.value)
      ensures r.Ok? ==> id in tickets && id in old(tickets) && tickets[id].sold == old(tickets)[id].sold + n <= tickets[id].total
      ensures r.Ok? && old(tickets)[id].sold >= 0 ==> ReleaseTx(tickets, id, n) == Ok(old(tickets))
      ensures WithinTotals(old(View())) ==> WithinTotals(View())
    {
      if ReserveTx(tickets, id, n).Ok? {
        ReserveMeans(tickets, id, n);
      }
      if n <= 0 { return Err(BadCount); }
      if id !in tickets { return Err(NoTicket); }
      var t := tickets[id];
      if !t.active { return Err(NotOnSale); }
      if t.maxPerOrder.Some? && n > t.maxPerOrder.value { return Err(OverLimit); }
      if t.sold + n > t.total { return Err(NoneLeft); }
      tickets := tickets[id := t.(sold := t.sold + n)];
      r := Ok(());
    }

    method Release(id: Id, n: int) returns (r: Reply<(), StoreError>)
      modifies this`tickets
      ensures r == match ReleaseTx(old(tickets), id, n) case Ok(_) => Ok(()) case Err(e) => Err(e)
      ensures tickets == match ReleaseTx(old(tickets), id, n) case Ok(after) => after case Err(_) => old(tickets)
      ensures r.Ok? <==> n > 0 && id in old(tickets) && old(tickets)[id].sold >= n
      ensures r.Ok? ==> id in tickets && 0 <= tickets[id].sold == old(tickets)[id].sold - n
      ensures r.Ok? && old(tickets)[id].active && old(tickets)[id].sold <= old(tickets)[id].total
              && (old(tickets)[id].maxPerOrder.None? || n <= old(tickets)[id].maxPerOrder.value) ==>
                ReserveTx(tickets, id, n) == Ok(old(tickets))
      ensures WithinTotals(old(View())) ==> WithinTotals(View())
    {
      ReleaseMeans(tickets, id, n);
      if n <= 0 { return Err(BadCount); }
      if id !in tickets { return Err(NoTicket); }
      var t := tickets[id];
      if t.sold - n < 0 { return Err(BadCount); }
      tickets := tickets[id := t.(sold := t.sold - n)];
      r := Ok(());
    }

    // ---------- orders ----------

    method Create(user: Id, event: Id, id: Id, quantity: int, key: string, claim: Claim, now: Time)
      returns (r: Reply<nat, OrderError>)
      modifies this
      ensures (View(), r) == CreateOrder(old(View()), user, event, id, quantity, key, claim, now)
    {
      if quantity <= 0 { return Err(InvalidQty); }
      if key != "" {
        var existing := FindByKey(orders, user, key);
        if existing.Some? { return Ok(existing.value); }
      }
      if id !in tickets { return Err(TicketGone); }
      var tt := tickets[id];
      if tt.event != event { return Err(TicketGone); }
      if !claim.published { return Err(TicketGone); }
      if !claim.forSale { return Err(if claim.soldOut then SoldOut else TicketGone); }
      if tt.maxPerOrder.Some? && quantity > tt.maxPerOrder.value { return Err(TooMany); }
      if claim.roster.Some? && claim.roster.value.0 + quantity > claim.roster.value.1 { return Err(AtCapacity); }
      var o := Order(user, event, id, quantity, tt.price, Pending, if key != "" then Some(key) else None, None, None, None, None);
      if tt.price == 0 {
        o := o.(status := Confirmed);
      } else {
        o := o.(status := PendingPayment, expiresAt := Some(now + HOLD_TTL));
      }
      if !claim.orgKnown { return Err(OrgUnknown); }
      var held := Reserve(id, quantity);
      if held.Err? { return Err(MorphReserve(held.error)); }
      orders := orders + [o];
      r := Ok(|orders| - 1);
    }

    method Pay(i: nat, session: string, intent: string, now: Time, orgKnown: bool) returns (r: Reply<(), OrderError>)
      modifies this`orders
      ensures (View(), r) == MarkPaid(old(View()), i, session, intent, now, orgKnown)
    {
      if i >= |orders| { return Err(OrderNotFound); }
      var o := orders[i];
      if o.status == Confirmed { return Ok(()); }
      if o.status != PendingPayment { return Err(InvalidStatus); }
      o := o.(status := Confirmed, session := Some(session));
      if intent != "" {
        o := o.(intent := Some(intent));
      }
      o := o.(paidAt := Some(now));
      if !orgKnown { return Err(OrgUnknown); }
      r := Save(i, o);
    }

    // Writes the whole row; the session is unique across orders.
    method Save(i: nat, o: Order) returns (r: Reply<(), OrderError>)
      requires i < |orders|
      modifies this`orders
      ensures r == if o.session.None? || SessionFree(old(orders), i, o.session.value) then Ok(()) else Err(SessionTaken)
      ensures orders == if r.Ok? then old(orders)[i := o] else old(orders)
    {
      if o.session.Some? && !SessionFree(orders, i, o.session.value) { return Err(SessionTaken); }
      orders := orders[i := o];
      r := Ok(());
    }

    method Link(i: nat, session: string) returns (r: Reply<(), OrderError>)
      modifies this`orders
      ensures (View(), r) == SetSession(old(View()), i, session)
    {
      if i >= |orders| { return Err(OrderNotFound); }
      var o := orders[i];
      if o.status != PendingPayment && o.status != Confirmed { return Err(InvalidStatus); }
      o := o.(session := Some(session));
      r := Save(i, o);
    }

    method CancelByUser(caller: Id, manages: bool, i: nat, orgKnown: bool) returns (r: Reply<(), OrderError>)
      modifies this
      ensures (View(), r) == CancelOrder(old(View()), caller, manages, i, orgKnown)
      ensures Inv(old(View())) ==> CancelAnswers(old(View()), View(), r, caller, manages, i, orgKnown)
    {
      if Inv(View()) {
        CancelMeans(View(), caller, manages, i, orgKnown);
      }
      hide Inv, CancelAnswers;
      if i >= |orders| { return Err(OrderNotFound); }
      var o := orders[i];
      if o.user != caller && !manages { return Err(OrderNotFound); }
      if o.status.Terminal() && o.status != Confirmed { return Err(InvalidStatus); }
      if !orgKnown { return Err(OrgUnknown); }
      var held := tickets;
      var released := Release(o.ticket, o.quantity);
      if released.Err? { return Err(TicketGone); }
      r := Save(i, o.(status := Cancelled));
      if r.Err? {
        tickets := held;   // the transaction rolls back
      }
    }

    // One order of a sweep, from the copy the sweep's query returned.
    method ExpireOne(i: nat, copy: Order, known: Id -> bool) returns (ok: bool)
      requires i < |orders|
      modifies this
      ensures ok == (known(copy.event) && Commit(old(View()), i, copy, Expire).1.Ok?)
      ensures View() == if known(copy.event) then Commit(old(View()), i, copy, Expire).0 else old(View())
    {
      if !known(copy.event) { return false; }
      var held := tickets;
      var released := Release(copy.ticket, copy.quantity);
      if released.Err? { return false; }
      var saved := Save(i, copy.(status := Expired));
      if saved.Err? {
        tickets := held;   // the transaction rolls back
      }
      ok := saved.Ok?;
    }

    method SweepExpired(batch: int, picks: seq<nat>, now: Time, known: Id -> bool) returns (done: nat)
      requires Selection(orders, picks, now, EffectiveBatch(batch))
      modifies this
      ensures (View(), done) == Sweep(old(View()), old(orders), picks, known)
      ensures Inv(old(View())) ==> Inv(View()) && done <= EffectiveBatch(batch)
      ensures Inv(old(View())) && OrderSweep.AllKnown(old(orders), known) ==>
                done == Min(EffectiveBatch(batch), |OverdueSet(old(orders), now)|)
    {
      var copies := orders;
      ghost var start := View();
      done := 0;
      for k := 0 to |picks|
        invariant |orders| == |copies|
        invariant (View(), done) == Sweep(start, copies, picks[..k], known)
      {
        SweepStep(start, copies, picks, known, k);
        var ok := ExpireOne(picks[k], copies[picks[k]], known);
        if ok {
          done := done + 1;
        }
      }
      assert picks[..|picks|] == picks;
      if Inv(start) {
        SweepExact(start, picks, known);
      }
    }
  }
}
