// What one order or staff call means, read off the tables.
module OrderLaws {
  import opened Common
  import opened Orders
  import opened OrderRuns

  // ---------- cancel ----------

  predicate MayCancel(s: State, caller: Id, manages: bool, i: nat, orgKnown: bool) {
    i < |s.orders| && (s.orders[i].user == caller || manages) && s.orders[i].status in {Pending, PendingPayment, Confirmed} && orgKnown
  }

  // The order and its units go together, and nothing else moves.
  ghost predicate GivesBack(s: State, s': State, i: nat)
    requires i < |s.orders|
  {
    var o := s.orders[i];
    && |s'.orders| == |s.orders| && s'.orders[i] == o.(status := Cancelled)
    && (forall j :: 0 <= j < |s.orders| && j != i ==> s'.orders[j] == s.orders[j])
    && s'.tickets.Keys == s.tickets.Keys && (forall t :: t in s.tickets && t != o.ticket ==> s'.tickets[t] == s.tickets[t])
    && o.ticket in s.tickets && s'.tickets[o.ticket] == s.tickets[o.ticket].(sold := s.tickets[o.ticket].sold - o.quantity)
    && Holding(s'.orders, o.ticket) == Holding(s.orders, o.ticket) - o.quantity
  }

  // The order's user or a manager cancels an order that still holds units. To anyone else the order
  // does not exist, and cancelling twice is refused.
  ghost predicate CancelAnswers(s: State, s': State, r: Reply<(), OrderError>, caller: Id, manages: bool, i: nat, orgKnown: bool) {
    && (r.Ok? <==> MayCancel(s, caller, manages, i, orgKnown))
    && (r == Err(OrderNotFound) <==> i >= |s.orders| || (s.orders[i].user != caller && !manages))
    && (r == Err(InvalidStatus) <==>
          i < |s.orders| && (s.orders[i].user == caller || manages) && s.orders[i].status in {Cancelled, Status.Expired})
    && (r.Err? ==> s' == s)
    && (r.Ok? ==> GivesBack(s, s', i) && CancelOrder(s', caller, manages, i, orgKnown) == (s', Err(InvalidStatus)))
  }

  lemma CancelMeans(s: State, caller: Id, manages: bool, i: nat, orgKnown: bool)
    requires Inv(s)
    ensures var (s', r) := CancelOrder(s, caller, manages, i, orgKnown);
            CancelAnswers(s, s', r, caller, manages, i, orgKnown)
  {
    if i < |s.orders| && s.orders[i].status.Live() {
      ReleaseNeverUnderflows(s, i, Cancel);
      assert SoundOrder(s, s.orders[i]);
      HoldingUpdate(s.orders, i, s.orders[i].(status := Cancelled), s.orders[i].ticket);
    }
  }

  // ---------- create ----------

  predicate OnList(s: State, event: Id, id: Id, claim: Claim) {
    id in s.tickets && s.tickets[id].event == event && claim.published
  }

  // Nothing before the reservation refuses it, but for the capacity and the organization.
  predicate Offered(s: State, event: Id, id: Id, quantity: int, claim: Claim) {
    OnList(s, event, id, claim) && claim.forSale && (s.tickets[id].maxPerOrder.Some? ==> quantity <= s.tickets[id].maxPerOrder.value)
  }

  predicate HasRoom(quantity: int, claim: Claim) {
    claim.roster.Some? ==> claim.roster.value.0 + quantity <= claim.roster.value.1
  }

  // The new order: the caller's own, at the type's price, held for 15 minutes unless it is free.
  predicate NewRow(o: Order, t: Ticket, user: Id, event: Id, id: Id, quantity: int, key: string, now: Time) {
    && o.user == user && o.event == event && o.ticket == id && o.quantity == quantity && o.price == t.price
    && o.key == (if key == "" then None else Some(key)) && o.session.None? && o.intent.None? && o.paidAt.None?
    && if t.price == 0 then o.status == Confirmed && o.expiresAt.None?
       else o.status == PendingPayment && o.expiresAt == Some(now + 900)
  }

  lemma CreateMeans(s: State, user: Id, event: Id, id: Id, quantity: int, key: string, claim: Claim, now: Time)
    ensures var (s', r) := CreateOrder(s, user, event, id, quantity, key, claim, now);
            var replay := key != "" && exists i :: 0 <= i < |s.orders| && s.orders[i].user == user && s.orders[i].key == Some(key);
            var offered := quantity > 0 && !replay && Offered(s, event, id, quantity, claim);
            && (r == Err(InvalidQty) <==> quantity <= 0)
            && (quantity > 0 && replay ==> r.Ok? && s' == s && r.value < |s.orders| && s.orders[r.value].user == user
                                           && s.orders[r.value].key == Some(key))
            && (r == Err(AtCapacity) <==> offered && !HasRoom(quantity, claim))
            && (r == Err(OrgUnknown) <==> offered && HasRoom(quantity, claim) && !claim.orgKnown)
            && (r == Err(TooMany) <==>
                  quantity > 0 && !replay && OnList(s, event, id, claim) && claim.forSale && !Offered(s, event, id, quantity, claim))
            && (r.Ok? && !replay <==>
                  offered && HasRoom(quantity, claim) && claim.orgKnown && s.tickets[id].active
                  && s.tickets[id].sold + quantity <= s.tickets[id].total)
            && (r == Err(SoldOut) <==>
                  || (quantity > 0 && !replay && OnList(s, event, id, claim) && !claim.forSale && claim.soldOut)
                  || (offered && HasRoom(quantity, claim) && claim.orgKnown && s.tickets[id].active
                      && s.tickets[id].sold + quantity > s.tickets[id].total))
            && (r.Err? ==> s' == s && r.error in {InvalidQty, AtCapacity, OrgUnknown, TooMany, SoldOut, TicketGone})
            && (r.Ok? && !replay ==>
                  && r.value == |s.orders| && |s'.orders| == |s.orders| + 1 && s'.orders[..|s.orders|] == s.orders
                  && NewRow(s'.orders[|s.orders|], s.tickets[id], user, event, id, quantity, key, now)
                  && s'.tickets == s.tickets[id := s.tickets[id].(sold := s.tickets[id].sold + quantity)])
  {
    var found := FindByKey(s.orders, user, key);
    assert found.Some? <==> exists i :: 0 <= i < |s.orders| && s.orders[i].user == user && s.orders[i].key == Some(key) by {
      if i :| 0 <= i < |s.orders| && s.orders[i].user == user && s.orders[i].key == Some(key) {
        assert KeyedBy(s.orders[i], user, key);
      }
    }
    hide FindByKey;
  }

  // ---------- pay and link ----------

  predicate OthersUse(orders: seq<Order>, i: nat, session: string) {
    exists j :: 0 <= j < |orders| && j != i && orders[j].session == Some(session)
  }

  // A payment goes through for an order awaiting it, under a session no other order has; a paid one says
  // so again, and anything else is refused. Nothing but the order's own row is written.
  lemma PayMeans(s: State, i: nat, session: string, intent: string, now: Time, orgKnown: bool)
    ensures var (s', r) := MarkPaid(s, i, session, intent, now, orgKnown);
            && (r == Err(OrderNotFound) <==> i >= |s.orders|)
            && (r == Err(InvalidStatus) <==> i < |s.orders| && s.orders[i].status !in {PendingPayment, Confirmed})
            && (r == Err(OrgUnknown) <==> i < |s.orders| && s.orders[i].status == PendingPayment && !orgKnown)
            && (r == Err(SessionTaken) <==>
                  i < |s.orders| && s.orders[i].status == PendingPayment && orgKnown && OthersUse(s.orders, i, session))
            && (r.Err? ==> s' == s && r.error in {OrderNotFound, InvalidStatus, OrgUnknown, SessionTaken})
            && (r.Ok? && s.orders[i].status == Confirmed ==> s' == s)
            && (r.Ok? && s.orders[i].status == PendingPayment ==>
                  && s'.tickets == s.tickets && |s'.orders| == |s.orders|
                  && (forall j :: 0 <= j < |s.orders| && j != i ==> s'.orders[j] == s.orders[j])
                  && s'.orders[i] == s.orders[i].(status := Confirmed, session := Some(session), paidAt := Some(now),
                                                  intent := if intent == "" then s.orders[i].intent else Some(intent)))
  {
    assert OthersUse(s.orders, i, session) <==> !SessionFree(s.orders, i, session);
  }

  lemma LinkMeans(s: State, i: nat, session: string)
    ensures var (s', r) := SetSession(s, i, session);
            && (r == Err(OrderNotFound) <==> i >= |s.orders|)
            && (r == Err(InvalidStatus) <==> i < |s.orders| && s.orders[i].status !in {PendingPayment, Confirmed})
            && (r == Err(SessionTaken) <==>
                  i < |s.orders| && s.orders[i].status in {PendingPayment, Confirmed} && OthersUse(s.orders, i, session))
            && (r.Err? ==> s' == s && r.error in {OrderNotFound, InvalidStatus, SessionTaken})
            && (r.Ok? ==>
                  && s'.tickets == s.tickets && |s'.orders| == |s.orders| && s'.orders[i] == s.orders[i].(session := Some(session))
                  && forall j :: 0 <= j < |s.orders| && j != i ==> s'.orders[j] == s.orders[j])
  {
    assert OthersUse(s.orders, i, session) <==> !SessionFree(s.orders, i, session);
  }

  // ---------- staff calls ----------

  // Each field of an edit changes its own column and no other, under its own bound.
  lemma EditsOneColumn(t: Ticket, total: int, price: int, max: int)
    ensures Edited(t, Update(Some(total), None, None))
              == (if total <= 0 then Err(BadTotal) else if total < t.sold then Err(HasSales) else Ok(t.(total := total)))
    ensures Edited(t, Update(None, Some(price), None)) == (if price < 0 then Err(BadPrice) else Ok(t.(price := price)))
    ensures Edited(t, Update(None, None, Some(max))) == (if max <= 0 then Err(BadTotal) else Ok(t.(maxPerOrder := Some(max))))
    ensures Edited(t, Update(None, None, None)) == Ok(t)
    ensures Edited(t, Update(Some(total), Some(price), Some(max))).Ok? <==>
              && Edited(t, Update(Some(total), None, None)).Ok? && Edited(t, Update(None, Some(price), None)).Ok?
              && Edited(t, Update(None, None, Some(max))).Ok?
    ensures Edited(t, Update(Some(total), Some(price), Some(max))).Ok? ==>
              Edited(t, Update(Some(total), Some(price), Some(max))).value == t.(total := total, price := price, maxPerOrder := Some(max))
  {
  }

  // A new type is not on sale; it can be activated once, and paused once after that, and deleted as
  // long as nothing of it is sold.
  lemma NewTypeLife(s: State, id: Id, event: Id, price: int, total: int, max: Option<int>)
    requires id !in s.tickets
    ensures var (s1, r) := CreateTicket(s, id, event, price, total, max);
            && (r.Ok? <==> price >= 0 && total > 0 && (max.Some? ==> max.value > 0)) && (r.Err? ==> s1 == s)
            && (r.Ok? ==>
                  && s1.orders == s.orders && (forall t :: t in s.tickets ==> t in s1.tickets && s1.tickets[t] == s.tickets[t])
                  && id in s1.tickets && s1.tickets[id] == Ticket(event, total, 0, false, max, price)
                  && EditTicket(s1, id, SetActive(false)) == (s1, Err(WrongStatus))
                  && DeleteTicket(s1, id) == (s, Ok(()))
                  && var s2 := EditTicket(s1, id, SetActive(true)).0;
                     && s2 == s1.(tickets := s1.tickets[id := s1.tickets[id].(active := true)])
                     && EditTicket(s2, id, SetActive(true)) == (s2, Err(WrongStatus))
                     && EditTicket(s2, id, SetActive(false)) == (s1, Ok(())))
  {
    var s1 := CreateTicket(s, id, event, price, total, max).0;
    if CreateTicket(s, id, event, price, total, max).1.Ok? {
      assert s1.tickets - {id} == s.tickets;
      var s2 := EditTicket(s1, id, SetActive(true)).0;
      assert s2.tickets[id := s1.tickets[id]] == s1.tickets;
    }
  }

  // A type with sales stays.
  lemma DeleteMeans(s: State, id: Id)
    ensures var (s', r) := DeleteTicket(s, id);
            && (r == Err(TypeUnknown) <==> id !in s.tickets) && (r == Err(HasSales) <==> id in s.tickets && s.tickets[id].sold > 0)
            && (r.Err? ==> s' == s) && (r.Ok? ==> s'.orders == s.orders && s'.tickets == s.tickets - {id})
  {
  }
}
