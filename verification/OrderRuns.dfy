// Inventory conservation over runs, and the order of a status.
module OrderRuns {
  import opened Common
  import opened Orders

  // ---------- conservation ----------

  // Units the orders hold of one ticket type.
  function Units(o: Order, ticket: Id): int {
    if o.ticket == ticket && o.status.Live() then o.quantity else 0
  }

  function Holding(orders: seq<Order>, ticket: Id): int {
    if orders == [] then 0
    else Holding(orders[..|orders| - 1], ticket) + Units(orders[|orders| - 1], ticket)
  }

  lemma {:induction false} HoldingUpdate(orders: seq<Order>, i: nat, o: Order, ticket: Id)
    requires i < |orders|
    ensures Holding(orders[i := o], ticket) == Holding(orders, ticket) - Units(orders[i], ticket) + Units(o, ticket)
  {
    var n := |orders| - 1;
    if i == n {
      assert orders[i := o][..n] == orders[..n];
    } else {
      HoldingUpdate(orders[..n], i, o, ticket);
      assert orders[i := o][..n] == orders[..n][i := o];
    }
  }

  lemma {:induction false} HoldingAtLeast(orders: seq<Order>, i: nat, ticket: Id)
    requires i < |orders| && forall j :: 0 <= j < |orders| ==> orders[j].quantity > 0
    ensures Holding(orders, ticket) >= Units(orders[i], ticket)
    ensures Holding(orders, ticket) >= 0
  {
    var n := |orders| - 1;
    if n > 0 {
      HoldingAtLeast(orders[..n], if i < n then i else 0, ticket);
    }
  }

  ghost predicate Conserved(s: State) {
    forall t :: t in s.tickets ==> s.tickets[t].sold == Holding(s.orders, t)
  }

  predicate SoundOrder(s: State, o: Order) {
    o.quantity > 0 && (o.status.Live() ==> o.ticket in s.tickets) && (o.status == PendingPayment ==> o.expiresAt.Some?)
  }

  ghost predicate Sound(s: State) {
    forall i :: 0 <= i < |s.orders| ==> SoundOrder(s, s.orders[i])
  }

  ghost predicate WithinTotals(s: State) {
    forall t :: t in s.tickets ==> s.tickets[t].sold <= s.tickets[t].total
  }

  ghost predicate UniqueKeys(s: State) {
    forall i, j :: 0 <= i < j < |s.orders| && s.orders[i].user == s.orders[j].user && s.orders[i].key.Some? ==>
      s.orders[i].key != s.orders[j].key
  }

  ghost predicate UniqueSessions(s: State) {
    forall i, j :: 0 <= i < |s.orders| && 0 <= j < |s.orders| && i != j && s.orders[i].session.Some? ==>
      s.orders[j].session != s.orders[i].session
  }

  ghost predicate Inv(s: State) {
    Conserved(s) && Sound(s) && WithinTotals(s) && UniqueKeys(s) && UniqueSessions(s)
  }

  const EMPTY := State([], map[])

  // ---------- runs of whole calls ----------

  datatype Op =
    | OpCreate(user: Id, event: Id, ticket: Id, quantity: int, key: string, claim: Claim, now: Time)
    | OpPay(order: nat, session: string, intent: string, now: Time, orgKnown: bool)
    | OpLink(order: nat, session: string)
    | OpCancel(caller: Id, manages: bool, order: nat, orgKnown: bool)
    | OpSweep(picks: seq<nat>, limit: nat, now: Time, known: Id -> bool)
    | OpNewTicket(id: Id, event: Id, price: int, total: int, max: Option<int>)
    | OpEditTicket(id: Id, change: Change)
    | OpDeleteTicket(id: Id)

  function Apply(s: State, op: Op): State {
    match op {
      case OpCreate(user, event, ticket, quantity, key, claim, now) =>
        CreateOrder(s, user, event, ticket, quantity, key, claim, now).0
      case OpPay(i, session, intent, now, orgKnown) => MarkPaid(s, i, session, intent, now, orgKnown).0
      case OpLink(i, session) => SetSession(s, i, session).0
      case OpCancel(caller, manages, i, orgKnown) => CancelOrder(s, caller, manages, i, orgKnown).0
      case OpSweep(picks, limit, now, orgKnown) =>
        if Selection(s.orders, picks, now, limit) then Sweep(s, s.orders, picks, orgKnown).0 else s
      case OpNewTicket(id, event, price, total, max) =>
        if id in s.tickets then s else CreateTicket(s, id, event, price, total, max).0   // drawn ids are new
      case OpEditTicket(id, change) => EditTicket(s, id, change).0
      case OpDeleteTicket(id) => DeleteTicket(s, id).0
    }
  }

  function Run(s: State, ops: seq<Op>): State {
    if ops == [] then s else Apply(Run(s, ops[..|ops| - 1]), ops[|ops| - 1])
  }

  // ---------- the counter ----------

  // A reservation never oversells, and releasing the same units takes it back.
  lemma ReserveMeans(tickets: map<Id, Ticket>, id: Id, n: int)
    requires ReserveTx(tickets, id, n).Ok?
    ensures var after := ReserveTx(tickets, id, n).value;
            && id in tickets && n > 0 && after.Keys == tickets.Keys && after[id].sold == tickets[id].sold + n <= after[id].total
            && (forall t :: t in tickets && t != id ==> after[t] == tickets[t])
            && (tickets[id].sold >= 0 ==> ReleaseTx(after, id, n) == Ok(tickets))
  {
    var after := ReserveTx(tickets, id, n).value;
    assert after[id := tickets[id]] == tickets;
    assert after[id].(sold := after[id].sold - n) == tickets[id];
  }

  // A release is refused exactly when it would take the counter below zero, and reserving the same
  // units again, while they can be had, takes it back.
  lemma ReleaseMeans(tickets: map<Id, Ticket>, id: Id, n: int)
    ensures ReleaseTx(tickets, id, n).Ok? <==> n > 0 && id in tickets && tickets[id].sold >= n
    ensures ReleaseTx(tickets, id, n).Ok? ==>
              var after := ReleaseTx(tickets, id, n).value;
              && after.Keys == tickets.Keys && 0 <= after[id].sold == tickets[id].sold - n
              && (forall t :: t in tickets && t != id ==> after[t] == tickets[t])
              && (tickets[id].active && tickets[id].sold <= tickets[id].total
                  && (tickets[id].maxPerOrder.None? || n <= tickets[id].maxPerOrder.value) ==>
                    ReserveTx(after, id, n) == Ok(tickets))
  {
    if ReleaseTx(tickets, id, n).Ok? {
      var after := ReleaseTx(tickets, id, n).value;
      assert after[id := tickets[id]] == tickets;
      assert after[id].(sold := after[id].sold + n) == tickets[id];
    }
  }

  // ---------- one transaction ----------

  // The identity of a claim, which no call changes.
  predicate SameClaim(a: Order, b: Order) {
    a.user == b.user && a.key == b.key && a.ticket == b.ticket && a.quantity == b.quantity && a.event == b.event
      && a.expiresAt == b.expiresAt
  }

  // A commit from a live copy moves the counter by what its own write changes.
  lemma CommitEffect(s: State, i: nat, copy: Order, what: Intent, t: Id)
    requires i < |s.orders| && copy.status.Live() && copy.quantity > 0
    requires Commit(s, i, copy, what).1.Ok? && t in s.tickets
    ensures var s' := Commit(s, i, copy, what).0;
            && s'.tickets.Keys == s.tickets.Keys
            && s'.tickets[t] == s.tickets[t].(sold := s'.tickets[t].sold)
            && s'.tickets[t].sold == s.tickets[t].sold - Units(copy, t) + Units(Written(copy, what), t)
            && Holding(s'.orders, t) == Holding(s.orders, t) - Units(s.orders[i], t) + Units(Written(copy, what), t)
  {
    HoldingUpdate(s.orders, i, Written(copy, what), t);
  }

  // What a loaded copy brings along: it held units when it was loaded.
  predicate SoundCopy(copy: Order) {
    copy.status.Live() && copy.quantity > 0 && (copy.status == PendingPayment ==> copy.expiresAt.Some?)
  }

  lemma WrittenKeepsClaim(s: State, i: nat, copy: Order, what: Intent)
    requires Inv(s) && i < |s.orders| && SameClaim(copy, s.orders[i]) && SoundCopy(copy)
    ensures var s' := Commit(s, i, copy, what).0;
            (copy.ticket in s.tickets ==> Sound(s')) && WithinTotals(s') && UniqueKeys(s') && UniqueSessions(s')
  {
    var (s', r) := Commit(s, i, copy, what);
    if r.Ok? && copy.ticket in s.tickets {
      forall j | 0 <= j < |s'.orders| ensures SoundOrder(s', s'.orders[j]) {
        assert SoundOrder(s, s.orders[j]);
      }
    }
  }

  // The exact condition: a commit on a copy loaded earlier keeps the counters right if and only
  // if the row still holds its units at the commit (or the store refuses the release).
  lemma CommitConservesIff(s: State, i: nat, copy: Order, what: Intent)
    requires Inv(s) && i < |s.orders| && SameClaim(copy, s.orders[i]) && SoundCopy(copy)
    ensures var (s', r) := Commit(s, i, copy, what);
            Inv(s') <==> s.orders[i].status.Live() || r.Err?
  {
    var (s', r) := Commit(s, i, copy, what);
    assert SoundOrder(s, s.orders[i]);
    WrittenKeepsClaim(s, i, copy, what);
    if r.Ok? && copy.ticket !in s.tickets {
      assert !SoundOrder(s', s'.orders[i]);
    } else if r.Ok? {
      forall t | t in s.tickets
        ensures s'.tickets[t].sold - Holding(s'.orders, t)
             == s.tickets[t].sold - Holding(s.orders, t) + Units(s.orders[i], t) - Units(copy, t)
      {
        CommitEffect(s, i, copy, what, t);
      }
      assert copy.ticket in s'.tickets by {
        CommitEffect(s, i, copy, what, copy.ticket);
      }
    }
  }

  // On the row as it is, a release cannot underflow.
  lemma ReleaseNeverUnderflows(s: State, i: nat, what: Intent)
    requires Inv(s) && i < |s.orders| && s.orders[i].status.Live() && (what.Cancel? || what.Expire?)
    ensures Commit(s, i, s.orders[i], what).1.Ok?
  {
    assert SoundOrder(s, s.orders[i]);
    assert forall j :: 0 <= j < |s.orders| ==> SoundOrder(s, s.orders[j]);
    HoldingAtLeast(s.orders, i, s.orders[i].ticket);
  }

  // ---------- whole calls ----------

  lemma CreateKeeps(s: State, user: Id, event: Id, id: Id, quantity: int, key: string, claim: Claim, now: Time)
    requires Inv(s)
    ensures Inv(CreateOrder(s, user, event, id, quantity, key, claim, now).0)
  {
    hide Inv, Place;
    if quantity > 0 && id in s.tickets {
      PlaceKeeps(s, NewOrder(user, event, id, s.tickets[id], quantity, key, now));
    }
  }

  // A claim that is not yet in the rows: held or confirmed, and not linked to a session.
  predicate Claimable(row: Order) {
    row.quantity > 0 && row.session.None? && (row.status == Confirmed || (row.status == PendingPayment && row.expiresAt.Some?))
  }

  // A claim's transaction keeps conservation whenever it comes.
  lemma PlaceKeeps(s: State, row: Order)
    requires Inv(s) && Claimable(row)
    ensures Inv(Place(s, row).0)
  {
    var s' := Place(s, row).0;
    if s' != s {
      var n := |s.orders|;
      assert s'.orders[..n] == s.orders;
      forall t | t in s'.tickets ensures s'.tickets[t].sold == Holding(s'.orders, t) {
      }
      forall j | 0 <= j < |s'.orders| ensures SoundOrder(s', s'.orders[j]) {
        assert j < n ==> SoundOrder(s, s.orders[j]);
      }
      assert row.key.Some? ==> forall i :: 0 <= i < n ==> !KeyedBy(s.orders[i], row.user, row.key.value);
    }
  }

  // Everything a partial sweep has done: the swept picks are EXPIRED, nothing else moved.
  ghost predicate SweptTo(s: State, s': State, picks: seq<nat>, orgKnown: Id -> bool) {
    && |s'.orders| == |s.orders|
    && s'.tickets.Keys == s.tickets.Keys
    && (forall i :: 0 <= i < |s.orders| ==>
          s'.orders[i] == if i in picks && orgKnown(s.orders[i].event) then s.orders[i].(status := Expired) else s.orders[i])
  }

  // A sweep of distinct overdue orders fails only where the organization is unknown.
  lemma {:induction false} SweepExact(s: State, picks: seq<nat>, orgKnown: Id -> bool)
    requires Inv(s)
    requires forall k :: 0 <= k < |picks| ==> picks[k] < |s.orders| && s.orders[picks[k]].status.Held()
    requires forall j, k :: 0 <= j < k < |picks| ==> picks[j] != picks[k]
    ensures var (s', done) := Sweep(s, s.orders, picks, orgKnown);
            && Inv(s') && SweptTo(s, s', picks, orgKnown)
            && done <= |picks|
            && ((forall k :: 0 <= k < |picks| ==> orgKnown(s.orders[picks[k]].event)) ==> done == |picks|)
  {
    hide Inv, Commit;
    if picks != [] {
      var n := |picks| - 1;
      SweepExact(s, picks[..n], orgKnown);
      var s1 := Sweep(s, s.orders, picks[..n], orgKnown).0;
      var i := picks[n];
      assert i !in picks[..n];
      assert s1.orders[i] == s.orders[i];
      assert picks == picks[..n] + [i];
      if orgKnown(s.orders[i].event) {
        ExpireKeeps(s1, i);
      }
    }
  }

  lemma ExpireKeeps(s: State, i: nat)
    requires Inv(s) && i < |s.orders| && s.orders[i].status.Held()
    ensures var (s', r) := Commit(s, i, s.orders[i], Expire);
            && r.Ok? && Inv(s') && s'.tickets.Keys == s.tickets.Keys
            && s'.orders == s.orders[i := s.orders[i].(status := Expired)]
  {
    ReleaseNeverUnderflows(s, i, Expire);
    assert SoundOrder(s, s.orders[i]);
    CommitConservesIff(s, i, s.orders[i], Expire);
  }

  lemma {:induction false} ApplyKeeps(s: State, op: Op)
    requires Inv(s)
    ensures Inv(Apply(s, op))
  {
    match op {
      case OpCreate(user, event, ticket, quantity, key, claim, now) =>
        CreateKeeps(s, user, event, ticket, quantity, key, claim, now);
      case OpPay(i, session, intent, now, _) =>
        if i < |s.orders| && s.orders[i].status == PendingPayment {
          CommitConservesIff(s, i, s.orders[i], Pay(session, intent, now));
        }
      case OpLink(i, session) =>
        if i < |s.orders| && s.orders[i].status.Live() {
          CommitConservesIff(s, i, s.orders[i], Link(session));
        }
      case OpCancel(_, _, i, _) =>
        if i < |s.orders| && s.orders[i].status.Live() {
          CommitConservesIff(s, i, s.orders[i], Cancel);
        }
      case OpSweep(picks, limit, now, orgKnown) =>
        if Selection(s.orders, picks, now, limit) {
          SweepExact(s, picks, orgKnown);
        }
      case OpNewTicket(id, event, price, total, max) =>
        if Apply(s, op) != s {
          SaveConservesIff(s, id, Apply(s, op).tickets[id]);
        }
      case OpEditTicket(id, change) =>
        if Apply(s, op) != s {
          SaveConservesIff(s, id, Apply(s, op).tickets[id]);
        }
      case OpDeleteTicket(id) =>
        if id in s.tickets {
          NeverNegative(s, id);
          DropConservesIff(s, id);
        }
    }
  }

  // ---------- the ticket rows ----------

  function SoldOf(s: State, id: Id): int {
    if id in s.tickets then s.tickets[id].sold else 0
  }

  lemma {:induction false} NobodyHolds(orders: seq<Order>, id: Id)
    requires forall i :: 0 <= i < |orders| ==> Units(orders[i], id) == 0
    ensures Holding(orders, id) == 0
  {
    if orders != [] {
      NobodyHolds(orders[..|orders| - 1], id);
    }
  }

  lemma SoldIsHeld(s: State, id: Id)
    requires Inv(s)
    ensures SoldOf(s, id) == Holding(s.orders, id)
  {
    if id !in s.tickets {
      forall i | 0 <= i < |s.orders| ensures Units(s.orders[i], id) == 0 {
        assert SoundOrder(s, s.orders[i]);
      }
      NobodyHolds(s.orders, id);
    }
  }

  lemma NeverNegative(s: State, id: Id)
    requires Inv(s)
    ensures SoldOf(s, id) >= 0
  {
    SoldIsHeld(s, id);
    if s.orders != [] {
      assert forall k :: 0 <= k < |s.orders| ==> SoundOrder(s, s.orders[k]);
      HoldingAtLeast(s.orders, 0, id);
    }
  }

  // The exact condition: saving a row loaded earlier conserves if and only if its counter is still
  // the type's (none when the type has been deleted).
  lemma SaveConservesIff(s: State, id: Id, row: Ticket)
    requires Inv(s) && row.sold <= row.total
    ensures Inv(SaveTicket(s, id, row)) <==> row.sold == SoldOf(s, id)
  {
    var s' := SaveTicket(s, id, row);
    SoldIsHeld(s, id);
    assert s'.tickets[id] == row;
    forall j | 0 <= j < |s'.orders| ensures SoundOrder(s', s'.orders[j]) {
      assert SoundOrder(s, s.orders[j]);
    }
  }

  // A type may go if and only if nothing of it is sold at that moment.
  lemma DropConservesIff(s: State, id: Id)
    requires Inv(s) && id in s.tickets
    ensures Inv(DropTicket(s, id)) <==> s.tickets[id].sold == 0
  {
    var s' := DropTicket(s, id);
    SoldIsHeld(s, id);
    if s.tickets[id].sold == 0 {
      forall j | 0 <= j < |s'.orders| ensures SoundOrder(s', s'.orders[j]) {
        assert forall k :: 0 <= k < |s.orders| ==> SoundOrder(s, s.orders[k]);
        HoldingAtLeast(s.orders, j, id);
      }
    } else {
      assert exists j :: 0 <= j < |s.orders| && Units(s.orders[j], id) != 0 by {
        if forall j :: 0 <= j < |s.orders| ==> Units(s.orders[j], id) == 0 {
          NobodyHolds(s.orders, id);
        }
      }
      var j :| 0 <= j < |s.orders| && Units(s.orders[j], id) != 0;
      assert !SoundOrder(s', s'.orders[j]);
    }
  }

  lemma {:induction false} EveryRunConserves(ops: seq<Op>)
    ensures Inv(Run(EMPTY, ops))
  {
    if ops != [] {
      EveryRunConserves(ops[..|ops| - 1]);
      ApplyKeeps(Run(EMPTY, ops[..|ops| - 1]), ops[|ops| - 1]);
    }
  }

  // ---------- rank ----------

  function Rank(status: Status): nat {
    if status.Held() then 2 else if status == Confirmed then 1 else 0
  }

  // Orders are only appended, and a status change strictly lowers the rank.
  lemma ApplyRank(s: State, op: Op, i: nat)
    requires Inv(s) && i < |s.orders|
    ensures var s' := Apply(s, op);
            && i < |s'.orders| && SameClaim(s.orders[i], s'.orders[i])
            && (s'.orders[i].status == s.orders[i].status || Rank(s'.orders[i].status) < Rank(s.orders[i].status))
  {
    hide Inv;
    if op.OpSweep? && Selection(s.orders, op.picks, op.now, op.limit) {
      SweepExact(s, op.picks, op.known);
    }
  }

  // How often order i changed status along a run.
  function Changes(ops: seq<Op>, i: nat): nat {
    if ops == [] then 0
    else
      var n := |ops| - 1;
      var s, s' := Run(EMPTY, ops[..n]), Run(EMPTY, ops);
      Changes(ops[..n], i) +
        if i < |s.orders| && i < |s'.orders| && s'.orders[i].status != s.orders[i].status then 1 else 0
  }

  lemma {:induction false} AtMostTwoChanges(ops: seq<Op>, i: nat)
    ensures Changes(ops, i) <= 2
    ensures var s := Run(EMPTY, ops);
            if i < |s.orders| then Changes(ops, i) + Rank(s.orders[i].status) <= 2 else Changes(ops, i) == 0
  {
    if ops != [] {
      var n := |ops| - 1;
      AtMostTwoChanges(ops[..n], i);
      EveryRunConserves(ops[..n]);
      var s := Run(EMPTY, ops[..n]);
      if i < |s.orders| {
        ApplyRank(s, ops[n], i);
      }
    }
  }

  // A new priced order may be swept from exactly HOLD_TTL after its claim; a free one never.
  lemma HoldLasts(s: State, user: Id, event: Id, id: Id, quantity: int, key: string, claim: Claim, now: Time, t: Time)
    requires CreateOrder(s, user, event, id, quantity, key, claim, now).1 == Ok(|s.orders|)
    ensures var s' := CreateOrder(s, user, event, id, quantity, key, claim, now).0;
            && |s'.orders| == |s.orders| + 1 && id in s.tickets
            && s'.tickets == s.tickets[id := s.tickets[id].(sold := s.tickets[id].sold + quantity)]
            && (Overdue(s'.orders[|s.orders|], t) <==> s.tickets[id].price != 0 && t >= now + HOLD_TTL)
            && (s'.orders[|s.orders|].status == Confirmed <==> s.tickets[id].price == 0)
  {
  }

  // A redelivered payment, whatever it carries, succeeds and changes nothing.
  lemma PaidOnce(s: State, i: nat, session: string, intent: string, now: Time, known: bool,
                 session': string, intent': string, now': Time, known': bool)
    requires MarkPaid(s, i, session, intent, now, known).1.Ok?
    ensures var s' := MarkPaid(s, i, session, intent, now, known).0;
            && i < |s'.orders| && s'.orders[i].status == Confirmed && s'.tickets == s.tickets
            && MarkPaid(s', i, session', intent', now', known') == (s', Ok(()))
            && (s.orders[i].status == PendingPayment ==>
                  s'.orders[i].session == Some(session) && s'.orders[i].paidAt == Some(now))
  {
    assert MarkPaid(s, i, session, intent, now, known).0.orders[i].status == Confirmed;
  }

  // A replayed idempotency key returns the original order and changes nothing.
  lemma ReplayReturnsOriginal(s: State, user: Id, event: Id, id: Id, quantity: int, key: string, claim: Claim, now: Time,
                              event': Id, id': Id, quantity': int, claim': Claim, now': Time)
    requires Inv(s) && key != "" && quantity' > 0
    requires CreateOrder(s, user, event, id, quantity, key, claim, now).1.Ok?
    ensures var (s', r) := CreateOrder(s, user, event, id, quantity, key, claim, now);
            CreateOrder(s', user, event', id', quantity', key, claim', now') == (s', r)
  {
    var (s', r) := CreateOrder(s, user, event, id, quantity, key, claim, now);
    CreateKeeps(s, user, event, id, quantity, key, claim, now);
    assert KeyedBy(s'.orders[r.value], user, key);
    var found := FindByKey(s'.orders, user, key).value;
    assert found == r.value;
  }
}
