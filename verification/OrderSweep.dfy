// How many sweeps drain the overdue holds, and what they leave behind.
module OrderSweep {
  import opened Common
  import opened Orders
  import opened OrderRuns

  // One SweepExpired call: the instant it queried, and the rows the limited query happened to pick.
  datatype Pass = Pass(picks: seq<nat>, now: Time)

  function After(s: State, passes: seq<Pass>, batch: int, known: Id -> bool): State {
    if passes == [] then s
    else
      var n := |passes| - 1;
      Apply(After(s, passes[..n], batch, known), OpSweep(passes[n].picks, EffectiveBatch(batch), passes[n].now, known))
  }

  // Each pass picked what the query may return in the state it found.
  predicate Picked(s: State, passes: seq<Pass>, batch: int, known: Id -> bool) {
    passes == [] ||
    var n := |passes| - 1;
    Picked(s, passes[..n], batch, known)
      && Selection(After(s, passes[..n], batch, known).orders, passes[n].picks, passes[n].now, EffectiveBatch(batch))
  }

  // No hold falls due between the two instants.
  ghost predicate Quiet(orders: seq<Order>, first: Time, last: Time) {
    forall i :: 0 <= i < |orders| && Overdue(orders[i], last) ==> Overdue(orders[i], first)
  }

  predicate Within(passes: seq<Pass>, first: Time, last: Time) {
    forall k :: 0 <= k < |passes| ==> first <= passes[k].now <= last
  }

  predicate AllKnown(orders: seq<Order>, known: Id -> bool) {
    forall i :: 0 <= i < |orders| ==> known(orders[i].event)
  }

  // What draining amounts to, whichever rows each pass picked.
  function Expired(orders: seq<Order>, now: Time): (r: seq<Order>)
    ensures |r| == |orders|
    ensures forall i :: 0 <= i < |r| ==>
      r[i] == if Overdue(orders[i], now) then orders[i].(status := Status.Expired) else orders[i]
  {
    if orders == [] then []
    else
      var o := orders[|orders| - 1];
      Expired(orders[..|orders| - 1], now) + [if Overdue(o, now) then o.(status := Status.Expired) else o]
  }

  // Units the overdue orders hold of one ticket type.
  function DueUnits(orders: seq<Order>, now: Time, ticket: Id): int {
    if orders == [] then 0
    else
      var o := orders[|orders| - 1];
      DueUnits(orders[..|orders| - 1], now, ticket) + if Overdue(o, now) && o.ticket == ticket then o.quantity else 0
  }

  lemma {:induction false} ExpiredHolds(orders: seq<Order>, now: Time, ticket: Id)
    ensures Holding(Expired(orders, now), ticket) == Holding(orders, ticket) - DueUnits(orders, now, ticket)
  {
    if orders != [] {
      var n := |orders| - 1;
      ExpiredHolds(orders[..n], now, ticket);
      assert Expired(orders, now)[..n] == Expired(orders[..n], now);
    }
  }

  predicate Distinct(picks: seq<nat>) {
    forall j, k :: 0 <= j < k < |picks| ==> picks[j] != picks[k]
  }

  function Members(picks: seq<nat>): set<nat> {
    set x | x in picks
  }

  lemma {:induction false} DistinctCount(picks: seq<nat>)
    requires Distinct(picks)
    ensures |Members(picks)| == |picks|
  {
    if picks != [] {
      var n := |picks| - 1;
      DistinctCount(picks[..n]);
      assert picks == picks[..n] + [picks[n]];
      assert Members(picks) == Members(picks[..n]) + {picks[n]};
      CardAdd(Members(picks[..n]), picks[n]);
    }
  }

  // Every order is as it was, or was overdue and is EXPIRED.
  ghost predicate PartlyExpired(orders: seq<Order>, orders': seq<Order>, now: Time) {
    && |orders'| == |orders|
    && forall i :: 0 <= i < |orders| ==>
         orders'[i] == orders[i] || (Overdue(orders[i], now) && orders'[i] == orders[i].(status := Status.Expired))
  }

  // What a pass did to the rows: its picks, all overdue, are EXPIRED and nothing else moved.
  ghost predicate PicksExpired(orders: seq<Order>, orders': seq<Order>, picks: seq<nat>) {
    && |orders'| == |orders|
    && forall i :: 0 <= i < |orders| ==>
         orders'[i] == if i in picks then orders[i].(status := Status.Expired) else orders[i]
  }

  lemma OverdueDrops(orders: seq<Order>, orders': seq<Order>, picks: seq<nat>, now: Time)
    requires PicksExpired(orders, orders', picks) && Distinct(picks)
    requires forall k :: 0 <= k < |picks| ==> picks[k] in OverdueSet(orders, now)
    ensures |OverdueSet(orders', now)| == |OverdueSet(orders, now)| - |picks|
    ensures PartlyExpired(orders, orders', now)
  {
    var due, due' := OverdueSet(orders, now), OverdueSet(orders', now);
    var swept := Members(picks);
    DistinctCount(picks);
    assert due' == due - swept;
    assert due == due' + swept;
  }

  lemma SameInstant(orders: seq<Order>, first: Time, now: Time, last: Time)
    requires Quiet(orders, first, last) && first <= now <= last
    ensures OverdueSet(orders, now) == OverdueSet(orders, first)
  {
  }

  // A pass whose organizations resolve expires exactly its picks, and its counter says so.
  lemma PassIsExact(s: State, picks: seq<nat>, now: Time, limit: nat, known: Id -> bool)
    requires Inv(s) && AllKnown(s.orders, known) && Selection(s.orders, picks, now, limit)
    ensures var (s', done) := Sweep(s, s.orders, picks, known);
            && Inv(s') && PicksExpired(s.orders, s'.orders, picks) && s'.tickets.Keys == s.tickets.Keys
            && done == |picks|
  {
    SweepExact(s, picks, known);
  }

  // The state a drain may start from, and what every pass of it keeps.
  ghost predicate Draining(s: State, known: Id -> bool, first: Time, last: Time) {
    Inv(s) && AllKnown(s.orders, known) && Quiet(s.orders, first, last)
  }

  // One pass expires as many overdue orders as its limit allows.
  lemma PassDrains(s: State, pass: Pass, first: Time, last: Time, limit: nat, known: Id -> bool)
    requires Draining(s, known, first, last) && first <= pass.now <= last
    requires Selection(s.orders, pass.picks, pass.now, limit)
    ensures var s', n := Sweep(s, s.orders, pass.picks, known).0, |OverdueSet(s.orders, first)|;
            && Draining(s', known, first, last)
            && PartlyExpired(s.orders, s'.orders, first) && s'.tickets.Keys == s.tickets.Keys
            && |OverdueSet(s'.orders, first)| == n - Min(n, limit)
  {
    PassIsExact(s, pass.picks, pass.now, limit, known);
    var s' := Sweep(s, s.orders, pass.picks, known).0;
    SameInstant(s.orders, first, pass.now, last);
    OverdueDrops(s.orders, s'.orders, pass.picks, first);
    StillQuiet(s.orders, s'.orders, known, first, last);
  }

  lemma StillQuiet(orders: seq<Order>, orders': seq<Order>, known: Id -> bool, first: Time, last: Time)
    requires AllKnown(orders, known) && Quiet(orders, first, last) && PartlyExpired(orders, orders', first)
    ensures AllKnown(orders', known) && Quiet(orders', first, last)
  {
    forall i | 0 <= i < |orders'| ensures known(orders'[i].event) && (Overdue(orders'[i], last) ==> Overdue(orders'[i], first)) {
      assert known(orders[i].event);
      assert Overdue(orders[i], last) ==> Overdue(orders[i], first);
    }
  }

  lemma PartlyTwice(a: seq<Order>, b: seq<Order>, c: seq<Order>, now: Time)
    requires PartlyExpired(a, b, now) && PartlyExpired(b, c, now)
    ensures PartlyExpired(a, c, now)
  {
  }

  // k passes of effective batch b leave exactly n - min(n, k*b) of the n overdue orders.
  lemma {:induction false} PassesDrain(s: State, passes: seq<Pass>, batch: int, known: Id -> bool, first: Time, last: Time)
    requires Draining(s, known, first, last) && Within(passes, first, last) && Picked(s, passes, batch, known)
    ensures var s', n := After(s, passes, batch, known), |OverdueSet(s.orders, first)|;
            && Draining(s', known, first, last)
            && PartlyExpired(s.orders, s'.orders, first) && s'.tickets.Keys == s.tickets.Keys
            && |OverdueSet(s'.orders, first)| == n - Min(n, |passes| * EffectiveBatch(batch))
  {
    if passes != [] {
      var k, b := |passes| - 1, EffectiveBatch(batch);
      PassesDrain(s, passes[..k], batch, known, first, last);
      var s1 := After(s, passes[..k], batch, known);
      var pass := passes[k];
      PassDrains(s1, pass, first, last, b, known);
      assert After(s, passes, batch, known) == Sweep(s1, s1.orders, pass.picks, known).0;
      PartlyTwice(s.orders, s1.orders, After(s, passes, batch, known).orders, first);
      assert |passes| * b == k * b + b;
    }
  }

  // Fully drained means every overdue order is EXPIRED.
  lemma DrainedRows(orders: seq<Order>, orders': seq<Order>, now: Time)
    requires PartlyExpired(orders, orders', now)
    ensures OverdueSet(orders', now) == {} <==> orders' == Expired(orders, now)
  {
    var due' := OverdueSet(orders', now);
    if due' == {} {
      forall i | 0 <= i < |orders| ensures orders'[i] == Expired(orders, now)[i] {
        assert i !in due';
      }
    } else {
      var i :| i in due';
      assert orders'[i] != Expired(orders, now)[i];
    }
  }

  // ceil(n / b) passes drain the overdue holds and no fewer do; the orders that result and the
  // units given back do not depend on which rows any pass picked.
  lemma DrainedIff(s: State, passes: seq<Pass>, batch: int, known: Id -> bool, first: Time, last: Time)
    requires Draining(s, known, first, last) && Within(passes, first, last) && Picked(s, passes, batch, known)
    ensures var s', n := After(s, passes, batch, known), |OverdueSet(s.orders, first)|;
            && (|passes| * EffectiveBatch(batch) >= n <==> OverdueSet(s'.orders, first) == {})
            && (|passes| * EffectiveBatch(batch) >= n <==> s'.orders == Expired(s.orders, first))
            && (|passes| * EffectiveBatch(batch) >= n ==>
                  forall t :: t in s.tickets ==>
                    t in s'.tickets && s'.tickets[t].sold == s.tickets[t].sold - DueUnits(s.orders, first, t))
  {
    PassesDrain(s, passes, batch, known, first, last);
    var s' := After(s, passes, batch, known);
    DrainedRows(s.orders, s'.orders, first);
    if s'.orders == Expired(s.orders, first) {
      forall t | t in s.tickets ensures s'.tickets[t].sold == s.tickets[t].sold - DueUnits(s.orders, first, t) {
        ExpiredHolds(s.orders, first, t);
      }
    }
  }
}
