// Minting door records for an order's units, skipping the units that already have one.
module DoorMint {
  import opened Common
  import opened Door
  import opened Payload

  datatype Minted = Minted(id: Id, rawToken: string)

  predicate UnitExists(s: State, order: Id, unit: nat) {
    exists a :: a in s.attendees && s.attendees[a].order == Some(order) && s.attendees[a].unit == unit
  }

  function Ticket(cfg: Config, order: Id, unit: nat, user: Id, event: Id, rawToken: string): Attendee {
    Attendee(Some(order), unit, event, Some(user), cfg.prims.hash(rawToken), Registered, None)
  }

  // Row ids and tokens are drawn at random: nothing uses them yet and no two are the same.
  ghost predicate FreshDraws(s: State, drawn: seq<Minted>) {
    && (forall u :: 0 <= u < |drawn| ==> drawn[u].id !in s.attendees)
    && (forall u, v :: 0 <= u < v < |drawn| ==> drawn[u].id != drawn[v].id)
  }

  // State and returned tokens after the first n units.
  function Mint(cfg: Config, s: State, order: Id, user: Id, event: Id, n: nat, drawn: seq<Minted>)
    : (State, seq<Minted>)
    requires n <= |drawn|
  {
    if n == 0 then (s, [])
    else
      var (s1, out) := Mint(cfg, s, order, user, event, n - 1, drawn);
      if UnitExists(s1, order, n - 1) then (s1, out)
      else
        var m := drawn[n - 1];
        (s1.(attendees := s1.attendees[m.id := Ticket(cfg, order, n - 1, user, event, m.rawToken)]), out + [m])
  }

  // The draws spent: one for every missing unit, in unit order.
  function Spent(s: State, order: Id, n: nat, drawn: seq<Minted>): seq<Minted>
    requires n <= |drawn|
  {
    if n == 0 then []
    else Spent(s, order, n - 1, drawn) + if UnitExists(s, order, n - 1) then [] else [drawn[n - 1]]
  }

  // s' is s with a row for every unit below n that had none, each made from its own draw.
  ghost predicate Filled(cfg: Config, s: State, s': State, order: Id, user: Id, event: Id, n: nat, drawn: seq<Minted>)
    requires n <= |drawn|
  {
    && s' == s.(attendees := s'.attendees)
    && (forall a :: a in s.attendees ==> a in s'.attendees && s'.attendees[a] == s.attendees[a])
    && (forall a :: a in s'.attendees && a !in s.attendees ==> FromDraw(s, order, n, drawn, a))
    && (forall u :: 0 <= u < n && !UnitExists(s, order, u) ==>
          drawn[u].id in s'.attendees &&
          s'.attendees[drawn[u].id] == Ticket(cfg, order, u, user, event, drawn[u].rawToken))
  }

  ghost predicate FromDraw(s: State, order: Id, n: nat, drawn: seq<Minted>, a: Id)
    requires n <= |drawn|
  {
    exists u :: 0 <= u < n && !UnitExists(s, order, u) && a == drawn[u].id
  }

  // Filling adds exactly the missing units.
  lemma FilledUnits(cfg: Config, s: State, s': State, order: Id, user: Id, event: Id, n: nat, drawn: seq<Minted>, unit: nat)
    requires n <= |drawn| && Filled(cfg, s, s', order, user, event, n, drawn)
    ensures UnitExists(s', order, unit) <==> unit < n || UnitExists(s, order, unit)
  {
    if UnitExists(s, order, unit) {
      var a :| a in s.attendees && s.attendees[a].order == Some(order) && s.attendees[a].unit == unit;
      assert a in s'.attendees && s'.attendees[a] == s.attendees[a];
    } else if unit < n {
      assert s'.attendees[drawn[unit].id].unit == unit;
    }
  }

  // Whatever units existed before: the old rows are untouched, exactly the missing units below n
  // get a row, and the returned tokens are those of the new rows.
  lemma {:induction false} MintFills(cfg: Config, s: State, order: Id, user: Id, event: Id, n: nat, drawn: seq<Minted>)
    requires n <= |drawn| && FreshDraws(s, drawn)
    ensures var (s', out) := Mint(cfg, s, order, user, event, n, drawn);
            Filled(cfg, s, s', order, user, event, n, drawn) && out == Spent(s, order, n, drawn)
  {
    if n > 0 {
      MintFills(cfg, s, order, user, event, n - 1, drawn);
      var s1 := Mint(cfg, s, order, user, event, n - 1, drawn).0;
      FilledUnits(cfg, s, s1, order, user, event, n - 1, drawn, n - 1);
      if UnitExists(s1, order, n - 1) {
        forall a | a in s1.attendees && a !in s.attendees ensures FromDraw(s, order, n, drawn, a) {
          var u :| 0 <= u < n - 1 && !UnitExists(s, order, u) && a == drawn[u].id;
        }
      } else {
        MintOne(cfg, s, s1, order, user, event, n, drawn);
      }
    }
  }

  lemma MintOne(cfg: Config, s: State, s1: State, order: Id, user: Id, event: Id, n: nat, drawn: seq<Minted>)
    requires 0 < n <= |drawn| && FreshDraws(s, drawn)
    requires Filled(cfg, s, s1, order, user, event, n - 1, drawn) && !UnitExists(s, order, n - 1)
    ensures var m := drawn[n - 1];
            var s' := s1.(attendees := s1.attendees[m.id := Ticket(cfg, order, n - 1, user, event, m.rawToken)]);
            Filled(cfg, s, s', order, user, event, n, drawn)
  {
    var m := drawn[n - 1];
    var s' := s1.(attendees := s1.attendees[m.id := Ticket(cfg, order, n - 1, user, event, m.rawToken)]);
    forall a | a in s'.attendees && a !in s.attendees ensures FromDraw(s, order, n, drawn, a) {
      if a != m.id {
        assert FromDraw(s, order, n - 1, drawn, a);
        var u :| 0 <= u < n - 1 && !UnitExists(s, order, u) && a == drawn[u].id;
      }
    }
  }

  // Webhook redelivery: minting the same order again, with any other draws, changes nothing.
  lemma {:induction false} RemintIsNoop(cfg: Config, s: State, order: Id, user: Id, event: Id, n: nat,
                                        drawn: seq<Minted>, again: seq<Minted>)
    requires n <= |drawn| && n <= |again| && FreshDraws(s, drawn)
    ensures var s' := Mint(cfg, s, order, user, event, n, drawn).0;
            Mint(cfg, s', order, user, event, n, again) == (s', [])
  {
    MintFills(cfg, s, order, user, event, n, drawn);
    var s' := Mint(cfg, s, order, user, event, n, drawn).0;
    forall u | 0 <= u < n ensures UnitExists(s', order, u) {
      FilledUnits(cfg, s, s', order, user, event, n, drawn, u);
    }
    MintWhenFull(cfg, s', order, user, event, n, again);
  }

  lemma {:induction false} MintWhenFull(cfg: Config, s: State, order: Id, user: Id, event: Id, n: nat, drawn: seq<Minted>)
    requires n <= |drawn| && forall u :: 0 <= u < n ==> UnitExists(s, order, u)
    ensures Mint(cfg, s, order, user, event, n, drawn) == (s, [])
  {
    if n > 0 {
      MintWhenFull(cfg, s, order, user, event, n - 1, drawn);
    }
  }
}
