// Every event mutation but a deletion loads its row and later saves the whole of it. What happens
// when such calls overlap.
module EventRace {
  import opened Common
  import opened EventCache
  import opened EventService

  // A mutation between its load and its transaction.
  datatype Call = Call(id: Id, copy: Event, op: Op, now: Time)

  datatype Racing = Racing(events: Table, calls: map<Id, Call>)

  datatype Act =
    | Create(id: Id, row: Event)
    | Begin(call: Id, org: Id, id: Id, op: Op, now: Time)
    | Finish(call: Id)

  // A gallery upload leaves the row alone when it already has a cover.
  predicate Saves(c: Call) {
    Changed(c.copy, c.op, c.now).Ok? && !c.op.Delete? && Purges(c.copy, c.op)
  }

  // The transaction: the copy, changed, replaces the row; one deleted meanwhile is inserted again. A
  // deletion stamps the row itself.
  function Commit(events: Table, c: Call): Table {
    if c.id !in events then events
    else if c.op.Delete? then events[c.id := events[c.id].(deleted := true)]
    else if !Saves(c) then events
    else
      var row := Changed(c.copy, c.op, c.now).value;
      if SlugFree(events, row.org, row.slug, c.id) then events[c.id := row] else events
  }

  predicate Loads(events: Table, org: Id, id: Id, op: Op, now: Time) {
    Refusal(op).None? && Find(events, org, id).Some? && Changed(events[id], op, now).Ok?
  }

  function Added(events: Table, id: Id, row: Event): Table {
    if id in events || row.status != Draft || row.deleted || !SlugFree(events, row.org, row.slug, id) then events
    else events[id := row]
  }

  function Move(r: Racing, act: Act): Racing {
    match act {
      case Create(id, row) => r.(events := Added(r.events, id, row))
      case Begin(call, org, id, op, now) =>
        if call !in r.calls && Loads(r.events, org, id, op, now)
        then r.(calls := r.calls[call := Call(id, r.events[id], op, now)]) else r
      case Finish(call) =>
        if call in r.calls then Racing(Commit(r.events, r.calls[call]), r.calls - {call}) else r
    }
  }

  function Race(acts: seq<Act>): Racing {
    if acts == [] then Racing(map[], map[]) else Move(Race(acts[..|acts| - 1]), acts[|acts| - 1])
  }

  // ---------- cancelled and deleted for good ----------

  predicate IsCancelled(events: Table, id: Id) {
    id in events && events[id].status == Cancelled
  }

  predicate IsDeleted(events: Table, id: Id) {
    id in events && events[id].deleted
  }

  ghost predicate StayFinal(events: Table, events': Table) {
    forall id :: (IsCancelled(events, id) ==> IsCancelled(events', id)) && (IsDeleted(events, id) ==> IsDeleted(events', id))
  }

  // The save goes through: its row's slug is free.
  predicate Lands(events: Table, c: Call) {
    c.id in events && Saves(c)
      && SlugFree(events, Changed(c.copy, c.op, c.now).value.org, Changed(c.copy, c.op, c.now).value.slug, c.id)
  }

  // A save that goes through finds its row not deleted; onto a CANCELLED row it comes from a copy
  // already CANCELLED, or cancels again.
  predicate Harmless(r: Racing, act: Act) {
    act.Finish? && act.call in r.calls && Lands(r.events, r.calls[act.call]) ==>
      var c := r.calls[act.call];
      !IsDeleted(r.events, c.id) && (IsCancelled(r.events, c.id) ==> c.copy.status == Cancelled || c.op.Cancel?)
  }

  // Only visible rows are loaded.
  ghost predicate GoodCalls(r: Racing) {
    forall call :: call in r.calls ==> !r.calls[call].copy.deleted
  }

  lemma SavedRow(c: Call)
    requires Saves(c)
    ensures Changed(c.copy, c.op, c.now).value.status == Cancelled <==> c.copy.status == Cancelled || c.op.Cancel?
    ensures Changed(c.copy, c.op, c.now).value.deleted == c.copy.deleted
  {
    StatusPaths(c.copy, c.op, c.now);
  }

  lemma StepSafeIff(r: Racing, act: Act)
    requires GoodCalls(r)
    ensures StayFinal(r.events, Move(r, act).events) <==> Harmless(r, act)
    ensures GoodCalls(Move(r, act))
  {
    hide Changed, SlugFree, Purges, Refusal;
    if act.Finish? && act.call in r.calls {
      var c := r.calls[act.call];
      if Saves(c) {
        SavedRow(c);
      }
      if !Harmless(r, act) {
        assert !(IsCancelled(Move(r, act).events, c.id) && IsCancelled(r.events, c.id))
          || (IsDeleted(r.events, c.id) && !IsDeleted(Move(r, act).events, c.id));
      }
    }
  }

  ghost predicate FinalForGood(acts: seq<Act>) {
    acts != [] ==>
      var init := acts[..|acts| - 1];
      FinalForGood(init) && StayFinal(Race(init).events, Race(acts).events)
  }

  predicate AllHarmless(acts: seq<Act>) {
    acts != [] ==>
      var init := acts[..|acts| - 1];
      AllHarmless(init) && Harmless(Race(init), acts[|acts| - 1])
  }

  // Over any interleaving: cancelled events stay cancelled and deleted ones deleted throughout exactly
  // when every save was harmless when it came.
  lemma {:induction false} RaceSafeIff(acts: seq<Act>)
    ensures FinalForGood(acts) <==> AllHarmless(acts)
    ensures GoodCalls(Race(acts))
  {
    if acts != [] {
      RaceSafeIff(acts[..|acts| - 1]);
      StepSafeIff(Race(acts[..|acts| - 1]), acts[|acts| - 1]);
    }
  }

  // ---------- calls on one event do not overlap ----------

  // The call made at once.
  function WholeCall(events: Table, org: Id, id: Id, op: Op, now: Time): Table {
    if Loads(events, org, id, op, now) then Commit(events, Call(id, events[id], op, now)) else events
  }

  lemma WholeIsMutate(w: World, org: Id, id: Id, op: Op, purgeFails: bool)
    requires SoundTable(w.events)
    ensures WholeCall(w.events, org, id, op, w.now) == Mutate(w, org, id, op, purgeFails).0.events
  {
    hide Changed, Refusal;
    if Loads(w.events, org, id, op, w.now) {
      var e := w.events[id];
      RowsSound(w.events, id);
      ChangedRow(e, op, w.now);
      KeptUnless(e, op, w.now);
      if !op.Update? && !op.Delete? {
        OwnSlugFree(w.events, id);
      }
    }
  }

  lemma KeptUnless(e: Event, op: Op, now: Time)
    requires Changed(e, op, now).Ok?
    ensures !Purges(e, op) ==> Changed(e, op, now).value == e
    ensures op.Delete? ==> Changed(e, op, now).value == e.(deleted := true)
  {
  }

  lemma OwnSlugFree(events: Table, id: Id)
    requires SoundTable(events) && id in events
    ensures SlugFree(events, events[id].org, events[id].slug, id)
  {
  }

  // The act leaves alone every event that has a call in flight, other than to finish that call.
  predicate Exclusive(r: Racing, act: Act) {
    act.Begin? ==> forall call :: call in r.calls ==> r.calls[call].id != act.id
  }

  predicate AllExclusive(acts: seq<Act>) {
    acts != [] ==>
      var init := acts[..|acts| - 1];
      AllExclusive(init) && Exclusive(Race(init), acts[|acts| - 1])
  }

  predicate CopyCurrent(events: Table, c: Call) {
    Visible(events, c.id) && events[c.id] == c.copy && Loads(events, c.copy.org, c.id, c.op, c.now)
  }

  ghost predicate Current(r: Racing) {
    && (forall call :: call in r.calls ==> CopyCurrent(r.events, r.calls[call]))
    && (forall a, b :: a in r.calls && b in r.calls && a != b ==> r.calls[a].id != r.calls[b].id)
  }

  lemma ExclusiveStep(r: Racing, act: Act)
    requires Current(r) && Exclusive(r, act)
    ensures Current(Move(r, act)) && Harmless(r, act)
  {
    hide Changed, Refusal, SlugFree, Saves;
    var r' := Move(r, act);
    forall call | call in r'.calls ensures CopyCurrent(r'.events, r'.calls[call]) {
      if call in r.calls {
        assert CopyCurrent(r.events, r.calls[call]);
      }
    }
    if act.Finish? && act.call in r.calls {
      assert CopyCurrent(r.events, r.calls[act.call]);
    }
  }

  // The calls of a run made whole, each at the moment of its transaction.
  function Serially(acts: seq<Act>): Table {
    if acts == [] then map[]
    else
      var n := |acts| - 1;
      var events := Serially(acts[..n]);
      match acts[n] {
        case Create(id, row) => Added(events, id, row)
        case Begin(_, _, _, _, _) => events
        case Finish(call) =>
          if call in Race(acts[..n]).calls then
            var c := Race(acts[..n]).calls[call];
            WholeCall(events, c.copy.org, c.id, c.op, c.now)
          else events
      }
  }

  // When calls on one event do not overlap, a run leaves what the same calls made whole would leave,
  // in the order of their transactions; cancelled events stay cancelled and deleted ones deleted.
  lemma {:induction false} ExclusiveRunsAreSerial(acts: seq<Act>)
    requires AllExclusive(acts)
    ensures Race(acts).events == Serially(acts) && FinalForGood(acts) && Current(Race(acts))
  {
    hide Commit, Harmless, Loads, Added;
    if acts != [] {
      var n := |acts| - 1;
      var r := Race(acts[..n]);
      ExclusiveRunsAreSerial(acts[..n]);
      ExclusiveStep(r, acts[n]);
      RaceSafeIff(acts[..n]);
      StepSafeIff(r, acts[n]);
      if acts[n].Finish? && acts[n].call in r.calls {
        assert CopyCurrent(r.events, r.calls[acts[n].call]);
      }
    }
  }

  // ---------- the window is reached ----------

  lemma RaceSnoc(acts: seq<Act>, act: Act)
    ensures Race(acts + [act]) == Move(Race(acts), act)
  {
    assert (acts + [act])[..|acts|] == acts;
  }

  const ROW := Event(1, "t", "t", None, None, None, None, None, None, None, Draft, 0, 0, false)

  function Publishing(): seq<Act> {
    [Create(7, ROW)] + [Begin(1, 1, 7, Publish, 1)] + [Finish(1)]
  }

  lemma PublishedState()
    ensures Race(Publishing()) == Racing(map[7 := ROW.(status := Published, updated := 1)], map[])
  {
    var a := [Create(7, ROW)];
    assert a[..0] == [];
    assert Race(a) == Move(Race([]), a[0]);
    RaceSnoc(a, Begin(1, 1, 7, Publish, 1));
    RaceSnoc(a + [Begin(1, 1, 7, Publish, 1)], Finish(1));
  }

  lemma Overlap(r: Racing)
    requires r == Racing(map[7 := ROW.(status := Published, updated := 1)], map[])
    ensures var r1 := Move(Move(r, Begin(1, 1, 7, Unpublish, 2)), Begin(2, 1, 7, Cancel, 3));
            && r1.events == r.events
            && r1.calls == map[1 := Call(7, r.events[7], Unpublish, 2), 2 := Call(7, r.events[7], Cancel, 3)]
  {
  }

  // From an empty table: published, being unpublished, cancelled, unpublished. The event is a draft again.
  lemma RevivedByUnpublish()
    ensures var acts := Publishing() + [Begin(1, 1, 7, Unpublish, 2)] + [Begin(2, 1, 7, Cancel, 3)] + [Finish(2)];
            && Race(acts).events == map[7 := ROW.(status := Cancelled, updated := 3)]
            && Race(acts + [Finish(1)]).events == map[7 := ROW.(status := Draft, updated := 2)]
  {
    var p := Publishing();
    var d := p + [Begin(1, 1, 7, Unpublish, 2)];
    var e := d + [Begin(2, 1, 7, Cancel, 3)];
    PublishedState();
    RaceSnoc(p, Begin(1, 1, 7, Unpublish, 2));
    RaceSnoc(d, Begin(2, 1, 7, Cancel, 3));
    Overlap(Race(p));
    RaceSnoc(e, Finish(2));
    RaceSnoc(e + [Finish(2)], Finish(1));
    hide Publishing, Race;
    assert Race(e).events[7].status == Published;
  }

  // The same with a deletion: the event is back.
  lemma UndeletedByUnpublish()
    ensures Race(Publishing() + [Begin(1, 1, 7, Unpublish, 2)] + [Begin(2, 1, 7, Delete, 3)] + [Finish(2)] + [Finish(1)]).events
              == map[7 := ROW.(status := Draft, updated := 2)]
  {
    var p := Publishing();
    var d := p + [Begin(1, 1, 7, Unpublish, 2)];
    var e := d + [Begin(2, 1, 7, Delete, 3)];
    PublishedState();
    RaceSnoc(p, Begin(1, 1, 7, Unpublish, 2));
    RaceSnoc(d, Begin(2, 1, 7, Delete, 3));
    RaceSnoc(e, Finish(2));
    RaceSnoc(e + [Finish(2)], Finish(1));
    hide Publishing, Race;
    assert Race(e + [Finish(2)]).events == map[7 := ROW.(status := Published, updated := 1, deleted := true)];
  }
}
