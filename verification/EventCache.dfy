// The public event cache: readers that look, load and store while writers commit and purge.
module EventCache {
  import opened Common

  datatype Status = Draft | Published | Cancelled

  // deleted is the soft-delete stamp: the row stays, and ordinary queries no longer see it.
  datatype Event = Event(
    org: Id, title: string, slug: string, description: Option<string>, venue: Option<string>, location: Option<string>,
    starts: Option<Time>, ends: Option<Time>, capacity: Option<int>, cover: Option<string>, status: Status,
    created: Time, updated: Time, deleted: bool)

  // What GetPublicEvent serves of an event.
  datatype Detail = Detail(
    id: Id, title: string, slug: string, description: Option<string>, venue: Option<string>, location: Option<string>,
    starts: Option<Time>, ends: Option<Time>, capacity: Option<int>, cover: Option<string>, status: Status,
    created: Time, updated: Time)

  type Table = map<Id, Event>

  predicate Visible(events: Table, id: Id) {
    id in events && !events[id].deleted
  }

  function ToDetail(id: Id, e: Event): Detail {
    Detail(id, e.title, e.slug, e.description, e.venue, e.location, e.starts, e.ends, e.capacity, e.cover, e.status,
           e.created, e.updated)
  }

  // The payload shows each column of the row under its own name.
  predicate Shows(d: Detail, id: Id, e: Event) {
    && d.id == id && d.title == e.title && d.slug == e.slug && d.description == e.description && d.venue == e.venue
    && d.location == e.location && d.starts == e.starts && d.ends == e.ends && d.capacity == e.capacity && d.cover == e.cover
    && d.status == e.status && d.created == e.created && d.updated == e.updated
  }

  // The published payload of an event, if it has one: what an uncached read returns.
  function Public(events: Table, id: Id): Option<Detail> {
    if Visible(events, id) && events[id].status == Published then Some(ToDetail(id, events[id])) else None
  }

  const TTL: Time := 60   // seconds

  // An entry remembers when its payload was read and stored; the store itself only knows `expires`.
  datatype Entry = Entry(payload: Detail, expires: Time, readAt: Time, setAt: Time)

  // Missed: the cache had nothing (or failed). Loaded: the database answered.
  datatype Reader = Missed(event: Id) | Loaded(event: Id, payload: Detail, readAt: Time)

  datatype World = World(now: Time, events: Table, cache: map<Id, Entry>, readers: map<Id, Reader>)

  datatype Step =
    | Tick(d: nat)
    | Look(reader: Id, event: Id, fails: bool)
    | Load(reader: Id)
    | Store(reader: Id, fails: bool)
    | Write(event: Id, row: Option<Event>)   // any commit to this row, by any service
    | Purge(event: Id, fails: bool)
    | Evict(event: Id)

  // What the cache answers now.
  function Hit(w: World, id: Id): Option<Entry> {
    if id in w.cache && w.now < w.cache[id].expires then Some(w.cache[id]) else None
  }

  function Next(w: World, step: Step): World {
    match step {
      case Tick(d) => w.(now := w.now + d)
      case Look(reader, event, fails) =>
        if reader !in w.readers && (fails || Hit(w, event).None?) then w.(readers := w.readers[reader := Missed(event)]) else w
      case Load(reader) =>
        if reader in w.readers && w.readers[reader].Missed? then
          var id := w.readers[reader].event;
          match Public(w.events, id) {
            case None => w.(readers := w.readers - {reader})
            case Some(payload) => w.(readers := w.readers[reader := Loaded(id, payload, w.now)])
          }
        else w
      case Store(reader, fails) =>
        if reader in w.readers && w.readers[reader].Loaded? then
          var r := w.readers[reader];
          var cache := if fails then w.cache else w.cache[r.event := Entry(r.payload, w.now + TTL, r.readAt, w.now)];
          w.(cache := cache, readers := w.readers - {reader})
        else w
      case Write(event, row) => w.(events := if row.Some? then w.events[event := row.value] else w.events - {event})
      case Purge(event, fails) => if fails then w else w.(cache := w.cache - {event})
      case Evict(event) => w.(cache := w.cache - {event})
    }
  }

  function Run(w: World, steps: seq<Step>): World {
    if steps == [] then w else Next(Run(w, steps[..|steps| - 1]), steps[|steps| - 1])
  }

  ghost predicate Cold(w: World) {
    w.cache == map[] && w.readers == map[]
  }

  // The worlds a run passes through.
  function Trace(w: World, steps: seq<Step>): (tr: seq<World>)
    ensures |tr| == |steps| + 1 && tr[|steps|] == Run(w, steps)
  {
    if steps == [] then [w]
    else
      var n := |steps| - 1;
      Trace(w, steps[..n]) + [Next(Run(w, steps[..n]), steps[n])]
  }

  // At some moment of the trace whose clock read t, this was the event's published payload.
  predicate WasPublic(tr: seq<World>, id: Id, payload: Detail, t: Time) {
    exists k :: 0 <= k < |tr| && tr[k].now == t && Public(tr[k].events, id) == Some(payload)
  }

  lemma WasPublicStays(tr: seq<World>, w: World, id: Id, payload: Detail, t: Time)
    requires WasPublic(tr, id, payload, t)
    ensures WasPublic(tr + [w], id, payload, t)
  {
    var k :| 0 <= k < |tr| && tr[k].now == t && Public(tr[k].events, id) == Some(payload);
    assert (tr + [w])[k] == tr[k];
  }

  predicate SoundEntry(tr: seq<World>, now: Time, id: Id, e: Entry) {
    e.expires == e.setAt + TTL && e.readAt <= e.setAt <= now && WasPublic(tr, id, e.payload, e.readAt)
  }

  predicate SoundReader(tr: seq<World>, now: Time, r: Reader) {
    r.Loaded? ==> r.readAt <= now && WasPublic(tr, r.event, r.payload, r.readAt)
  }

  ghost predicate SoundTrace(tr: seq<World>) {
    && tr != []
    && var w := tr[|tr| - 1];
       && (forall id :: id in w.cache ==> SoundEntry(tr, w.now, id, w.cache[id]))
       && (forall r :: r in w.readers ==> SoundReader(tr, w.now, w.readers[r]))
  }

  // A reader a step adds or changes has just read the database; an entry it adds was a reader's.
  lemma StepOrigins(w: World, step: Step)
    ensures w.now <= Next(w, step).now
    ensures forall r :: r in Next(w, step).readers && Next(w, step).readers[r].Loaded? ==>
              var reader := Next(w, step).readers[r];
              || (r in w.readers && w.readers[r] == reader)
              || (reader.readAt == w.now && Public(w.events, reader.event) == Some(reader.payload))
    ensures forall id :: id in Next(w, step).cache ==>
              var e := Next(w, step).cache[id];
              || (id in w.cache && w.cache[id] == e)
              || (step.Store? && step.reader in w.readers && w.readers[step.reader] == Loaded(id, e.payload, e.readAt)
                  && e.setAt == w.now && e.expires == w.now + TTL)
  {
  }

  lemma SoundStep(tr: seq<World>, step: Step)
    requires SoundTrace(tr)
    ensures SoundTrace(tr + [Next(tr[|tr| - 1], step)])
  {
    var w := tr[|tr| - 1];
    var w' := Next(w, step);
    StepOrigins(w, step);
    forall r | r in w'.readers ensures SoundReader(tr + [w'], w'.now, w'.readers[r]) {
      var reader := w'.readers[r];
      if reader.Loaded? {
        WasPublicStays(tr, w', reader.event, reader.payload, reader.readAt);
      }
    }
    forall id | id in w'.cache ensures SoundEntry(tr + [w'], w'.now, id, w'.cache[id]) {
      var e := w'.cache[id];
      if !(id in w.cache && w.cache[id] == e) {
        assert SoundReader(tr, w.now, w.readers[step.reader]);
      }
      WasPublicStays(tr, w', id, e.payload, e.readAt);
    }
  }

  lemma {:induction false} EveryTraceSound(w: World, steps: seq<Step>)
    requires Cold(w)
    ensures SoundTrace(Trace(w, steps))
  {
    if steps != [] {
      var n := |steps| - 1;
      EveryTraceSound(w, steps[..n]);
      SoundStep(Trace(w, steps[..n]), steps[n]);
    }
  }

  // Bounded staleness, under every interleaving and with any cache call failing: a payload the cache
  // serves at time t was the event's published payload at some moment later than t minus the TTL
  // and that entry's own read-to-store delay.
  lemma BoundedStaleness(w: World, steps: seq<Step>, id: Id)
    requires Cold(w) && Hit(Run(w, steps), id).Some?
    ensures var (t, e) := (Run(w, steps).now, Hit(Run(w, steps), id).value);
            && 0 <= e.setAt - e.readAt
            && WasPublic(Trace(w, steps), id, e.payload, e.readAt)
            && t - (TTL + (e.setAt - e.readAt)) < e.readAt <= t
  {
    EveryTraceSound(w, steps);
    assert SoundEntry(Trace(w, steps), Run(w, steps).now, id, Run(w, steps).cache[id]);
  }

  // ---------- coherence ----------

  ghost predicate ReadersCurrent(w: World, id: Id) {
    forall r :: r in w.readers && w.readers[r].Loaded? && w.readers[r].event == id ==>
      Public(w.events, id) == Some(w.readers[r].payload)
  }

  // Whatever the cache or a reader holds of this event is what the database would answer.
  ghost predicate Coherent(w: World, id: Id) {
    && (id in w.cache ==> Public(w.events, id) == Some(w.cache[id].payload))
    && ReadersCurrent(w, id)
  }

  // Only a commit to the event itself can break coherence, and only by changing what is public.
  lemma CoherentKept(w: World, step: Step, id: Id)
    requires Coherent(w, id)
    requires step.Write? && step.event == id ==> Public(Next(w, step).events, id) == Public(w.events, id)
    ensures Coherent(Next(w, step), id)
  {
  }

  // A purge that succeeds restores it exactly when no reader is holding an outdated payload.
  lemma PurgeRestoresIff(w: World, id: Id)
    ensures Coherent(Next(w, Purge(id, false)), id) <==> ReadersCurrent(w, id)
  {
  }

  // A read of the cache or, on a miss, of the database.
  function Read(w: World, id: Id): Option<Detail> {
    if Hit(w, id).Some? then Some(Hit(w, id).value.payload) else Public(w.events, id)
  }

  lemma {:induction false} QuietRun(w: World, steps: seq<Step>, id: Id)
    requires Coherent(w, id)
    requires forall k :: 0 <= k < |steps| ==> !(steps[k].Write? && steps[k].event == id)
    ensures Coherent(Run(w, steps), id) && Public(Run(w, steps).events, id) == Public(w.events, id)
  {
    if steps != [] {
      QuietRun(w, steps[..|steps| - 1], id);
      CoherentKept(Run(w, steps[..|steps| - 1]), steps[|steps| - 1], id);
    }
  }

  // After a successful purge with no outdated reader in flight, every read up to the next commit to
  // that event agrees with the database, however other calls interleave.
  lemma FreshAfterPurge(w: World, steps: seq<Step>, id: Id)
    requires ReadersCurrent(w, id)
    requires forall k :: 0 <= k < |steps| ==> !(steps[k].Write? && steps[k].event == id)
    ensures var w' := Run(Next(w, Purge(id, false)), steps);
            Read(w', id) == Public(w'.events, id) == Public(w.events, id)
  {
    PurgeRestoresIff(w, id);
    QuietRun(Next(w, Purge(id, false)), steps, id);
  }

  // The race is real: a reader that loaded before a commit and stores after its purge has the old
  // payload served until the entry's TTL runs out, and not a moment longer.
  lemma StoreAfterPurge(w: World, reader: Id, id: Id, row: Option<Event>, wait: nat)
    requires Public(w.events, id).Some? && Hit(w, id).None? && reader !in w.readers
    requires row.Some? ==> Public(map[id := row.value], id) != Public(w.events, id)
    ensures var steps := [Look(reader, id, false), Load(reader), Write(id, row), Purge(id, false), Store(reader, false), Tick(wait)];
            var w' := Run(w, steps);
            (Read(w', id) != Public(w'.events, id) <==> wait < TTL) && (wait < TTL ==> Read(w', id) == Public(w.events, id))
  {
    var steps := [Look(reader, id, false), Load(reader), Write(id, row), Purge(id, false), Store(reader, false), Tick(wait)];
    var w1 := Next(w, steps[0]);
    var w2 := Next(w1, steps[1]);
    var w3 := Next(w2, steps[2]);
    var w4 := Next(w3, steps[3]);
    var w5 := Next(w4, steps[4]);
    assert w2.readers[reader] == Loaded(id, Public(w.events, id).value, w.now);
    RunSix(w, steps);
  }

  lemma RunSix(w: World, s: seq<Step>)
    requires |s| == 6
    ensures Run(w, s) == Next(Next(Next(Next(Next(Next(w, s[0]), s[1]), s[2]), s[3]), s[4]), s[5])
  {
    hide Next;
    assert s[..5][..4] == s[..4] && s[..4][..3] == s[..3] && s[..3][..2] == s[..2] && s[..2][..1] == s[..1] && s[..1][..0] == [];
    assert Run(w, s[..1]) == Next(w, s[0]);
    assert Run(w, s[..2]) == Next(Run(w, s[..1]), s[1]);
    assert Run(w, s[..3]) == Next(Run(w, s[..2]), s[2]);
    assert Run(w, s[..4]) == Next(Run(w, s[..3]), s[3]);
    assert Run(w, s[..5]) == Next(Run(w, s[..4]), s[4]);
  }
}
