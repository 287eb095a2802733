// The event service's mutations, what each purges, and the class that performs them in place.
module EventService {
  import opened Common
  import opened EventCache
  import Slug

  datatype EventError =
    | NotFound | InvalidTitle | InvalidSlug | InvalidDates | InvalidCapacity | InvalidStatus | SlugTaken
    | UpgradeRequired | CoverRequired | CoverTooLarge | CoverType | TooManyFiles

  datatype Input = Input(
    title: Option<string>, slug: Option<string>, description: Option<string>, venue: Option<string>,
    location: Option<string>, starts: Option<Time>, ends: Option<Time>, capacity: Option<int>, clearCover: bool)

  datatype Upload = Upload(size: int, contentType: string, url: string)

  const MAX_COVER_BYTES := 5242880
  const MAX_GALLERY_FILES := 10

  function Or<T>(a: Option<T>, b: Option<T>): Option<T> {
    if a.Some? then a else b
  }

  function Find(events: Table, org: Id, id: Id): Option<Event> {
    if Visible(events, id) && events[id].org == org then Some(events[id]) else None
  }

  predicate InOrg(events: Table, org: Id, id: Id) {
    id in events && !events[id].deleted && events[id].org == org
  }

  predicate DatesOk(starts: Option<Time>, ends: Option<Time>) {
    starts.Some? && ends.Some? ==> starts.value < ends.value
  }

  // (organization, slug) is unique over all rows, soft-deleted ones included.
  predicate SlugFree(events: Table, org: Id, slug: string, id: Id) {
    forall other :: other in events && other != id ==> !(events[other].org == org && events[other].slug == slug)
  }

  function CheckCover(up: Upload): Option<EventError> {
    if up.size <= 0 then Some(CoverRequired)
    else if up.size > MAX_COVER_BYTES then Some(CoverTooLarge)
    else if up.contentType !in {"image/jpeg", "image/png", "image/webp"} then Some(CoverType)
    else None
  }

  // ---------- edits of one row ----------

  function Edited(e: Event, input: Input, u: Slug.Unicode, now: Time): Reply<Event, EventError> {
    var title := if input.title.Some? then Slug.Trim(input.title.value, u.space) else e.title;
    var slug := if input.slug.Some? then Slug.Lower(Slug.Trim(input.slug.value, u.space), u) else e.slug;
    var starts, ends := Or(input.starts, e.starts), Or(input.ends, e.ends);
    if input.title.Some? && title == "" then Err(InvalidTitle)
    else if input.slug.Some? && !Slug.SlugRe(slug) then Err(InvalidSlug)
    else if !DatesOk(starts, ends) then Err(InvalidDates)
    else if input.capacity.Some? && input.capacity.value <= 0 then Err(InvalidCapacity)
    else
      Ok(e.(title := title, slug := slug, description := Or(input.description, e.description),
            venue := Or(input.venue, e.venue), location := Or(input.location, e.location), starts := starts, ends := ends,
            capacity := Or(input.capacity, e.capacity), cover := if input.clearCover then None else e.cover, updated := now))
  }

  function Moved(e: Event, from: Status, to: Status, now: Time): Reply<Event, EventError> {
    if e.status != from then Err(InvalidStatus) else Ok(e.(status := to, updated := now))
  }

  predicate Coverless(e: Event) {
    e.cover.None? || e.cover.value == ""
  }

  // The first upload that is refused, in order.
  function FirstRefused(uploads: seq<Upload>): Option<EventError> {
    if uploads == [] then None
    else if CheckCover(uploads[0]).Some? then CheckCover(uploads[0])
    else FirstRefused(uploads[1..])
  }

  // ---------- mutations ----------

  datatype Op =
    | Update(input: Input, u: Slug.Unicode)
    | Publish | Unpublish | Cancel | Delete
    | SetCover(upload: Upload)
    | AddImages(uploads: seq<Upload>)

  // The row an accepted mutation writes. AddImages leaves it alone when there already is a cover.
  function Changed(e: Event, op: Op, now: Time): Reply<Event, EventError> {
    match op
    case Update(input, u) => Edited(e, input, u, now)
    case Publish => Moved(e, Draft, Published, now)
    case Unpublish => Moved(e, Published, Draft, now)
    case Cancel => Moved(e, Published, Cancelled, now)
    case Delete => Ok(e.(deleted := true))
    case SetCover(up) =>
      if CheckCover(up).Some? then Err(CheckCover(up).value) else Ok(e.(cover := Some(up.url), updated := now))
    case AddImages(ups) =>
      if |ups| == 0 then Err(CoverRequired)
      else if |ups| > MAX_GALLERY_FILES then Err(TooManyFiles)
      else if FirstRefused(ups).Some? then Err(FirstRefused(ups).value)
      else if Coverless(e) then Ok(e.(cover := Some(ups[0].url), updated := now))
      else Ok(e)
  }

  // Every mutation purges, but for a gallery upload that clones no cover.
  predicate Purges(e: Event, op: Op) {
    op.AddImages? ==> Coverless(e)
  }

  function Refusal(op: Op): Option<EventError> {
    if op.AddImages? && |op.uploads| == 0 then Some(CoverRequired)
    else if op.AddImages? && |op.uploads| > MAX_GALLERY_FILES then Some(TooManyFiles)
    else None
  }

  function Mutate(w: World, org: Id, id: Id, op: Op, purgeFails: bool): (World, Reply<Detail, EventError>) {
    if Refusal(op).Some? then (w, Err(Refusal(op).value))
    else match Find(w.events, org, id) {
      case None => (w, Err(NotFound))
      case Some(e) =>
        match Changed(e, op, w.now) {
          case Err(error) => (w, Err(error))
          case Ok(e') =>
            if op.Update? && !SlugFree(w.events, e'.org, e'.slug, id) then (w, Err(SlugTaken))
            else
              var written := w.(events := w.events[id := e']);
              (if Purges(e, op) && !purgeFails then written.(cache := w.cache - {id}) else written, Ok(ToDetail(id, e')))
        }
    }
  }

  function GetPublicEvent(w: World, id: Id, getFails: bool, setFails: bool): (World, Reply<Detail, EventError>) {
    if !getFails && Hit(w, id).Some? then (w, Ok(Hit(w, id).value.payload))
    else
      match Public(w.events, id)
      case None => (w, Err(NotFound))
      case Some(d) =>
        (if setFails then w else w.(cache := w.cache[id := Entry(d, w.now + TTL, w.now, w.now)]), Ok(d))
  }

  function Uncached(w: World, id: Id): Reply<Detail, EventError> {
    match Public(w.events, id)
    case None => Err(NotFound)
    case Some(d) => Ok(d)
  }

  // ---------- whole calls are runs of the interleaved protocol ----------

  lemma MutateIsWriteThenPurge(w: World, org: Id, id: Id, op: Op, purgeFails: bool)
    ensures var (w', r) := Mutate(w, org, id, op, purgeFails);
            || (r.Err? && w' == w)
            || (r.Ok? && id in w'.events &&
                 w' == Run(w, [Write(id, Some(w'.events[id]))] + if Purges(w.events[id], op) then [Purge(id, purgeFails)] else []))
  {
    hide Changed, Purges, SlugFree, Refusal, Run;
    var (w', r) := Mutate(w, org, id, op, purgeFails);
    if r.Ok? {
      var write, purge := Write(id, Some(w'.events[id])), Purge(id, purgeFails);
      OneStep(w, write);
      TwoSteps(w, write, purge);
      assert [write] + [] == [write];
    }
  }

  lemma OneStep(w: World, step: Step)
    ensures Run(w, [step]) == Next(w, step)
  {
    assert [step][..0] == [];
  }

  lemma TwoSteps(w: World, first: Step, second: Step)
    ensures Run(w, [first] + [second]) == Next(Next(w, first), second)
  {
    assert ([first] + [second])[..1] == [first];
    OneStep(w, first);
  }

  lemma GetIsARun(w: World, id: Id, getFails: bool, setFails: bool, reader: Id)
    requires reader !in w.readers
    ensures GetPublicEvent(w, id, getFails, setFails).0 ==
      Run(w, [Look(reader, id, getFails), Load(reader), Store(reader, setFails)])
  {
    var s := [Look(reader, id, getFails), Load(reader), Store(reader, setFails)];
    RunThree(w, s);
    if getFails || Hit(w, id).None? {
      LookedLoadedStored(w, Next(w, s[0]), id, setFails, reader);
    }
  }

  lemma RunThree(w: World, s: seq<Step>)
    requires |s| == 3
    ensures Run(w, s) == Next(Next(Next(w, s[0]), s[1]), s[2])
  {
    hide Next;
    assert s[..2][..1] == s[..1] && s[..1][..0] == [];
    assert Run(w, s[..1]) == Next(w, s[0]);
    assert Run(w, s[..2]) == Next(Run(w, s[..1]), s[1]);
  }

  lemma LookedLoadedStored(w: World, w1: World, id: Id, setFails: bool, reader: Id)
    requires reader !in w.readers && w1 == w.(readers := w.readers[reader := Missed(id)])
    ensures Next(Next(w1, Load(reader)), Store(reader, setFails)) ==
      if Public(w.events, id).None? || setFails then w
      else w.(cache := w.cache[id := Entry(Public(w.events, id).value, w.now + TTL, w.now, w.now)])
  {
    var w2 := Next(w1, Load(reader));
    assert w2.readers - {reader} == w.readers;
    assert w1.readers - {reader} == w.readers;
  }

  // ---------- calls one after the other ----------

  datatype Call =
    | Mutation(org: Id, id: Id, op: Op)
    | Creation(id: Id, row: Event)   // CreateEvent's accepted insert: a draft under a new id
    | Read(event: Id)
    | Wait(d: nat)

  function After(w: World, call: Call): World {
    match call
    case Mutation(org, id, op) => Mutate(w, org, id, op, false).0
    case Creation(id, row) => if id in w.events || row.status != Draft then w else w.(events := w.events[id := row])
    case Read(event) => GetPublicEvent(w, event, false, false).0
    case Wait(d) => w.(now := w.now + d)
  }

  function Serial(w: World, calls: seq<Call>): World {
    if calls == [] then w else After(Serial(w, calls[..|calls| - 1]), calls[|calls| - 1])
  }

  ghost predicate AllCoherent(w: World) {
    w.readers == map[] && forall id :: id in w.cache ==> Public(w.events, id) == Some(w.cache[id].payload)
  }

  // Whatever mutation can change what is public about an event, it purges that event.
  lemma PurgesSuffice(w: World, org: Id, id: Id, op: Op, purgeFails: bool, other: Id)
    ensures var w' := Mutate(w, org, id, op, purgeFails).0;
            Public(w'.events, other) != Public(w.events, other) ==>
              other == id && Purges(w.events[id], op) && (id in w'.cache ==> purgeFails)
  {
  }

  lemma {:induction false} AfterCoherent(w: World, call: Call)
    requires AllCoherent(w)
    ensures AllCoherent(After(w, call))
  {
    var w' := After(w, call);
    if call.Mutation? {
      forall id | id in w'.cache ensures Public(w'.events, id) == Some(w'.cache[id].payload) {
        PurgesSuffice(w, call.org, call.id, call.op, false, id);
      }
    }
  }

  // When calls do not overlap and no cache call fails, a cached read answers what an uncached one
  // would, after any sequence of mutations, reads and waits.
  lemma {:induction false} CachedEqualsUncached(w: World, calls: seq<Call>, id: Id)
    requires Cold(w)
    ensures AllCoherent(Serial(w, calls))
    ensures GetPublicEvent(Serial(w, calls), id, false, false).1 == Uncached(Serial(w, calls), id)
  {
    if calls != [] {
      var n := |calls| - 1;
      CachedEqualsUncached(w, calls[..n], id);
      AfterCoherent(Serial(w, calls[..n]), calls[n]);
    }
  }

  // ---------- the table's own constraints ----------

  predicate SoundRow(e: Event) {
    e.title != "" && Slug.SlugRe(e.slug) && DatesOk(e.starts, e.ends) && (e.capacity.Some? ==> e.capacity.value > 0)
  }

  // What the schema checks: dates in order, a positive capacity, one slug per organization.
  ghost predicate SoundTable(events: Table) {
    && (forall id :: id in events ==> SoundRow(events[id]))
    && (forall id, other :: id in events && other in events && id != other ==>
          events[id].org != events[other].org || events[id].slug != events[other].slug)
  }

  // No mutation breaks them, and none moves an event to another organization, changes when it was
  // created, or brings it back from a deletion.
  lemma MutationsKeepTable(w: World, org: Id, id: Id, op: Op, purgeFails: bool, other: Id)
    requires SoundTable(w.events) && other in w.events
    ensures var events := Mutate(w, org, id, op, purgeFails).0.events;
            && SoundTable(events) && events.Keys == w.events.Keys
            && events[other].org == w.events[other].org && events[other].created == w.events[other].created
            && (w.events[other].deleted ==> events[other] == w.events[other])
  {
    hide Changed, Purges, SoundRow, SoundTable;
    var (w', r) := Mutate(w, org, id, op, purgeFails);
    if r.Ok? {
      var e := w.events[id];
      var e' := Changed(e, op, w.now).value;
      assert SoundRow(e) by {
        RowsSound(w.events, id);
      }
      ChangedRow(e, op, w.now);
      RowReplaced(w.events, id, e');
    }
  }

  lemma RowsSound(events: Table, id: Id)
    requires SoundTable(events) && id in events
    ensures SoundRow(events[id])
  {
  }

  lemma RowReplaced(events: Table, id: Id, e: Event)
    requires SoundTable(events) && SoundRow(e)
    requires SlugFree(events, e.org, e.slug, id) || (id in events && e.org == events[id].org && e.slug == events[id].slug)
    ensures SoundTable(events[id := e])
  {
    hide SoundRow;
  }

  lemma ChangedRow(e: Event, op: Op, now: Time)
    requires SoundRow(e) && Changed(e, op, now).Ok?
    ensures var e' := Changed(e, op, now).value;
            SoundRow(e') && e'.org == e.org && e'.created == e.created && (!op.Update? ==> e'.slug == e.slug)
  {
  }

  const NOTHING := Input(None, None, None, None, None, None, None, None, false)

  // What an edit demands of its own fields, and of the dates it would leave.
  predicate Acceptable(e: Event, input: Input, u: Slug.Unicode) {
    && (input.title.Some? ==> Slug.Trim(input.title.value, u.space) != "")
    && (input.slug.Some? ==> Slug.SlugRe(Slug.Lower(Slug.Trim(input.slug.value, u.space), u)))
    && (input.capacity.Some? ==> input.capacity.value > 0)
    && var starts := if input.starts.Some? then input.starts else e.starts;
       var ends := if input.ends.Some? then input.ends else e.ends;
       (starts.Some? && ends.Some? ==> starts.value < ends.value)
  }

  // Each column takes the field of its own name, when it is given.
  predicate Takes(e: Event, input: Input, u: Slug.Unicode, now: Time, e': Event) {
    && e'.title == (if input.title.Some? then Slug.Trim(input.title.value, u.space) else e.title)
    && e'.slug == (if input.slug.Some? then Slug.Lower(Slug.Trim(input.slug.value, u.space), u) else e.slug)
    && (if input.description.Some? then e'.description == input.description else e'.description == e.description)
    && (if input.venue.Some? then e'.venue == input.venue else e'.venue == e.venue)
    && (if input.location.Some? then e'.location == input.location else e'.location == e.location)
    && (if input.starts.Some? then e'.starts == input.starts else e'.starts == e.starts)
    && (if input.ends.Some? then e'.ends == input.ends else e'.ends == e.ends)
    && (if input.capacity.Some? then e'.capacity == input.capacity else e'.capacity == e.capacity)
    && (if input.clearCover then e'.cover.None? else e'.cover == e.cover)
    && e'.updated == now && e'.org == e.org && e'.status == e.status && e'.created == e.created && e'.deleted == e.deleted
  }

  // An edit giving one field changes that column and the time, and nothing else.
  lemma EditsOneColumn(e: Event, u: Slug.Unicode, now: Time, text: string, t: Time, n: int)
    requires DatesOk(e.starts, e.ends)
    ensures var trimmed := Slug.Trim(text, u.space);
            && Edited(e, NOTHING.(title := Some(text)), u, now)
                 == (if trimmed == "" then Err(InvalidTitle) else Ok(e.(title := trimmed, updated := now)))
            && Edited(e, NOTHING.(slug := Some(text)), u, now)
                 == (if Slug.SlugRe(Slug.Lower(trimmed, u)) then Ok(e.(slug := Slug.Lower(trimmed, u), updated := now)) else Err(InvalidSlug))
    ensures Edited(e, NOTHING.(description := Some(text)), u, now) == Ok(e.(description := Some(text), updated := now))
    ensures Edited(e, NOTHING.(venue := Some(text)), u, now) == Ok(e.(venue := Some(text), updated := now))
    ensures Edited(e, NOTHING.(location := Some(text)), u, now) == Ok(e.(location := Some(text), updated := now))
    ensures Edited(e, NOTHING.(starts := Some(t)), u, now)
              == (if e.ends.Some? && t >= e.ends.value then Err(InvalidDates) else Ok(e.(starts := Some(t), updated := now)))
    ensures Edited(e, NOTHING.(ends := Some(t)), u, now)
              == (if e.starts.Some? && t <= e.starts.value then Err(InvalidDates) else Ok(e.(ends := Some(t), updated := now)))
    ensures Edited(e, NOTHING.(capacity := Some(n)), u, now)
              == (if n <= 0 then Err(InvalidCapacity) else Ok(e.(capacity := Some(n), updated := now)))
    ensures Edited(e, NOTHING.(clearCover := true), u, now) == Ok(e.(cover := None, updated := now))
  {
  }

  // No field is given by both.
  predicate Disjoint(a: Input, b: Input) {
    && (a.title.None? || b.title.None?) && (a.slug.None? || b.slug.None?) && (a.description.None? || b.description.None?)
    && (a.venue.None? || b.venue.None?) && (a.location.None? || b.location.None?) && (a.starts.None? || b.starts.None?)
    && (a.ends.None? || b.ends.None?) && (a.capacity.None? || b.capacity.None?) && !(a.clearCover && b.clearCover)
  }

  function Joined(a: Input, b: Input): Input {
    Input(Or(a.title, b.title), Or(a.slug, b.slug), Or(a.description, b.description), Or(a.venue, b.venue),
          Or(a.location, b.location), Or(a.starts, b.starts), Or(a.ends, b.ends), Or(a.capacity, b.capacity),
          a.clearCover || b.clearCover)
  }

  lemma EditedIs(e: Event, input: Input, u: Slug.Unicode, now: Time, e': Event)
    requires Acceptable(e, input, u) && Takes(e, input, u, now, e')
    ensures Edited(e, input, u, now) == Ok(e')
  {
  }

  lemma JoinedTakes(e: Event, a: Input, b: Input, u: Slug.Unicode, now: Time, e1: Event, e2: Event)
    requires Disjoint(a, b) && Takes(e, a, u, now, e1) && Takes(e1, b, u, now, e2)
    ensures Takes(e, Joined(a, b), u, now, e2)
  {
  }

  lemma JoinedAcceptable(e: Event, a: Input, b: Input, u: Slug.Unicode, now: Time, e1: Event)
    requires Disjoint(a, b) && Acceptable(e, a, u) && Takes(e, a, u, now, e1) && Acceptable(e1, b, u)
    ensures Acceptable(e, Joined(a, b), u)
  {
  }

  // Edits of disjoint fields, accepted one after the other in either order, are their joint edit.
  lemma EditsCompose(e: Event, a: Input, b: Input, u: Slug.Unicode, now: Time)
    requires Disjoint(a, b) && Edited(e, a, u, now).Ok? && Edited(Edited(e, a, u, now).value, b, u, now).Ok?
    ensures Edited(e, Joined(a, b), u, now) == Edited(Edited(e, a, u, now).value, b, u, now)
    ensures Edited(e, b, u, now).Ok? ==>
              Edited(e, Joined(b, a), u, now) == Edited(e, Joined(a, b), u, now)
              && Edited(Edited(e, b, u, now).value, a, u, now) == Edited(e, Joined(a, b), u, now)
  {
    ComposeOnce(e, a, b, u, now);
    JoinedCommutes(a, b);
    if Edited(e, b, u, now).Ok? {
      EditedSecond(e, a, b, u, now);
      ComposeOnce(e, b, a, u, now);
    }
  }

  lemma ComposeOnce(e: Event, a: Input, b: Input, u: Slug.Unicode, now: Time)
    requires Disjoint(a, b) && Edited(e, a, u, now).Ok? && Edited(Edited(e, a, u, now).value, b, u, now).Ok?
    ensures Edited(e, Joined(a, b), u, now) == Edited(Edited(e, a, u, now).value, b, u, now)
  {
    hide Edited, Acceptable, Takes, Disjoint, Joined;
    var e1 := Edited(e, a, u, now).value;
    var e2 := Edited(e1, b, u, now).value;
    EditMeans(e, a, u, now);
    EditMeans(e1, b, u, now);
    JoinedTakes(e, a, b, u, now, e1, e2);
    JoinedAcceptable(e, a, b, u, now, e1);
    EditedIs(e, Joined(a, b), u, now, e2);
  }

  lemma JoinedCommutes(a: Input, b: Input)
    requires Disjoint(a, b)
    ensures Joined(b, a) == Joined(a, b) && Disjoint(b, a)
  {
  }

  // In the other order the second edit is accepted too: it sees the dates the joint edit leaves.
  lemma EditedSecond(e: Event, a: Input, b: Input, u: Slug.Unicode, now: Time)
    requires Disjoint(a, b) && Edited(e, a, u, now).Ok? && Edited(Edited(e, a, u, now).value, b, u, now).Ok? && Edited(e, b, u, now).Ok?
    ensures Edited(Edited(e, b, u, now).value, a, u, now).Ok?
  {
    hide Edited;
    var e1, f := Edited(e, a, u, now).value, Edited(e, b, u, now).value;
    EditMeans(e, a, u, now);
    EditMeans(e1, b, u, now);
    EditMeans(e, b, u, now);
    EditMeans(f, a, u, now);
    SecondAcceptable(e, a, b, u, now, e1, f);
  }

  lemma SecondAcceptable(e: Event, a: Input, b: Input, u: Slug.Unicode, now: Time, e1: Event, f: Event)
    requires Disjoint(a, b) && Takes(e, a, u, now, e1) && Takes(e, b, u, now, f)
    requires Acceptable(e, a, u) && Acceptable(e1, b, u) && Acceptable(e, b, u)
    ensures Acceptable(f, a, u)
  {
  }

  // What a caller of an edit may rely on.
  ghost predicate EditAnswers(e: Event, input: Input, u: Slug.Unicode, now: Time, r: Reply<Event, EventError>) {
    && (r.Ok? <==> Acceptable(e, input, u))
    && (r.Ok? ==>
          && Takes(e, input, u, now, r.value) && (SoundRow(e) ==> SoundRow(r.value))
          && Edited(r.value, input, u, now) == r
          && forall b :: Disjoint(input, b) && Edited(r.value, b, u, now).Ok? ==>
               Edited(e, Joined(input, b), u, now) == Edited(r.value, b, u, now))
  }

  lemma EditLaws(e: Event, input: Input, u: Slug.Unicode, now: Time)
    ensures EditAnswers(e, input, u, now, Edited(e, input, u, now))
  {
    hide Edited, Acceptable, Takes, Disjoint, Joined, SoundRow;
    EditMeans(e, input, u, now);
    if Edited(e, input, u, now).Ok? {
      var e1 := Edited(e, input, u, now).value;
      forall b | Disjoint(input, b) && Edited(e1, b, u, now).Ok?
        ensures Edited(e, Joined(input, b), u, now) == Edited(e1, b, u, now)
      {
        ComposeOnce(e, input, b, u, now);
      }
    }
  }

  // An edit never touches the organization, the status or the stamps; editing again in the same way
  // changes nothing more, and an empty edit only moves the time.
  lemma EditMeans(e: Event, input: Input, u: Slug.Unicode, now: Time)
    ensures var r := Edited(e, input, u, now);
            && (r.Ok? ==>
                  && r.value.org == e.org && r.value.status == e.status && r.value.created == e.created
                  && r.value.deleted == e.deleted && r.value.updated == now
                  && Edited(r.value, input, u, now) == r
                  && Takes(e, input, u, now, r.value)
                  && (SoundRow(e) ==> SoundRow(r.value)))
            && (r.Ok? <==> Acceptable(e, input, u))
            && (input == NOTHING && DatesOk(e.starts, e.ends) ==> r == Ok(e.(updated := now)))
  {
    if Edited(e, input, u, now).Ok? && SoundRow(e) {
      ChangedRow(e, Update(input, u), now);
    }
  }

  // A draft is never public before it is published, a cancelled event never again.
  lemma StatusPaths(e: Event, op: Op, now: Time)
    requires Changed(e, op, now).Ok?
    ensures var e' := Changed(e, op, now).value;
            && (e'.status == e.status
                || (e.status, e'.status) in {(Draft, Published), (Published, Draft), (Published, Cancelled)})
            && (e.status == Cancelled ==> e'.status == Cancelled)
            && (e.status == Draft && e'.status == Published ==> op.Publish?)
  {
  }

  // A draft is published once; a published event is a draft again or cancelled; nothing else moves it,
  // and nothing but the status and the time changes.
  lemma Life(e: Event, now: Time)
    ensures Changed(e, Publish, now) == (if e.status == Draft then Ok(e.(status := Published, updated := now)) else Err(InvalidStatus))
    ensures Changed(e, Unpublish, now) == (if e.status == Published then Ok(e.(status := Draft, updated := now)) else Err(InvalidStatus))
    ensures Changed(e, Cancel, now) == (if e.status == Published then Ok(e.(status := Cancelled, updated := now)) else Err(InvalidStatus))
  {
  }

  // ---------- creation ----------

  function VisibleSlugs(events: Table, org: Id): set<string> {
    set id | id in events && events[id].org == org && !events[id].deleted :: events[id].slug
  }

  function AllSlugs(events: Table, org: Id): set<string> {
    set id | id in events && events[id].org == org :: events[id].slug
  }

  function ActiveEvents(events: Table, org: Id): set<Id> {
    set id | id in events && events[id].org == org && !events[id].deleted && events[id].status != Cancelled
  }

  // Drafts and published events count against the plan's quota; cancelling or deleting one frees its place.
  lemma QuotaMeans(events: Table, org: Id, id: Id, now: Time)
    requires InOrg(events, org, id) && events[id].status == Published
    ensures id in ActiveEvents(events, org) && id in ActiveEvents(events[id := events[id].(status := Draft)], org)
    ensures var cancelled := events[id := Changed(events[id], Cancel, now).value];
            ActiveEvents(cancelled, org) == ActiveEvents(events, org) - {id}
    ensures var deleted := events[id := Changed(events[id], Delete, now).value];
            ActiveEvents(deleted, org) == ActiveEvents(events, org) - {id}
  {
  }

  class EventDesk {
    var events: Table
    var images: map<Id, seq<string>>
    var cache: map<Id, Entry>

    ghost function View(now: Time): World
      reads this
    {
      World(now, events, cache, map[])
    }

    constructor ()
      ensures Cold(View(0)) && events == map[] && images == map[]
    {
      events, images, cache := map[], map[], map[];
    }

    method PurgePublicEvent(id: Id, fails: bool)
      modifies this`cache
      ensures cache == if fails then old(cache) else old(cache) - {id}
    {
      if !fails {
        cache := cache - {id};
      }
    }

    method GetPublic(id: Id, getFails: bool, setFails: bool, now: Time) returns (r: Reply<Detail, EventError>)
      modifies this`cache
      ensures (View(now), r) == GetPublicEvent(old(View(now)), id, getFails, setFails)
      ensures old(AllCoherent(View(now))) ==> r == Uncached(View(now), id) && AllCoherent(View(now))
      ensures old(AllCoherent(View(now))) ==>
                && (r.Ok? <==> id in events && !events[id].deleted && events[id].status == Published)
                && (r.Ok? ==> Shows(r.value, id, events[id]))
      ensures cache != old(cache) ==> id in cache && cache[id].payload == r.value && cache[id].expires == now + 60
    {
      if !getFails && id in cache && now < cache[id].expires {
        return Ok(cache[id].payload);
      }
      if id !in events || events[id].deleted { return Err(NotFound); }
      var e := events[id];
      if e.status != Published { return Err(NotFound); }
      var out := ToDetail(id, e);
      if !setFails {
        cache := cache[id := Entry(out, now + TTL, now, now)];
      }
      r := Ok(out);
    }

    // The edits in the order they are checked; nothing is written here.
    method EditRow(row: Event, input: Input, u: Slug.Unicode, now: Time) returns (r: Reply<Event, EventError>)
      ensures r == Edited(row, input, u, now)
      ensures EditAnswers(row, input, u, now, r)
      ensures input == NOTHING && DatesOk(row.starts, row.ends) ==> r == Ok(row.(updated := now))
    {
      EditLaws(row, input, u, now);
      hide EditAnswers;
      var e := row;
      if input.title.Some? {
        var title := Slug.Trim(input.title.value, u.space);
        if title == "" { return Err(InvalidTitle); }
        e := e.(title := title);
      }
      if input.slug.Some? {
        var slug := Slug.Lower(Slug.Trim(input.slug.value, u.space), u);
        if !Slug.SlugRe(slug) { return Err(InvalidSlug); }
        e := e.(slug := slug);
      }
      e := e.(description := Or(input.description, e.description), venue := Or(input.venue, e.venue),
              location := Or(input.location, e.location));
      var starts, ends := Or(input.starts, e.starts), Or(input.ends, e.ends);
      if !DatesOk(starts, ends) { return Err(InvalidDates); }
      e := e.(starts := starts, ends := ends);
      if input.capacity.Some? {
        if input.capacity.value <= 0 { return Err(InvalidCapacity); }
        e := e.(capacity := input.capacity);
      }
      if input.clearCover {
        e := e.(cover := None);
      }
      r := Ok(e.(updated := now));
    }

    method UpdateEvent(org: Id, id: Id, input: Input, u: Slug.Unicode, now: Time, purgeFails: bool)
      returns (r: Reply<Detail, EventError>)
      modifies this`events, this`cache
      ensures (View(now), r) == Mutate(old(View(now)), org, id, Update(input, u), purgeFails)
      ensures r == Err(NotFound) <==> !InOrg(old(events), org, id)
      ensures r.Ok? <==>
                && InOrg(old(events), org, id) && Acceptable(old(events)[id], input, u)
                && (var slug := if input.slug.Some? then Slug.Lower(Slug.Trim(input.slug.value, u.space), u) else old(events)[id].slug;
                    forall other :: other in old(events) && other != id && old(events)[other].org == org ==> old(events)[other].slug != slug)
      ensures r.Err? ==> events == old(events) && cache == old(cache)
      ensures r.Ok? ==>
                && events.Keys == old(events).Keys && (forall other :: other in events && other != id ==> events[other] == old(events)[other])
                && Takes(old(events)[id], input, u, now, events[id]) && Shows(r.value, id, events[id])
                && cache == if purgeFails then old(cache) else old(cache) - {id}
    {
      if id !in events || events[id].deleted || events[id].org != org { return Err(NotFound); }
      var edited := EditRow(events[id], input, u, now);
      if edited.Err? { return Err(edited.error); }
      var e := edited.value;
      if !SlugFree(events, e.org, e.slug, id) { return Err(SlugTaken); }
      events := events[id := e];
      PurgePublicEvent(id, purgeFails);
      r := Ok(ToDetail(id, e));
    }

    // Publish, Unpublish and Cancel.
    method Transition(org: Id, id: Id, from: Status, to: Status, now: Time, purgeFails: bool)
      returns (r: Reply<Detail, EventError>)
      modifies this`events, this`cache
      ensures forall op | op in {Publish, Unpublish, Cancel} && Moves(op) == (from, to) ::
                (View(now), r) == Mutate(old(View(now)), org, id, op, purgeFails)
      ensures r == Err(NotFound) <==> !InOrg(old(events), org, id)
      ensures r.Ok? <==> InOrg(old(events), org, id) && old(events)[id].status == from
      ensures r.Err? ==> events == old(events) && cache == old(cache)
      ensures r.Ok? ==>
                && events == old(events)[id := old(events)[id].(status := to, updated := now)] && Shows(r.value, id, events[id])
                && cache == if purgeFails then old(cache) else old(cache) - {id}
    {
      if id !in events || events[id].deleted || events[id].org != org { return Err(NotFound); }
      var e := events[id];
      if e.status != from { return Err(InvalidStatus); }
      e := e.(status := to, updated := now);
      events := events[id := e];
      PurgePublicEvent(id, purgeFails);
      r := Ok(ToDetail(id, e));
    }

    // The row is stamped deleted, not removed.
    method DeleteEvent(org: Id, id: Id, now: Time, purgeFails: bool) returns (r: Reply<(), EventError>)
      modifies this`events, this`cache
      ensures View(now) == Mutate(old(View(now)), org, id, Delete, purgeFails).0
      ensures r.Ok? <==> Mutate(old(View(now)), org, id, Delete, purgeFails).1.Ok?
      ensures r.Ok? <==> InOrg(old(events), org, id)
      ensures events == if r.Ok? then old(events)[id := old(events)[id].(deleted := true)] else old(events)
      ensures cache == if r.Ok? && !purgeFails then old(cache) - {id} else old(cache)
    {
      if id !in events || events[id].deleted || events[id].org != org { return Err(NotFound); }
      events := events[id := events[id].(deleted := true)];
      PurgePublicEvent(id, purgeFails);
      r := Ok(());
    }

    method ReplaceCover(org: Id, id: Id, upload: Upload, now: Time, purgeFails: bool) returns (r: Reply<Detail, EventError>)
      modifies this`events, this`cache
      ensures (View(now), r) == Mutate(old(View(now)), org, id, SetCover(upload), purgeFails)
      ensures r.Ok? <==>
                && InOrg(old(events), org, id) && 0 < upload.size <= 5242880
                && upload.contentType in {"image/jpeg", "image/png", "image/webp"}
      ensures r.Err? ==> events == old(events) && cache == old(cache)
      ensures r.Ok? ==>
                && events == old(events)[id := old(events)[id].(cover := Some(upload.url), updated := now)]
                && Shows(r.value, id, events[id]) && cache == if purgeFails then old(cache) else old(cache) - {id}
    {
      if id !in events || events[id].deleted || events[id].org != org { return Err(NotFound); }
      var refused := CheckCover(upload);
      if refused.Some? { return Err(refused.value); }
      var e := events[id].(cover := Some(upload.url), updated := now);
      events := events[id := e];
      PurgePublicEvent(id, purgeFails);
      r := Ok(ToDetail(id, e));
    }

    method AddGalleryImages(org: Id, id: Id, uploads: seq<Upload>, now: Time, purgeFails: bool)
      returns (r: Reply<seq<string>, EventError>)
      modifies this
      ensures var (w, d) := Mutate(old(View(now)), org, id, AddImages(uploads), purgeFails);
              && View(now) == w && (r.Ok? <==> d.Ok?) && (r.Err? ==> d == Err(r.error))
      ensures r.Ok? ==> |r.value| == |uploads| && forall i :: 0 <= i < |uploads| ==> r.value[i] == uploads[i].url
      ensures images == if r.Ok? then old(images)[id := Gallery(old(images), id) + r.value] else old(images)
      ensures r.Ok? ==>
                && 1 <= |uploads| <= 10 && InOrg(old(events), org, id)
                && events == (if old(events)[id].cover == None || old(events)[id].cover == Some("")
                              then old(events)[id := old(events)[id].(cover := Some(uploads[0].url), updated := now)] else old(events))
    {
      if |uploads| == 0 { return Err(CoverRequired); }
      if |uploads| > MAX_GALLERY_FILES { return Err(TooManyFiles); }
      if id !in events || events[id].deleted || events[id].org != org { return Err(NotFound); }
      var e := events[id];
      var staged: seq<string> := [];
      for i := 0 to |uploads|
        invariant FirstRefused(uploads) == FirstRefused(uploads[i..])
        invariant |staged| == i && forall k :: 0 <= k < i ==> staged[k] == uploads[k].url
      {
        assert uploads[i..][1..] == uploads[i + 1..];
        var refused := CheckCover(uploads[i]);
        if refused.Some? { return Err(refused.value); }
        staged := staged + [uploads[i].url];
      }
      var cloned := Coverless(e);
      images := images[id := Gallery(images, id) + staged];
      if cloned {
        e := e.(cover := Some(staged[0]), updated := now);
        events := events[id := e];
        PurgePublicEvent(id, purgeFails);
      }
      assert events == old(events)[id := e];
      r := Ok(staged);
    }

    // What is checked before any slug is tried, in order.
    method CheckCreation(org: Id, input: Input, limit: int, u: Slug.Unicode) returns (refused: Option<EventError>)
      ensures refused.None? <==> Admissible(events, org, input, limit, u)
      ensures refused != Some(SlugTaken)
      ensures refused == Some(UpgradeRequired) ==> |ActiveEvents(events, org)| >= limit
      ensures refused.None? ==> |ActiveEvents(events, org)| < limit
    {
      var title := Slug.Trim(if input.title.Some? then input.title.value else "", u.space);
      if title == "" { return Some(InvalidTitle); }
      if |ActiveEvents(events, org)| >= limit { return Some(UpgradeRequired); }
      if !DatesOk(input.starts, input.ends) { return Some(InvalidDates); }
      if input.capacity.Some? && input.capacity.value <= 0 { return Some(InvalidCapacity); }
      var asked := Slug.Trim(if input.slug.Some? then input.slug.value else "", u.space);
      if asked != "" && !Slug.SlugRe(Slug.Lower(asked, u)) { return Some(InvalidSlug); }
      refused := None;
    }

    // The slug to try first, and whether it is derived from the title.
    method BaseSlug(input: Input, u: Slug.Unicode) returns (base: string, auto: bool)
      requires Asks(input, u).Some? ==> Slug.SlugRe(Asks(input, u).value)
      ensures Slug.SlugRe(base) && auto == Asks(input, u).None?
      ensures base == if auto then AutoBase(input, u) else Asks(input, u).value
    {
      var asked := Slug.Trim(if input.slug.Some? then input.slug.value else "", u.space);
      auto := asked == "";
      if auto {
        var title := Slug.Trim(if input.title.Some? then input.title.value else "", u.space);
        base := Slug.Slugify(title, u);
        Slug.SlugShape(title, u);
        if base == "" {
          base := "event";
          Slug.EventIsASlug();
        }
      } else {
        base := Slug.Lower(asked, u);
      }
    }

    // Up to four attempts to insert a draft. A slug probe sees visible events only, the insert's
    // unique index all of them.
    method CreateEvent(org: Id, newId: Id, input: Input, limit: int, u: Slug.Unicode, raws: seq<string>, now: Time)
      returns (r: Reply<Detail, EventError>)
      requires newId !in events
      requires |raws| == 4 && forall i :: 0 <= i < 4 ==> Slug.AlnumWord(raws[i]) && |raws[i]| >= 6
      modifies this`events
      ensures r.Err? ==> events == old(events)
      ensures r.Ok? ==>
                && input.title.Some? && newId in events && r == Ok(ToDetail(newId, events[newId]))
                && events == old(events)[newId := Drafted(org, input, events[newId].slug, u, now)]
                && (var e := events[newId];
                    && e.org == org && e.title == Slug.Trim(input.title.value, u.space) && e.description == input.description
                    && e.venue == input.venue && e.location == input.location && e.starts == input.starts && e.ends == input.ends
                    && e.capacity == input.capacity && e.cover.None? && e.status == Draft && e.created == now && e.updated == now
                    && !e.deleted && Shows(r.value, newId, e))
                && Slug.SlugRe(events[newId].slug) && events[newId].slug !in AllSlugs(old(events), org)
      ensures r == Err(SlugTaken) || r.Ok? <==> Admissible(old(events), org, input, limit, u)
      ensures Admissible(old(events), org, input, limit, u) && Asks(input, u).None? ==>
                forall i :: 1 <= i < 100 && Slug.FirstFree(AutoBase(input, u), VisibleSlugs(old(events), org), i) ==>
                  (r.Ok? <==> Slug.Candidate(AutoBase(input, u), i) !in AllSlugs(old(events), org))
      ensures Admissible(old(events), org, input, limit, u) && Asks(input, u).Some? ==>
                (r.Ok? <==> Asks(input, u).value !in AllSlugs(old(events), org))
    {
      var refused := CheckCreation(org, input, limit, u);
      if refused.Some? { return Err(refused.value); }
      hide Admissible;
      var base, auto := BaseSlug(input, u);
      var attempt := 0;
      while attempt < 4
        invariant 0 <= attempt <= 4
        invariant events == old(events)
        invariant attempt > 0 ==> auto && forall i :: 1 <= i < 100 && Slug.FirstFree(base, VisibleSlugs(events, org), i) ==>
                    Slug.Candidate(base, i) in AllSlugs(events, org)
      {
        var slug := base;
        if auto {
          slug := ProbeSlug(org, base, raws[attempt]);
        }
        if slug !in AllSlugs(events, org) {
          var e := Drafted(org, input, slug, u, now);
          events := events[newId := e];
          return Ok(ToDetail(newId, e));
        }
        if !auto { return Err(SlugTaken); }
        attempt := attempt + 1;
      }
      r := Err(SlugTaken);
    }

    method ProbeSlug(org: Id, base: string, raw: string) returns (slug: string)
      requires Slug.SlugRe(base) && Slug.AlnumWord(raw) && |raw| >= 6
      ensures Slug.SlugRe(slug)
      ensures forall i :: 1 <= i < 100 && Slug.FirstFree(base, VisibleSlugs(events, org), i) ==> slug == Slug.Candidate(base, i)
    {
      var random;
      slug, random := Slug.UniqueSlug(base, VisibleSlugs(events, org), raw);
      SameFirstFree(base, VisibleSlugs(events, org));
    }
  }

  // The row a creation inserts.
  function Drafted(org: Id, input: Input, slug: string, u: Slug.Unicode, now: Time): Event {
    Event(org, Slug.Trim(if input.title.Some? then input.title.value else "", u.space), slug, input.description, input.venue,
          input.location, input.starts, input.ends, input.capacity, None, Draft, now, now, false)
  }

  // An admitted draft under a free slug keeps the table's constraints.
  lemma CreationKeepsTable(events: Table, org: Id, newId: Id, input: Input, limit: int, slug: string, u: Slug.Unicode, now: Time)
    requires SoundTable(events) && newId !in events && Admissible(events, org, input, limit, u)
    requires Slug.SlugRe(slug) && slug !in AllSlugs(events, org)
    ensures SoundTable(events[newId := Drafted(org, input, slug, u, now)])
  {
    var e := Drafted(org, input, slug, u, now);
    assert SlugFree(events, org, slug, newId) by {
      forall other | other in events && other != newId && events[other].org == org ensures events[other].slug != slug {
        assert events[other].slug in AllSlugs(events, org);
      }
    }
    RowReplaced(events, newId, e);
  }

  function Moves(op: Op): (Status, Status) {
    match op
    case Publish => (Draft, Published)
    case Unpublish => (Published, Draft)
    case _ => (Published, Cancelled)
  }

  function Gallery(images: map<Id, seq<string>>, id: Id): seq<string> {
    if id in images then images[id] else []
  }

  // Everything a creation demands apart from a free slug.
  predicate Admissible(events: Table, org: Id, input: Input, limit: int, u: Slug.Unicode) {
    && input.title.Some? && Slug.Trim(input.title.value, u.space) != ""
    && |ActiveEvents(events, org)| < limit
    && DatesOk(input.starts, input.ends)
    && (input.capacity.Some? ==> input.capacity.value > 0)
    && (Asks(input, u).Some? ==> Slug.SlugRe(Asks(input, u).value))
  }

  // The slug the caller asked for, if any.
  function Asks(input: Input, u: Slug.Unicode): Option<string> {
    var asked := Slug.Trim(if input.slug.Some? then input.slug.value else "", u.space);
    if asked == "" then None else Some(Slug.Lower(asked, u))
  }

  // The base of automatic slugs.
  function AutoBase(input: Input, u: Slug.Unicode): string {
    var base := Slug.Canonical(Slug.Trim(if input.title.Some? then input.title.value else "", u.space), u);
    if base == "" then "event" else base
  }

  // At most one candidate is the first free one.
  lemma SameFirstFree(base: string, taken: set<string>)
    ensures forall i, j :: 1 <= i && 1 <= j && Slug.FirstFree(base, taken, i) && Slug.FirstFree(base, taken, j) ==> i == j
  {
  }
}
