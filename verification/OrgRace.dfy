// Membership and invite calls check, then write in a transaction of their own. What can happen in
// between: every call but those that only create, delete or assign is split here.
module OrgRace {
  import opened Common
  import opened Org
  import opened OrgRuns

  // What a call that passed its checks goes on to write.
  datatype Write =
    | SetRole(org: Id, user: Id, role: Role)
    | Drop(org: Id, user: Id)
    | Join(org: Id, user: Id, role: Role, invite: Option<nat>, now: Time)   // an addition, or an invite accepted
    | Mark(org: Id, stamped: nat, accepted: bool, now: Time)
    | Issue(org: Id, pending: Option<nat>, issued: Invite, now: Time)

  datatype Racing = Racing(db: State, calls: map<Id, Write>)

  datatype Step =
    | Whole(op: Op)
    | Begin(call: Id, op: Op)
    | Finish(call: Id)

  // The write a call intends, if its checks pass on the rows as they are.
  function Writes(same: (string, string) -> bool, s: State, op: Op): Option<Write> {
    match op
    case OpAdd(grantor, org, found, role, limit) =>
      var r := AddMember(s, grantor, org, found, role, limit).1;
      if r.Ok? then Some(Join(org, found.value.id, r.value, None, 0)) else None
    case OpRole(grantor, org, target, role) =>
      var r := UpdateMemberRole(s, grantor, org, target, role).1;
      if r.Ok? then Some(SetRole(org, target, r.value)) else None
    case OpRemove(grantor, org, target) =>
      if RemoveMember(s, grantor, org, target).1.Ok? then Some(Drop(org, target)) else None
    case OpInvite(grantor, org, email, found, role, hash, now) =>
      if FindInvite(s.invites, hash).None? && InviteMember(s, grantor, org, email, found, role, hash, now).1.Ok? then
        Some(Issue(org, PendingInvite(s.invites, org, email),
                   Invite(org, email, OrMember(role), hash, now + INVITE_TTL, None, None, grantor), now))
      else None
    case OpRevoke(caller, org, i, now) =>
      if RevokeInvite(s, caller, org, i, now).1.Ok? then Some(Mark(org, i, false, now)) else None
    case OpAccept(caller, hash, now, limit) =>
      var found := FindInvite(s.invites, hash);
      if AcceptInvite(s, caller, hash, now, limit, same).1.Err? || !s.invites[found.value].Pending(now) then None
      else
        var inv := s.invites[found.value];
        if (inv.org, caller.value.id) in s.members then Some(Mark(inv.org, found.value, true, now))
        else Some(Join(inv.org, caller.value.id, inv.role, found, now))
    case OpDecline(caller, hash, now) =>
      var found := FindInvite(s.invites, hash);
      if DeclineInvite(s, caller, hash, now, same).1.Err? || !s.invites[found.value].Open() then None
      else Some(Mark(s.invites[found.value].org, found.value, false, now))
    case _ => None
  }

  // Its transaction, whenever it comes. An update of a row that has gone changes nothing; an insert of
  // a membership that has appeared is refused, and its stamp with it; stamps are unconditional.
  function Commit(s: State, w: Write): State {
    match w
    case SetRole(org, user, role) =>
      if (org, user) in s.members then s.(members := s.members[(org, user) := role]) else s
    case Drop(org, user) => RemoveRows(s, org, user)
    case Join(org, user, role, invite, now) =>
      if (org, user) in s.members then s
      else
        s.(members := s.members[(org, user) := role],
           invites := if invite.Some? then Marked(s.invites, invite.value, true, now) else s.invites)
    case Mark(_, i, accepted, now) => s.(invites := Marked(s.invites, i, accepted, now))
    case Issue(_, pending, issued, now) =>
      s.(invites := (if pending.Some? then Marked(s.invites, pending.value, false, now) else s.invites) + [issued])
  }

  function Marked(invites: seq<Invite>, i: nat, accepted: bool, now: Time): seq<Invite> {
    if i < |invites| then invites[i := Stamp(invites[i], accepted, now)] else invites
  }

  // A call is its checks and then its write.
  lemma WholeIsCommit(same: (string, string) -> bool, s: State, op: Op)
    requires Writes(same, s, op).Some?
    ensures Apply(same, s, op) == Commit(s, Writes(same, s, op).value)
  {
  }

  function Next(same: (string, string) -> bool, r: Racing, step: Step): Racing {
    match step
    case Whole(op) => r.(db := Apply(same, r.db, op))
    case Begin(call, op) =>
      if call !in r.calls && Writes(same, r.db, op).Some?
      then r.(calls := r.calls[call := Writes(same, r.db, op).value]) else r
    case Finish(call) =>
      if call in r.calls then Racing(Commit(r.db, r.calls[call]), r.calls - {call}) else r
  }

  function Race(same: (string, string) -> bool, steps: seq<Step>): Racing {
    if steps == [] then Racing(EMPTY, map[])
    else Next(same, Race(same, steps[..|steps| - 1]), steps[|steps| - 1])
  }

  // ---------- when a write is safe ----------

  predicate InviteAt(s: State, i: nat, org: Id) {
    i < |s.invites| && s.invites[i].org == org
  }

  // What the checks fix for good: the organization and the invites named are there.
  predicate GoodWrite(s: State, w: Write) {
    match w
    case SetRole(org, _, _) => org in s.orgs
    case Drop(org, _) => org in s.orgs
    case Join(org, _, _, invite, _) => invite.Some? ==> InviteAt(s, invite.value, org)
    case Mark(org, i, _, _) => InviteAt(s, i, org)
    case Issue(org, pending, issued, _) =>
      (pending.Some? ==> InviteAt(s, pending.value, org)) && issued.org == org && issued.Open()
  }

  ghost predicate GoodWrites(r: Racing) {
    forall call :: call in r.calls ==> GoodWrite(r.db, r.calls[call])
  }

  // The write takes an OWNER of that moment away.
  predicate Dethrones(s: State, w: Write) {
    (w.Drop? || (w.SetRole? && w.role != Owner)) && IsOwner(s, w.org, w.user)
  }

  ghost predicate OtherOwner(s: State, org: Id, user: Id) {
    exists u :: u != user && IsOwner(s, org, u)
  }

  // Taking an OWNER away leaves another; a stamp does not meet the opposite one; no other invite to
  // the address is open when one is issued.
  ghost predicate Harmless(s: State, w: Write) {
    match w
    case SetRole(org, user, _) => Dethrones(s, w) ==> OtherOwner(s, org, user)
    case Drop(org, user) => Dethrones(s, w) ==> OtherOwner(s, org, user)
    case Join(org, user, _, invite, _) =>
      (org, user) !in s.members && invite.Some? && invite.value < |s.invites| ==> s.invites[invite.value].declined.None?
    case Mark(_, i, accepted, _) =>
      i < |s.invites| ==> if accepted then s.invites[i].declined.None? else s.invites[i].accepted.None?
    case Issue(org, pending, issued, _) =>
      && (pending.Some? && pending.value < |s.invites| ==> s.invites[pending.value].accepted.None?)
      && OnlyPending(s, org, issued.email, pending)
  }

  ghost predicate OnlyPending(s: State, org: Id, email: string, pending: Option<nat>) {
    forall j: nat :: j < |s.invites| && OpenFor(s.invites[j], org, email) ==> pending == Some(j)
  }

  lemma OwnerWriteIff(s: State, w: Write)
    requires Inv(s) && (w.SetRole? || w.Drop?) && GoodWrite(s, w)
    ensures Inv(Commit(s, w)) <==> Harmless(s, w)
  {
    var s' := Commit(s, w);
    assert OneOpenInvite(s') && NeverBoth(s');
    if Harmless(s, w) {
      forall org | org in s'.orgs ensures exists u :: (org, u) in s'.members && s'.members[(org, u)] == Owner {
        var u :| (org, u) in s.members && s.members[(org, u)] == Owner;
        if org == w.org && u == w.user && Dethrones(s, w) {
          var v :| v != w.user && IsOwner(s, org, v);
          assert s'.members[(org, v)] == Owner;
        } else {
          assert (org, u) in s'.members && s'.members[(org, u)] == Owner;
        }
      }
    } else {
      forall u | (w.org, u) in s'.members ensures s'.members[(w.org, u)] != Owner {
        assert u != w.user ==> !IsOwner(s, w.org, u);
      }
    }
  }

  lemma MarkIff(s: State, i: nat, accepted: bool, now: Time)
    requires OneOpenInvite(s) && NeverBoth(s) && i < |s.invites|
    ensures var s' := s.(invites := Marked(s.invites, i, accepted, now));
            OneOpenInvite(s') && (NeverBoth(s') <==> if accepted then s.invites[i].declined.None? else s.invites[i].accepted.None?)
  {
    var s' := s.(invites := Marked(s.invites, i, accepted, now));
    assert !s'.invites[i].Open();
  }

  lemma IssueIff(s: State, w: Write)
    requires Inv(s) && w.Issue? && GoodWrite(s, w)
    ensures Inv(Commit(s, w)) <==> Harmless(s, w)
  {
    var s1 := s.(invites := if w.pending.Some? then Marked(s.invites, w.pending.value, false, w.now) else s.invites);
    if w.pending.Some? {
      MarkIff(s, w.pending.value, false, w.now);
    }
    var n, s' := |s1.invites|, Commit(s, w);
    assert s'.invites == s1.invites + [w.issued] && Owned(s');
    assert forall j: nat :: j < n ==> s'.invites[j] == s1.invites[j];
    assert s'.invites[n] == w.issued;
    if OnlyPending(s, w.org, w.issued.email, w.pending) {
      assert forall j: nat :: j < n ==> !OpenFor(s1.invites[j], w.org, w.issued.email);
    } else {
      var j: nat :| j < |s.invites| && OpenFor(s.invites[j], w.org, w.issued.email) && w.pending != Some(j);
      assert OpenFor(s'.invites[j], s'.invites[n].org, s'.invites[n].email);
    }
  }

  // One write, whenever it comes, keeps the guarantees exactly when it is harmless then.
  lemma CommitSafeIff(s: State, w: Write)
    requires Inv(s) && GoodWrite(s, w)
    ensures Inv(Commit(s, w)) <==> Harmless(s, w)
  {
    match w
    case SetRole(_, _, _) => OwnerWriteIff(s, w);
    case Drop(_, _) => OwnerWriteIff(s, w);
    case Issue(_, _, _, _) => IssueIff(s, w);
    case Mark(_, i, accepted, now) =>
      MarkIff(s, i, accepted, now);
      assert Owned(Commit(s, w));
    case Join(org, user, role, invite, now) =>
      if (org, user) !in s.members {
        JoinOwned(s, w);
        if invite.Some? {
          MarkIff(s, invite.value, true, now);
        }
      }
  }

  lemma JoinOwned(s: State, w: Write)
    requires Owned(s) && w.Join? && (w.org, w.user) !in s.members
    ensures Owned(Commit(s, w))
  {
    var s' := Commit(s, w);
    forall org | org in s'.orgs ensures exists u :: (org, u) in s'.members && s'.members[(org, u)] == Owner {
      var u :| (org, u) in s.members && s.members[(org, u)] == Owner;
      assert (org, u) in s'.members && s'.members[(org, u)] == Owner;
    }
  }

  lemma ApplyKeeps(same: (string, string) -> bool, s: State, op: Op)
    requires Inv(s)
    ensures Inv(Apply(same, s, op))
  {
    OwnedKept(s, op, same);
    InvitesKept(s, op, same);
  }

  lemma BeginGood(same: (string, string) -> bool, s: State, op: Op)
    requires Writes(same, s, op).Some?
    ensures GoodWrite(s, Writes(same, s, op).value)
  {
  }

  // What the checks found makes the write harmless there and then.
  lemma BeginHarmless(same: (string, string) -> bool, s: State, op: Op)
    requires Inv(s) && Writes(same, s, op).Some?
    ensures GoodWrite(s, Writes(same, s, op).value) && Harmless(s, Writes(same, s, op).value)
  {
    hide Inv, Harmless;
    BeginGood(same, s, op);
    WholeIsCommit(same, s, op);
    ApplyKeeps(same, s, op);
    CommitSafeIff(s, Writes(same, s, op).value);
  }

  // Organizations stay, and invites keep their place and their organization.
  ghost predicate Grows(s: State, s': State) {
    && s.orgs.Keys <= s'.orgs.Keys && |s.invites| <= |s'.invites|
    && forall i :: 0 <= i < |s.invites| ==> s'.invites[i].org == s.invites[i].org
  }

  lemma OrgsStay(same: (string, string) -> bool, s: State, op: Op)
    ensures s.orgs.Keys <= Apply(same, s, op).orgs.Keys
  {
  }

  lemma InvitesStay(same: (string, string) -> bool, s: State, op: Op)
    ensures |s.invites| <= |Apply(same, s, op).invites|
    ensures forall i :: 0 <= i < |s.invites| ==> Apply(same, s, op).invites[i].org == s.invites[i].org
  {
    hide Apply;
    forall i: nat | i < |s.invites| ensures i < |Apply(same, s, op).invites| && Apply(same, s, op).invites[i].org == s.invites[i].org {
      StampsStay(s, op, same, i);
    }
    if |s.invites| > 0 {
      StampsStay(s, op, same, |s.invites| - 1);
    }
  }

  lemma NextGrows(same: (string, string) -> bool, r: Racing, step: Step)
    ensures Grows(r.db, Next(same, r, step).db)
  {
    hide Apply;
    if step.Whole? {
      OrgsStay(same, r.db, step.op);
      InvitesStay(same, r.db, step.op);
    }
  }

  lemma GoodWritesKept(same: (string, string) -> bool, r: Racing, step: Step)
    requires GoodWrites(r)
    ensures GoodWrites(Next(same, r, step))
  {
    NextGrows(same, r, step);
    var r' := Next(same, r, step);
    forall call | call in r'.calls ensures GoodWrite(r'.db, r'.calls[call]) {
      if call in r.calls {
        assert r'.calls[call] == r.calls[call] && GoodWrite(r.db, r.calls[call]);
      } else {
        BeginGood(same, r.db, step.op);
      }
    }
  }

  ghost predicate HarmlessStep(r: Racing, step: Step) {
    step.Finish? && step.call in r.calls ==> Harmless(r.db, r.calls[step.call])
  }

  lemma StepSafeIff(same: (string, string) -> bool, r: Racing, step: Step)
    requires Inv(r.db) && GoodWrites(r)
    ensures Inv(Next(same, r, step).db) <==> HarmlessStep(r, step)
  {
    hide Inv, Harmless;
    match step
    case Whole(op) => ApplyKeeps(same, r.db, op);
    case Begin(_, _) =>
    case Finish(call) =>
      if call in r.calls {
        CommitSafeIff(r.db, r.calls[call]);
      }
  }

  ghost predicate SafeThroughout(same: (string, string) -> bool, steps: seq<Step>) {
    Inv(Race(same, steps).db) && (steps != [] ==> SafeThroughout(same, steps[..|steps| - 1]))
  }

  ghost predicate AllHarmless(same: (string, string) -> bool, steps: seq<Step>) {
    steps != [] ==>
      var init := steps[..|steps| - 1];
      AllHarmless(same, init) && HarmlessStep(Race(same, init), steps[|steps| - 1])
  }

  // Over every interleaving: each organization keeps an OWNER, each address at most one open invite
  // and no invite both stamps, throughout, exactly when every write was harmless when it came.
  lemma {:induction false} RaceSafeIff(same: (string, string) -> bool, steps: seq<Step>)
    ensures SafeThroughout(same, steps) <==> AllHarmless(same, steps)
    ensures GoodWrites(Race(same, steps))
  {
    if steps != [] {
      var n := |steps| - 1;
      RaceSafeIff(same, steps[..n]);
      GoodWritesKept(same, Race(same, steps[..n]), steps[n]);
      if AllHarmless(same, steps[..n]) {
        StepSafeIff(same, Race(same, steps[..n]), steps[n]);
      }
    }
  }

  // ---------- calls on one organization do not overlap ----------

  function OrgOf(s: State, hash: string): Option<Id> {
    var found := FindInvite(s.invites, hash);
    if found.Some? then Some(s.invites[found.value].org) else None
  }

  // The organization a call is about; an invite's own for a call that presents its token.
  function AboutOp(s: State, op: Op): Option<Id> {
    match op
    case OpAccept(_, hash, _, _) => OrgOf(s, hash)
    case OpDecline(_, hash, _) => OrgOf(s, hash)
    case OpCreate(_, org) => Some(org)
    case OpDelete(_, org) => Some(org)
    case OpAdd(_, org, _, _, _) => Some(org)
    case OpRole(_, org, _, _) => Some(org)
    case OpRemove(_, org, _) => Some(org)
    case OpAssign(_, org, _, _, _) => Some(org)
    case OpUnassign(_, org, _, _, _) => Some(org)
    case OpInvite(_, org, _, _, _, _, _) => Some(org)
    case OpRevoke(_, org, _, _) => Some(org)
  }

  function About(r: Racing, step: Step): Option<Id> {
    match step
    case Whole(op) => AboutOp(r.db, op)
    case Begin(_, op) => AboutOp(r.db, op)
    case Finish(call) => if call in r.calls then Some(r.calls[call].org) else None
  }

  // While a call is in flight, the only step about its organization is the one that finishes it.
  predicate Exclusive(r: Racing, step: Step) {
    forall call :: call in r.calls && About(r, step) == Some(r.calls[call].org) ==> step == Finish(call)
  }

  predicate AllExclusive(same: (string, string) -> bool, steps: seq<Step>) {
    steps != [] ==>
      var init := steps[..|steps| - 1];
      AllExclusive(same, init) && Exclusive(Race(same, init), steps[|steps| - 1])
  }

  // The rows of one organization are as they were.
  ghost predicate SameOrg(s: State, s': State, org: Id) {
    && (forall u :: (org, u) in s'.members <==> (org, u) in s.members)
    && (forall u :: (org, u) in s.members ==> s'.members[(org, u)] == s.members[(org, u)])
    && |s.invites| <= |s'.invites|
    && (forall i :: 0 <= i < |s.invites| && s.invites[i].org == org ==> s'.invites[i] == s.invites[i])
    && (forall i :: 0 <= i < |s'.invites| && s'.invites[i].org == org ==> i < |s.invites| && s.invites[i].org == org)
  }

  lemma ApplyElsewhere(same: (string, string) -> bool, s: State, op: Op, org: Id)
    requires AboutOp(s, op) != Some(org)
    ensures SameOrg(s, Apply(same, s, op), org)
  {
  }

  lemma CommitElsewhere(s: State, w: Write, org: Id)
    requires GoodWrite(s, w) && w.org != org
    ensures SameOrg(s, Commit(s, w), org)
  {
  }

  lemma HarmlessStays(s: State, s': State, w: Write)
    requires GoodWrite(s, w) && Harmless(s, w) && SameOrg(s, s', w.org)
    ensures Harmless(s', w)
  {
    if w.SetRole? || w.Drop? {
      if Dethrones(s', w) {
        var u :| u != w.user && IsOwner(s, w.org, u);
        assert IsOwner(s', w.org, u);
      }
    } else if w.Issue? {
      forall j: nat | j < |s'.invites| && OpenFor(s'.invites[j], w.org, w.issued.email) ensures w.pending == Some(j) {
        assert OpenFor(s.invites[j], w.org, w.issued.email);
      }
    }
  }

  ghost predicate AllReady(r: Racing) {
    forall call :: call in r.calls ==> GoodWrite(r.db, r.calls[call]) && Harmless(r.db, r.calls[call])
  }

  lemma ExclusiveStep(same: (string, string) -> bool, r: Racing, step: Step)
    requires Inv(r.db) && AllReady(r) && Exclusive(r, step)
    ensures HarmlessStep(r, step) && AllReady(Next(same, r, step))
  {
    var r' := Next(same, r, step);
    GoodWritesKept(same, r, step);
    hide Inv, Harmless;
    forall call | call in r'.calls ensures Harmless(r'.db, r'.calls[call]) {
      if call in r.calls {
        var w := r.calls[call];
        assert GoodWrite(r.db, w) && Harmless(r.db, w);
        if step.Whole? {
          ApplyElsewhere(same, r.db, step.op, w.org);
          HarmlessStays(r.db, r'.db, w);
        } else if step.Finish? && step.call in r.calls {
          CommitElsewhere(r.db, r.calls[step.call], w.org);
          HarmlessStays(r.db, r'.db, w);
        }
      } else {
        BeginHarmless(same, r.db, step.op);
      }
    }
  }

  // Calls on different organizations may interleave as they like.
  lemma {:induction false} ExclusiveRunsAreSafe(same: (string, string) -> bool, steps: seq<Step>)
    requires AllExclusive(same, steps)
    ensures SafeThroughout(same, steps) && AllReady(Race(same, steps))
  {
    if steps != [] {
      var n := |steps| - 1;
      ExclusiveRunsAreSafe(same, steps[..n]);
      ExclusiveStep(same, Race(same, steps[..n]), steps[n]);
      StepSafeIff(same, Race(same, steps[..n]), steps[n]);
    }
  }

  // ---------- one invite, one acceptance ----------

  // What the step writes of a membership or invite call.
  function Written(same: (string, string) -> bool, r: Racing, step: Step): Option<Write> {
    match step
    case Whole(op) => Writes(same, r.db, op)
    case Begin(_, _) => None
    case Finish(call) => if call in r.calls then Some(r.calls[call]) else None
  }

  // The step accepts invite i: for somebody who is a member already, or with a membership.
  predicate Takes(same: (string, string) -> bool, r: Racing, step: Step, i: nat) {
    var w := Written(same, r, step);
    && i < |r.db.invites| && w.Some?
    && ((w.value.Mark? && w.value.accepted && w.value.stamped == i)
        || (w.value.Join? && w.value.invite == Some(i) && (w.value.org, w.value.user) !in r.db.members))
  }

  function Taken(same: (string, string) -> bool, steps: seq<Step>, i: nat): nat {
    if steps == [] then 0
    else
      var n := |steps| - 1;
      Taken(same, steps[..n], i) + if Takes(same, Race(same, steps[..n]), steps[n], i) then 1 else 0
  }

  // Every acceptance of invite i finds it unaccepted.
  predicate AllFirst(same: (string, string) -> bool, steps: seq<Step>, i: nat) {
    steps != [] ==>
      var r := Race(same, steps[..|steps| - 1]);
      && AllFirst(same, steps[..|steps| - 1], i)
      && (Takes(same, r, steps[|steps| - 1], i) ==> r.db.invites[i].accepted.None?)
  }

  predicate Accepted(s: State, i: nat) {
    i < |s.invites| && s.invites[i].accepted.Some?
  }

  lemma OtherwiseSame(same: (string, string) -> bool, s: State, op: Op)
    requires Writes(same, s, op).None?
    ensures Apply(same, s, op).invites == s.invites
  {
  }

  lemma CommitAccepts(s: State, w: Write, i: nat)
    requires GoodWrite(s, w)
    ensures Accepted(Commit(s, w), i) <==>
              Accepted(s, i) || (i < |s.invites| && ((w.Mark? && w.accepted && w.stamped == i)
                                   || (w.Join? && w.invite == Some(i) && (w.org, w.user) !in s.members)))
  {
  }

  // A step accepts an invite, or leaves its acceptance alone.
  lemma TakesAccepts(same: (string, string) -> bool, r: Racing, step: Step, i: nat)
    requires GoodWrites(r)
    ensures Accepted(Next(same, r, step).db, i) <==> Accepted(r.db, i) || Takes(same, r, step, i)
  {
    hide Apply, Commit, Writes;
    var w := Written(same, r, step);
    if w.Some? {
      if step.Whole? {
        BeginGood(same, r.db, step.op);
        WholeIsCommit(same, r.db, step.op);
      } else {
        assert GoodWrite(r.db, w.value);
      }
      CommitAccepts(r.db, w.value, i);
    } else if step.Whole? {
      OtherwiseSame(same, r.db, step.op);
    }
  }

  // Over every interleaving: an invite is accepted at most once, and so makes at most one membership,
  // exactly when each acceptance finds it unaccepted.
  lemma {:induction false} TakenOnceIff(same: (string, string) -> bool, steps: seq<Step>, i: nat)
    ensures Taken(same, steps, i) <= 1 <==> AllFirst(same, steps, i)
    ensures Taken(same, steps, i) >= 1 <==> Accepted(Race(same, steps).db, i)
  {
    hide Written, Next, Harmless, Inv, GoodWrites;
    if steps == [] {
      EmptyRace(same);
    } else {
      var n := |steps| - 1;
      TakenOnceIff(same, steps[..n], i);
      RaceSafeIff(same, steps[..n]);
      TakesAccepts(same, Race(same, steps[..n]), steps[n], i);
    }
  }

  // ---------- the windows are real ----------

  lemma RaceSnoc(same: (string, string) -> bool, steps: seq<Step>, step: Step)
    ensures Race(same, steps + [step]) == Next(same, Race(same, steps), step)
  {
    assert (steps + [step])[..|steps|] == steps;
  }

  // An organization founded by 1, who adds 2 as a second owner.
  function TwoOwners(): seq<Step> {
    [Whole(OpCreate(1, 9))] + [Whole(OpAdd(1, 9, Some(User(2, "", true)), Some(Owner), 5))]
  }

  lemma TwoOwnersState(same: (string, string) -> bool)
    ensures Race(same, TwoOwners()) ==
      Racing(State(map[9 := Organization(1, false)], map[(9, 1) := Owner, (9, 2) := Owner], {}, []), map[])
  {
    var create, add := Whole(OpCreate(1, 9)), Whole(OpAdd(1, 9, Some(User(2, "", true)), Some(Owner), 5));
    assert [] + [create] == [create];
    RaceSnoc(same, [], create);
    RaceSnoc(same, [create], add);
    var s := Race(same, [create]).db;
    assert s.members == map[(9, 1) := Owner];
    assert Roster(s, 9) == {1};
  }

  // From an empty database: one owner leaves while the other is demoting themselves. Both pass the
  // guard, and the organization has no OWNER.
  lemma LastOwnersLost(same: (string, string) -> bool)
    ensures var steps := TwoOwners() + [Begin(1, OpRemove(1, 9, 1))] + [Begin(2, OpRole(2, 9, 2, Some(Member)))] + [Finish(1)] + [Finish(2)];
            var s := Race(same, steps).db;
            Exists(s, 9) && Owners(s, 9) == {}
  {
    var leave, demote := Begin(1, OpRemove(1, 9, 1)), Begin(2, OpRole(2, 9, 2, Some(Member)));
    TwoOwnersState(same);
    RaceSnoc(same, TwoOwners(), leave);
    RaceSnoc(same, TwoOwners() + [leave], demote);
    RaceSnoc(same, TwoOwners() + [leave] + [demote], Finish(1));
    RaceSnoc(same, TwoOwners() + [leave] + [demote] + [Finish(1)], Finish(2));
    hide Race, TwoOwners;
    var s := Race(same, TwoOwners()).db;
    BothMayGo(same, s);
    var s2 := Commit(Commit(s, Drop(9, 1)), SetRole(9, 2, Member));
    assert s2.members == map[(9, 2) := Member];
  }

  lemma BothMayGo(same: (string, string) -> bool, s: State)
    requires s == State(map[9 := Organization(1, false)], map[(9, 1) := Owner, (9, 2) := Owner], {}, [])
    ensures Writes(same, s, OpRemove(1, 9, 1)) == Some(Drop(9, 1))
    ensures Writes(same, s, OpRole(2, 9, 2, Some(Member))) == Some(SetRole(9, 2, Member))
  {
    assert {1, 2} <= Owners(s, 9) by {
      assert (9, 1) in s.members && (9, 2) in s.members;
    }
    assert |{1, 2}| == 2;
    CardSubset({1, 2}, Owners(s, 9));
    assert LastOwnerGuard(s, 9);
  }

  // An organization founded by 1, with one invite.
  function Invited(): seq<Step> {
    [Whole(OpCreate(1, 9))] + [Whole(OpInvite(1, 9, "e", None, None, "h", 0))]
  }

  const INVITE := Invite(9, "e", Member, "h", INVITE_TTL, None, None, 1)

  lemma InvitedState(same: (string, string) -> bool)
    ensures Race(same, Invited()) == Racing(State(map[9 := Organization(1, false)], map[(9, 1) := Owner], {}, [INVITE]), map[])
  {
    var create, invite := OpCreate(1, 9), OpInvite(1, 9, "e", None, None, "h", 0);
    assert [] + [Whole(create)] == [Whole(create)];
    RaceSnoc(same, [], Whole(create));
    RaceSnoc(same, [Whole(create)], Whole(invite));
    FoundedState(same);
    FirstInvite(same);
    hide Race, Apply;
    assert Race(same, []) == Racing(EMPTY, map[]) by {
      EmptyRace(same);
    }
  }

  const FOUNDED := State(map[9 := Organization(1, false)], map[(9, 1) := Owner], {}, [])

  lemma EmptyRace(same: (string, string) -> bool)
    ensures Race(same, []) == Racing(EMPTY, map[])
  {
  }

  lemma FoundedState(same: (string, string) -> bool)
    ensures Apply(same, EMPTY, OpCreate(1, 9)) == FOUNDED
  {
  }

  lemma FirstInvite(same: (string, string) -> bool)
    ensures Apply(same, FOUNDED, OpInvite(1, 9, "e", None, None, "h", 0)) ==
      State(map[9 := Organization(1, false)], map[(9, 1) := Owner], {}, [INVITE])
  {
    assert [] + [INVITE] == [INVITE];
  }

  // On that state, both answers pass their checks.
  lemma BothAnswersPass(same: (string, string) -> bool, s: State)
    requires same("e", "e") && s == State(map[9 := Organization(1, false)], map[(9, 1) := Owner], {}, [INVITE])
    ensures Writes(same, s, OpAccept(Some(User(3, "e", true)), "h", 1, 5)) == Some(Join(9, 3, Member, Some(0), 1))
    ensures Writes(same, s, OpDecline(Some(User(3, "e", true)), "h", 1)) == Some(Mark(9, 0, false, 1))
  {
    assert [INVITE][..0] == [];
    assert FindInvite(s.invites, "h") == Some(0);
    assert Roster(s, 9) == {1};
    assert s.invites[0] == INVITE;
  }

  // From an empty database: an invite accepted and declined at once carries both stamps.
  lemma BothStamps(same: (string, string) -> bool)
    requires same("e", "e")
    ensures var u := Some(User(3, "e", true));
            var steps := Invited() + [Begin(1, OpAccept(u, "h", 1, 5))] + [Begin(2, OpDecline(u, "h", 1))] + [Finish(1)] + [Finish(2)];
            !NeverBoth(Race(same, steps).db)
  {
    var u := Some(User(3, "e", true));
    var accept, decline := Begin(1, OpAccept(u, "h", 1, 5)), Begin(2, OpDecline(u, "h", 1));
    InvitedState(same);
    RaceSnoc(same, Invited(), accept);
    RaceSnoc(same, Invited() + [accept], decline);
    RaceSnoc(same, Invited() + [accept] + [decline], Finish(1));
    RaceSnoc(same, Invited() + [accept] + [decline] + [Finish(1)], Finish(2));
    hide Race, Writes, Invited;
    var s := Race(same, Invited()).db;
    BothAnswersPass(same, s);
    var r := Racing(s, map[1 := Join(9, 3, Member, Some(0), 1), 2 := Mark(9, 0, false, 1)]);
    assert Race(same, Invited() + [accept] + [decline]) == r;
    var s2 := Commit(Commit(s, r.calls[1]), r.calls[2]);
    assert s2.invites[0].accepted.Some? && s2.invites[0].declined.Some?;
  }

  const TAKEN := State(map[9 := Organization(1, false)], map[(9, 1) := Owner, (9, 3) := Member], {}, [INVITE.(accepted := Some(1))])
  const LEFT := TAKEN.(members := map[(9, 1) := Owner])

  lemma TakenAndLeft(same: (string, string) -> bool)
    ensures Commit(FOUNDED.(invites := [INVITE]), Join(9, 3, Member, Some(0), 1)) == TAKEN
    ensures Apply(same, TAKEN, OpRemove(1, 9, 3)) == LEFT
    ensures Commit(LEFT, Join(9, 3, Member, Some(0), 1)) == TAKEN
  {
    assert map[(9, 1) := Owner][(9, 3) := Member] == TAKEN.members && TAKEN.members - {(9, 3)} == LEFT.members;
    assert [INVITE][0 := INVITE.(accepted := Some(1))] == TAKEN.invites && TAKEN.invites[0 := TAKEN.invites[0]] == TAKEN.invites;
  }

  // From an empty database: accepted twice at once, the member removed in between. One invite has made
  // two memberships.
  lemma SpentTwice(same: (string, string) -> bool)
    requires same("e", "e")
    ensures var accept := OpAccept(Some(User(3, "e", true)), "h", 1, 5);
            var steps := Invited() + [Begin(1, accept)] + [Begin(2, accept)] + [Finish(1)] + [Whole(OpRemove(1, 9, 3))];
            Race(same, steps).db == LEFT && Race(same, steps + [Finish(2)]).db == TAKEN
  {
    var accept := OpAccept(Some(User(3, "e", true)), "h", 1, 5);
    var a := Invited() + [Begin(1, accept)];
    var b := a + [Begin(2, accept)];
    var c := b + [Finish(1)];
    InvitedState(same);
    RaceSnoc(same, Invited(), Begin(1, accept));
    RaceSnoc(same, a, Begin(2, accept));
    RaceSnoc(same, b, Finish(1));
    RaceSnoc(same, c, Whole(OpRemove(1, 9, 3)));
    RaceSnoc(same, c + [Whole(OpRemove(1, 9, 3))], Finish(2));
    hide Race, Writes, Invited, Commit, Apply;
    BothAnswersPass(same, Race(same, Invited()).db);
    TakenAndLeft(same);
  }
}
