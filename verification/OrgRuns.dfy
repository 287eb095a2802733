// Last-owner safety, where ownership comes from, and single-use invites, over every run.
module OrgRuns {
  import opened Common
  import opened Org

  // ---------- owners and invites ----------

  // Deleted or not, every organization has an owner.
  ghost predicate Owned(s: State) {
    forall org :: org in s.orgs ==> exists u :: (org, u) in s.members && s.members[(org, u)] == Owner
  }

  ghost predicate OneOpenInvite(s: State) {
    forall i, j :: 0 <= i < |s.invites| && 0 <= j < |s.invites| && s.invites[i].Open()
                   && OpenFor(s.invites[j], s.invites[i].org, s.invites[i].email) ==>
      i == j
  }

  ghost predicate NeverBoth(s: State) {
    forall i :: 0 <= i < |s.invites| ==> s.invites[i].accepted.None? || s.invites[i].declined.None?
  }

  ghost predicate Inv(s: State) {
    Owned(s) && OneOpenInvite(s) && NeverBoth(s)
  }

  lemma OwnerIn(s: State, org: Id, u: Id)
    requires u in Owners(s, org)
    ensures (org, u) in s.members && s.members[(org, u)] == Owner
  {
  }

  // With more than one owner, there is one besides the target.
  lemma AnotherOwner(s: State, org: Id, target: Id) returns (u: Id)
    requires LastOwnerGuard(s, org)
    ensures u != target && (org, u) in s.members && s.members[(org, u)] == Owner
  {
    var owners := Owners(s, org);
    if owners <= {target} {
      CardSubset(owners, {target});
    }
    u :| u in owners && u != target;
    OwnerIn(s, org, u);
  }

  lemma OwnedKept(s: State, op: Op, same: (string, string) -> bool)
    requires Owned(s)
    ensures Owned(Apply(same, s, op))
  {
    var s' := Apply(same, s, op);
    forall org | org in s'.orgs ensures exists u :: (org, u) in s'.members && s'.members[(org, u)] == Owner {
      OrgKeepsOwner(s, op, same, org);
    }
  }

  lemma OrgKeepsOwner(s: State, op: Op, same: (string, string) -> bool, org: Id)
    requires Owned(s) && org in Apply(same, s, op).orgs
    ensures var s' := Apply(same, s, op); exists u :: (org, u) in s'.members && s'.members[(org, u)] == Owner
  {
    var s' := Apply(same, s, op);
    if org !in s.orgs {
      assert s'.members[(org, op.creator)] == Owner;
    } else {
      var u :| (org, u) in s.members && s.members[(org, u)] == Owner;
      if !((org, u) in s'.members && s'.members[(org, u)] == Owner) {
        var other := AnotherOwner(s, org, op.target);
        assert s'.members[(org, other)] == Owner;
      }
    }
  }

  lemma InvitesKept(s: State, op: Op, same: (string, string) -> bool)
    requires OneOpenInvite(s) && NeverBoth(s)
    ensures OneOpenInvite(Apply(same, s, op)) && NeverBoth(Apply(same, s, op))
  {
    if op.OpInvite? {
      InviteKept(s, op.grantor, op.org, op.email, op.found, op.role, op.hash, op.now);
    } else {
      ApplyCloses(s, op, same);
      ClosingKeeps(s, Apply(same, s, op));
    }
  }

  lemma ApplyCloses(s: State, op: Op, same: (string, string) -> bool)
    requires !op.OpInvite?
    ensures Closing(s.invites, Apply(same, s, op).invites)
  {
  }

  lemma ClosingKeeps(s: State, s': State)
    requires OneOpenInvite(s) && NeverBoth(s) && Closing(s.invites, s'.invites)
    ensures OneOpenInvite(s') && NeverBoth(s')
  {
  }

  // No invite reopens, none gets both stamps, and none changes otherwise.
  ghost predicate Closing(invites: seq<Invite>, invites': seq<Invite>) {
    && |invites'| == |invites|
    && forall i :: 0 <= i < |invites| ==>
         || invites'[i] == invites[i]
         || (invites[i].Open() && exists accepted, now :: invites'[i] == Stamp(invites[i], accepted, now))
  }

  lemma InviteKept(s: State, grantor: Id, org: Id, email: string, found: Option<User>, role: Option<Role>, hash: string, now: Time)
    requires OneOpenInvite(s) && NeverBoth(s)
    ensures var s' := InviteMember(s, grantor, org, email, found, role, hash, now).0; OneOpenInvite(s') && NeverBoth(s')
  {
  }

  lemma {:induction false} EveryRunKeepsInv(ops: seq<Op>, same: (string, string) -> bool)
    ensures Inv(Run(same, ops))
  {
    if ops != [] {
      EveryRunKeepsInv(ops[..|ops| - 1], same);
      OwnedKept(Run(same, ops[..|ops| - 1]), ops[|ops| - 1], same);
      InvitesKept(Run(same, ops[..|ops| - 1]), ops[|ops| - 1], same);
    }
  }

  // ---------- the guard and its transaction ----------

  // The guard is read before the transaction. Committed later, a removal leaves an owner if and only
  // if there is then one besides the target.
  lemma RemovalLeavesOwnerIff(s: State, org: Id, target: Id)
    ensures Owners(RemoveRows(s, org, target), org) != {} <==> Owners(s, org) - {target} != {}
  {
    var s' := RemoveRows(s, org, target);
    forall u ensures u in Owners(s', org) <==> u in Owners(s, org) - {target} {
      if u in Owners(s, org) - {target} {
        assert (org, u) in s'.members;
      }
    }
  }

  // Two owners leaving at once, each having passed the guard, leave the organization without one.
  lemma TwoOwnersLeave(s: State, org: Id, a: Id, b: Id)
    requires Exists(s, org) && Owners(s, org) == {a, b} && a != b
    ensures RemoveMember(s, a, org, a).1.Ok? && RemoveMember(s, b, org, b).1.Ok?
    ensures Owners(RemoveRows(RemoveRows(s, org, a), org, b), org) == {}
  {
    OwnerIn(s, org, a);
    OwnerIn(s, org, b);
    RemovalLeavesOwnerIff(RemoveRows(s, org, a), org, b);
    var s1 := RemoveRows(s, org, a);
    forall u | u in Owners(s1, org) ensures u == b {
      OwnerIn(s1, org, u);
      assert u in Owners(s, org);
    }
  }

  // ---------- invites over time ----------

  // A stamp is never taken back, and what an invite grants never changes.
  lemma StampsStay(s: State, op: Op, same: (string, string) -> bool, i: nat)
    requires i < |s.invites|
    ensures var s' := Apply(same, s, op);
            && i < |s'.invites|
            && var (was, is') := (s.invites[i], s'.invites[i]);
               && is'.org == was.org && is'.role == was.role && is'.inviter == was.inviter && is'.email == was.email
               && is'.hash == was.hash
               && (!was.Open() ==> is'.accepted == was.accepted && is'.declined == was.declined)
  {
  }

  // The call creates a membership out of this invite.
  predicate Spends(s: State, op: Op, same: (string, string) -> bool, i: nat) {
    op.OpAccept? && FindInvite(s.invites, op.hash) == Some(i) && Apply(same, s, op).members != s.members
  }

  function TimesSpent(ops: seq<Op>, same: (string, string) -> bool, i: nat): nat {
    if ops == [] then 0
    else
      var n := |ops| - 1;
      TimesSpent(ops[..n], same, i) + if Spends(Run(same, ops[..n]), ops[n], same, i) then 1 else 0
  }

  // One invite creates at most one membership.
  lemma {:induction false} SpentOnce(ops: seq<Op>, same: (string, string) -> bool, i: nat)
    ensures TimesSpent(ops, same, i) <= 1
    ensures TimesSpent(ops, same, i) == 1 ==> i < |Run(same, ops).invites| && Run(same, ops).invites[i].accepted.Some?
  {
    if ops != [] {
      var n := |ops| - 1;
      SpentOnce(ops[..n], same, i);
      var s := Run(same, ops[..n]);
      if i < |s.invites| {
        StampsStay(s, ops[n], same, i);
      }
    }
  }

  // ---------- provenance ----------

  predicate IsOwner(s: State, org: Id, u: Id) {
    (org, u) in s.members && s.members[(org, u)] == Owner
  }

  // The step that made u an owner of the organization by creating it.
  predicate Created(ops: seq<Op>, same: (string, string) -> bool, k: nat, org: Id, u: Id)
    requires k < |ops|
  {
    ops[k] == OpCreate(u, org) && org !in Run(same, ops[..k]).orgs
  }

  // The step that issued an OWNER invite, from an owner of that moment.
  predicate Invited(ops: seq<Op>, same: (string, string) -> bool, j: nat, org: Id, i: nat, giver: Id)
    requires j < |ops|
  {
    && ops[j].OpInvite? && |Run(same, ops[..j]).invites| == i && ops[j].org == org && ops[j].grantor == giver && ops[j].role == Some(Owner)
    && IsOwner(Run(same, ops[..j]), org, giver)
  }

  // Step k made u an owner on the word of `giver`, who was an OWNER at step j: the step itself for an
  // addition or a promotion, the invitation for an accepted invite.
  predicate GrantedBy(ops: seq<Op>, same: (string, string) -> bool, k: nat, org: Id, u: Id, giver: Id, j: nat)
    requires k < |ops|
  {
    && j <= k && IsOwner(Run(same, ops[..j]), org, giver)
    && match ops[k] {
         case OpAdd(grantor, o, found, role, _) =>
           j == k && grantor == giver && o == org && found.Some? && found.value.id == u && role == Some(Owner)
         case OpRole(grantor, o, target, role) => j == k && grantor == giver && o == org && target == u && role == Some(Owner)
         case OpAccept(user, hash, _, _) =>
           var found := FindInvite(Run(same, ops[..k]).invites, hash);
           j < k && user.Some? && user.value.id == u && found.Some? && Invited(ops, same, j, org, found.value, giver)
         case _ => false
       }
  }

  // Ownership that goes back to the creator, grant by grant.
  ghost predicate Descends(ops: seq<Op>, same: (string, string) -> bool, org: Id, u: Id)
    decreases |ops|
  {
    exists k: nat :: k < |ops| && DescendsAt(ops, same, org, u, k)
  }

  ghost predicate DescendsAt(ops: seq<Op>, same: (string, string) -> bool, org: Id, u: Id, k: nat)
    requires k < |ops|
    decreases |ops|, 0
  {
    || Created(ops, same, k, org, u)
    || exists giver: Id, j: nat :: j <= k && GrantedBy(ops, same, k, org, u, giver, j) && Descends(ops[..j], same, org, giver)
  }

  // Every OWNER invite was issued by someone then an owner.
  lemma {:induction false} OwnerInvitesHaveGrantors(ops: seq<Op>, same: (string, string) -> bool, i: nat) returns (j: nat)
    requires i < |Run(same, ops).invites| && Run(same, ops).invites[i].role == Owner
    ensures j < |ops| && Invited(ops, same, j, Run(same, ops).invites[i].org, i, Run(same, ops).invites[i].inviter)
  {
    var n := |ops| - 1;
    var s := Run(same, ops[..n]);
    if i < |s.invites| {
      hide Apply;
      StampsStay(s, ops[n], same, i);
      j := OwnerInvitesHaveGrantors(ops[..n], same, i);
      assert ops[..n][..j] == ops[..j];
    } else {
      j := n;
    }
  }

  // One step back: an owner was one already, or the last step made them one.
  lemma NewOwner(ops: seq<Op>, same: (string, string) -> bool, org: Id, u: Id) returns (giver: Id, j: nat)
    requires ops != [] && IsOwner(Run(same, ops), org, u) && !IsOwner(Run(same, ops[..|ops| - 1]), org, u)
    ensures Created(ops, same, |ops| - 1, org, u) || GrantedBy(ops, same, |ops| - 1, org, u, giver, j)
  {
    var n := |ops| - 1;
    var s := Run(same, ops[..n]);
    giver, j := 0, n;
    match ops[n] {
      case OpAdd(grantor, _, _, _, _) => giver := grantor;
      case OpRole(grantor, _, _, _) => giver := grantor;
      case OpAccept(_, hash, _, _) =>
        var i := FindInvite(s.invites, hash).value;
        giver := s.invites[i].inviter;
        j := OwnerInvitesHaveGrantors(ops[..n], same, i);
        assert ops[..n][..j] == ops[..j];
      case _ =>
    }
  }

  // In every run, every OWNER is the creator, or was added, invited or promoted by someone who was
  // OWNER at that moment and whose own ownership goes back to the creator in the same way.
  lemma {:induction false} EveryOwnerDescends(ops: seq<Op>, same: (string, string) -> bool, org: Id, u: Id)
    requires IsOwner(Run(same, ops), org, u)
    ensures Descends(ops, same, org, u)
    decreases |ops|
  {
    var n := |ops| - 1;
    if IsOwner(Run(same, ops[..n]), org, u) {
      EveryOwnerDescends(ops[..n], same, org, u);
      var k: nat :| k < n && DescendsAt(ops[..n], same, org, u, k);
      Longer(ops, same, org, u, k);
    } else {
      var giver, j := NewOwner(ops, same, org, u);
      if !Created(ops, same, n, org, u) {
        EveryOwnerDescends(ops[..j], same, org, giver);
      }
      assert DescendsAt(ops, same, org, u, n);
    }
  }

  // What happened in a prefix happened in the run.
  lemma Longer(ops: seq<Op>, same: (string, string) -> bool, org: Id, u: Id, k: nat)
    requires ops != [] && k < |ops| - 1 && DescendsAt(ops[..|ops| - 1], same, org, u, k)
    ensures DescendsAt(ops, same, org, u, k)
  {
    var init := ops[..|ops| - 1];
    assert init[..k] == ops[..k];
    if !Created(init, same, k, org, u) {
      var giver: Id, j: nat :| j <= k && GrantedBy(init, same, k, org, u, giver, j) && Descends(init[..j], same, org, giver);
      assert init[..j] == ops[..j];
      assert GrantedBy(ops, same, k, org, u, giver, j);
    }
  }

  // ---------- what one call means ----------

  // In the existing organization, at this level or above.
  predicate Stands(s: State, u: Id, org: Id, roles: set<Role>) {
    org in s.orgs && !s.orgs[org].deleted && (org, u) in s.members && s.members[(org, u)] in roles
  }

  ghost predicate OtherOwners(s: State, org: Id, target: Id) {
    exists u: Id :: u != target && IsOwner(s, org, u)
  }

  // For an owner, the guard asks whether there is another one.
  lemma GuardMeans(s: State, org: Id, target: Id)
    requires IsOwner(s, org, target)
    ensures LastOwnerGuard(s, org) <==> OtherOwners(s, org, target)
  {
    assert (org, target).1 in Owners(s, org);
    if LastOwnerGuard(s, org) {
      var u := AnotherOwner(s, org, target);
      assert IsOwner(s, org, u);
    }
    if OtherOwners(s, org, target) {
      var u: Id :| u != target && IsOwner(s, org, u);
      assert (org, u).1 in Owners(s, org);
      CardSubset({u, target}, Owners(s, org));
      assert |{u, target}| == 2;
    }
  }

  // An OWNER gives a member a known role; the last owner keeps theirs.
  lemma RoleMeans(s: State, grantor: Id, org: Id, target: Id, role: Option<Role>)
    ensures var (s', r) := UpdateMemberRole(s, grantor, org, target, role);
            var asked := Stands(s, grantor, org, {Owner}) && role.Some? && (org, target) in s.members;
            var last := asked && role != Some(Owner) && IsOwner(s, org, target) && !OtherOwners(s, org, target);
            && (r.Ok? <==> asked && !last) && (r == Err(LastOwner) <==> last)
            && (r == Err(Forbidden) <==> Stands(s, grantor, org, {Admin, Member}) || (Stands(s, grantor, org, {Owner}) && role.None?))
            && (r.Err? ==> s' == s)
            && (r.Ok? ==> s' == s.(members := s.members[(org, target) := role.value]) && r.value == role.value)
  {
    if IsOwner(s, org, target) {
      GuardMeans(s, org, target);
    }
  }

  // Anyone leaves, an ADMIN removes those who are not owners, an OWNER anyone; the last owner stays. A
  // plain member removes nobody else.
  lemma RemoveMeans(s: State, grantor: Id, org: Id, target: Id)
    ensures var (s', r) := RemoveMember(s, grantor, org, target);
            var both := Stands(s, grantor, org, {Owner, Admin, Member}) && (org, target) in s.members;
            var may := both && (grantor == target || Stands(s, grantor, org, {Owner})
                                || (Stands(s, grantor, org, {Admin}) && !IsOwner(s, org, target)));
            var last := may && IsOwner(s, org, target) && !OtherOwners(s, org, target);
            && (r.Ok? <==> may && !last) && (r == Err(LastOwner) <==> last) && (r == Err(Forbidden) <==> both && !may)
            && (r.Err? ==> s' == s)
            && (r.Ok? ==>
                  && s'.orgs == s.orgs && s'.invites == s.invites && s'.members == s.members - {(org, target)}
                  && forall c :: c in s'.customs <==> c in s.customs && (c.0 != org || c.1 != target))
  {
    if IsOwner(s, org, target) {
      GuardMeans(s, org, target);
    }
  }

  // An OWNER takes a custom role away, defined and well named, whether or not it was held.
  lemma UnassignMeans(s: State, grantor: Id, org: Id, target: Id, name: string, defined: bool)
    ensures var (s', r) := UnassignRole(s, grantor, org, target, name, defined);
            && (r.Ok? <==> Stands(s, grantor, org, {Owner}) && CustomName(name) && defined)
            && (r.Err? ==> s' == s)
            && (r.Ok? ==> s' == s.(customs := s'.customs)
                          && forall c :: c in s'.customs <==> c in s.customs && c != (org, target, name))
  {
  }

  // Nobody's standing changed, but for this user's in this organization.
  ghost predicate OnlyStanding(s: State, s': State, user: Id, org: Id) {
    forall u: Id, o: Id :: u != user || o != org ==> RoleOf(s', u, o) == RoleOf(s, u, o)
  }

  lemma FoundMeans(s: State, creator: Id, org: Id)
    requires org !in s.orgs
    ensures var s' := CreateOrg(s, creator, org);
            && RoleOf(s', creator, org) == Ok(Owner)
            && (forall u: Id, o: Id :: o != org ==> RoleOf(s', u, o) == RoleOf(s, u, o))
            && (Inv(s) ==> Inv(s'))
  {
    if Inv(s) {
      OwnedKept(s, OpCreate(creator, org), (a, b) => a == b);
      ClosingKeeps(s, CreateOrg(s, creator, org));
    }
  }

  lemma DissolveMeans(s: State, caller: Id, org: Id)
    ensures var (s', r) := DeleteOrg(s, caller, org);
            && (r.Ok? <==> RoleOf(s, caller, org) == Ok(Owner))
            && (r.Ok? ==> forall u: Id :: RoleOf(s', u, org) == Err(OrgNotFound))
            && (forall u: Id, o: Id :: o != org ==> RoleOf(s', u, o) == RoleOf(s, u, o))
            && (Inv(s) ==> Inv(s'))
  {
    if Inv(s) {
      OwnedKept(s, OpDelete(caller, org), (a, b) => a == b);
      ClosingKeeps(s, DeleteOrg(s, caller, org).0);
    }
  }

  lemma RosterGrows(s: State, s': State, org: Id, u: Id, role: Role)
    requires s'.members == s.members[(org, u) := role]
    ensures Roster(s', org) == Roster(s, org) + {u}
  {
    assert (org, u) in s'.members && (org, u).1 == u;
    forall v | v in Roster(s, org) ensures v in Roster(s', org) {
      assert (org, v) in s'.members && (org, v).1 == v;
    }
  }

  lemma AddMeans(s: State, grantor: Id, org: Id, found: Option<User>, role: Option<Role>, limit: int)
    ensures var (s', r) := AddMember(s, grantor, org, found, role, limit);
            && (Inv(s) ==> Inv(s'))
            && if r.Err? then s' == s
               else
                 && found.Some? && RoleOf(s, found.value.id, org) == Err(OrgNotFound)
                 && RoleOf(s', found.value.id, org) == r && OnlyStanding(s, s', found.value.id, org)
                 && RoleOf(s, grantor, org).Ok? && r.value.Level() <= RoleOf(s, grantor, org).value.Level()
                 && |Roster(s', org)| <= limit
  {
    var (s', r) := AddMember(s, grantor, org, found, role, limit);
    if Inv(s) {
      OwnedKept(s, OpAdd(grantor, org, found, role, limit), (a, b) => a == b);
      ClosingKeeps(s, s');
    }
    if r.Ok? {
      RosterGrows(s, s', org, found.value.id, r.value);
    }
  }

  // Granting is undone by revoking, and doing it again changes nothing.
  lemma AssignMeans(s: State, grantor: Id, org: Id, target: Id, name: string, defined: bool)
    ensures var (s', r) := AssignRole(s, grantor, org, target, name, defined);
            && (Inv(s) ==> Inv(s'))
            && if r.Err? then s' == s
               else
                 && AssignRole(s', grantor, org, target, name, defined) == (s', Ok(()))
                 && ((org, target, name) !in s.customs ==>
                       UnassignRole(s', grantor, org, target, name, defined) == (s, Ok(())))
                 && RoleOf(s, grantor, org) == Ok(Owner) && RoleOf(s, target, org).Ok?
  {
    var s' := AssignRole(s, grantor, org, target, name, defined).0;
    if Inv(s) {
      OwnedKept(s, OpAssign(grantor, org, target, name, defined), (a, b) => a == b);
      ClosingKeeps(s, s');
    }
    if (org, target, name) !in s.customs {
      assert s.customs + {(org, target, name)} - {(org, target, name)} == s.customs;
    }
  }

  // The token is found on the new invite, now the newest open one of its address.
  lemma InviteMeans(s: State, grantor: Id, org: Id, email: string, found: Option<User>, role: Option<Role>, hash: string, now: Time)
    ensures var (s', r) := InviteMember(s, grantor, org, email, found, role, hash, now);
            && (Inv(s) ==> Inv(s'))
            && if r.Err? then s' == s
               else
                 var n := |s.invites|;
                 && |s'.invites| == n + 1 && PendingInvite(s'.invites, org, email) == Some(n) && s'.invites[n].Pending(now)
                 && (FindInvite(s.invites, hash).None? ==> FindInvite(s'.invites, hash) == Some(n))
                 && RoleOf(s, grantor, org).Ok? && s'.invites[n].role.Level() <= RoleOf(s, grantor, org).value.Level()
                 && (forall i :: 0 <= i < n && !OpenFor(s.invites[i], org, email) ==> s'.invites[i] == s.invites[i])
                 && (OneOpenInvite(s) ==> forall i :: 0 <= i < n ==> !OpenFor(s'.invites[i], org, email))
  {
    var (s', r) := InviteMember(s, grantor, org, email, found, role, hash, now);
    if Inv(s) {
      InviteKept(s, grantor, org, email, found, role, hash, now);
    }
    if r.Ok? {
      var n := |s.invites|;
      if FindInvite(s.invites, hash).None? {
        var init := s'.invites[..n];
        assert forall i :: 0 <= i < n ==> init[i].hash == s.invites[i].hash;
        assert FindInvite(init, hash).None?;
      }
    }
  }

  // Whoever presents the token, whenever: refused, and nothing changes.
  ghost predicate NeverGrants(s: State, hash: string) {
    forall caller, now, limit, same :: AcceptInvite(s, caller, hash, now, limit, same).1.Err?
                                       && AcceptInvite(s, caller, hash, now, limit, same).0 == s
  }

  lemma RevokeMeans(s: State, caller: Id, org: Id, i: nat, now: Time)
    ensures var (s', r) := RevokeInvite(s, caller, org, i, now);
            && (Inv(s) ==> Inv(s'))
            && if r.Err? then s' == s
               else
                 && i < |s.invites| && !s'.invites[i].Open()
                 && (FindInvite(s.invites, s.invites[i].hash) == Some(i) ==> NeverGrants(s', s.invites[i].hash))
                 && RevokeInvite(s', caller, org, i, now).1 == Err(InvalidInvite)
  {
    var (s', r) := RevokeInvite(s, caller, org, i, now);
    if Inv(s) {
      OwnedKept(s, OpRevoke(caller, org, i, now), (a, b) => a == b);
      ApplyCloses(s, OpRevoke(caller, org, i, now), (a, b) => a == b);
      ClosingKeeps(s, s');
    }
    if r.Ok? {
      SameHashes(s.invites, s'.invites, s.invites[i].hash);
    }
  }

  // Stamping does not change what a token finds.
  lemma {:induction false} SameHashes(invites: seq<Invite>, invites': seq<Invite>, hash: string)
    requires |invites'| == |invites| && forall i :: 0 <= i < |invites| ==> invites'[i].hash == invites[i].hash
    ensures FindInvite(invites', hash) == FindInvite(invites, hash)
  {
    if invites != [] {
      SameHashes(invites[..|invites| - 1], invites'[..|invites| - 1], hash);
    }
  }

  lemma AcceptKeeps(s: State, caller: Option<User>, hash: string, now: Time, limit: int, same: (string, string) -> bool)
    requires Inv(s)
    ensures Inv(AcceptInvite(s, caller, hash, now, limit, same).0)
  {
    OwnedKept(s, OpAccept(caller, hash, now, limit), same);
    ApplyCloses(s, OpAccept(caller, hash, now, limit), same);
    ClosingKeeps(s, AcceptInvite(s, caller, hash, now, limit, same).0);
  }

  // Accepting again, at any time and under any cap, answers the same and changes nothing.
  lemma AcceptTwice(s: State, caller: Option<User>, hash: string, now: Time, limit: int, same: (string, string) -> bool, later: Time, cap: int)
    ensures var (s', r) := AcceptInvite(s, caller, hash, now, limit, same);
            r.Ok? ==> AcceptInvite(s', caller, hash, later, cap, same) == (s', r)
  {
    var (s', r) := AcceptInvite(s, caller, hash, now, limit, same);
    if r.Ok? {
      SameHashes(s.invites, s'.invites, hash);
      hide FindInvite;
    }
  }

  // Accepted: the caller is a member and the stamp is on. A membership appears only with its stamp.
  lemma AcceptMeans(s: State, caller: Option<User>, hash: string, now: Time, limit: int, same: (string, string) -> bool)
    ensures var (s', r) := AcceptInvite(s, caller, hash, now, limit, same);
            if r.Err? then s' == s
            else
              var i := FindInvite(s.invites, hash);
              && i.Some? && caller.Some? && |s'.invites| == |s.invites| && s'.invites[i.value].accepted.Some?
              && RoleOf(s', caller.value.id, s.invites[i.value].org) == r
              && OnlyStanding(s, s', caller.value.id, s.invites[i.value].org)
              && (s'.members != s.members ==> s.invites[i.value].Open() && r.value == s.invites[i.value].role
                                              && |Roster(s', s.invites[i.value].org)| <= limit)
  {
    var (s', r) := AcceptInvite(s, caller, hash, now, limit, same);
    if r.Ok? && s'.members != s.members {
      var inv := s.invites[FindInvite(s.invites, hash).value];
      RosterGrows(s, s', inv.org, caller.value.id, inv.role);
    }
  }

  // Declined: the token grants nothing to anyone any more, and declining again is a no-op.
  lemma DeclineMeans(s: State, caller: Option<User>, hash: string, now: Time, same: (string, string) -> bool)
    ensures var (s', r) := DeclineInvite(s, caller, hash, now, same);
            && (Inv(s) ==> Inv(s')) && s'.members == s.members
            && if r.Err? then s' == s
               else NeverGrants(s', hash) && forall later :: DeclineInvite(s', caller, hash, later, same) == (s', Ok(()))
  {
    var (s', r) := DeclineInvite(s, caller, hash, now, same);
    if Inv(s) {
      OwnedKept(s, OpDecline(caller, hash, now), same);
      ApplyCloses(s, OpDecline(caller, hash, now), same);
      ClosingKeeps(s, s');
    }
    if r.Ok? {
      SameHashes(s.invites, s'.invites, hash);
    }
  }
}
