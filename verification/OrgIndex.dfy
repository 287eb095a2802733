// The Casbin groupings as an index of memberships and custom roles: what each organization call
// synchronises, and where a repair of the index goes wrong.
module OrgIndex {
  import opened Common
  import opened Org
  import Slug
  import Text
  import Iam
  import IamSync

  function RoleName(role: Role): (name: string)
    ensures Iam.IsFixedRole(name) && '@' !in name
  {
    match role
    case Owner => "OWNER"
    case Admin => "ADMIN"
    case Member => "MEMBER"
  }

  // ---------- what each call synchronises ----------

  function Sync(g: set<Iam.Grouping>, u: Iam.Uuids, user: Id, org: Id, role: Option<Role>): set<Iam.Grouping> {
    Iam.SyncMembership(g, u.show(user), u.show(org), if role.Some? then Some(RoleName(role.value)) else None)
  }

  // A deletion drops every row of the organization's domain.
  function Dropped(g: set<Iam.Grouping>, u: Iam.Uuids, org: Id): set<Iam.Grouping> {
    set row | row in g && row.dom != u.show(org)
  }

  // A removal also revokes the custom roles the member held.
  function Revoked(s: State, g: set<Iam.Grouping>, u: Iam.Uuids, org: Id, target: Id): set<Iam.Grouping> {
    set row | row in Sync(g, u, target, org, None)
              && !(row.user == u.show(target) && row.dom == u.show(org) && (org, target, row.role) in s.customs)
  }

  // What a call that succeeds does to the groupings after its commit.
  function Synchronised(same: (string, string) -> bool, s: State, op: Op, g: set<Iam.Grouping>, u: Iam.Uuids): set<Iam.Grouping> {
    if !Drawn(s, op) then g
    else match op {
      case OpCreate(creator, org) => Sync(g, u, creator, org, Some(Owner))
      case OpDelete(caller, org) => if DeleteOrg(s, caller, org).1.Ok? then Dropped(g, u, org) else g
      case OpAdd(grantor, org, found, role, limit) =>
        var r := AddMember(s, grantor, org, found, role, limit).1;
        if r.Ok? then Sync(g, u, found.value.id, org, Some(r.value)) else g
      case OpRole(grantor, org, target, role) =>
        if UpdateMemberRole(s, grantor, org, target, role).1.Ok? then Sync(g, u, target, org, role) else g
      case OpRemove(grantor, org, target) =>
        if RemoveMember(s, grantor, org, target).1.Ok? then Revoked(s, g, u, org, target) else g
      case OpAssign(grantor, org, target, name, defined) =>
        if AssignRole(s, grantor, org, target, name, defined).1.Ok?
        then Iam.SyncCustom(g, u.show(target), u.show(org), name, true) else g
      case OpUnassign(grantor, org, target, name, defined) =>
        if UnassignRole(s, grantor, org, target, name, defined).1.Ok?
        then Iam.SyncCustom(g, u.show(target), u.show(org), name, false) else g
      case OpAccept(user, hash, now, limit) =>
        var (s', r) := AcceptInvite(s, user, hash, now, limit, same);
        if r.Ok? && s'.members != s.members
        then Sync(g, u, user.value.id, s.invites[FindInvite(s.invites, hash).value].org, Some(r.value)) else g
      case OpInvite(_, _, _, _, _, _, _) => g
      case OpRevoke(_, _, _, _) => g
      case OpDecline(_, _, _) => g
    }
  }

  function Index(same: (string, string) -> bool, ops: seq<Op>, u: Iam.Uuids): set<Iam.Grouping> {
    if ops == [] then {}
    else
      var n := |ops| - 1;
      Synchronised(same, Run(same, ops[..n]), ops[n], Index(same, ops[..n], u), u)
  }

  // ---------- the index is exact ----------

  function MemberRow(s: State, u: Iam.Uuids, m: (Id, Id)): Iam.Grouping
    requires m in s.members
  {
    Iam.Grouping(u.show(m.1), RoleName(s.members[m]), u.show(m.0))
  }

  function CustomRow(u: Iam.Uuids, c: (Id, Id, string)): Iam.Grouping {
    Iam.Grouping(u.show(c.1), c.2, u.show(c.0))
  }

  predicate ByMember(s: State, u: Iam.Uuids, row: Iam.Grouping) {
    exists m :: m in s.members && Exists(s, m.0) && row == MemberRow(s, u, m)
  }

  predicate ByCustom(s: State, u: Iam.Uuids, row: Iam.Grouping) {
    exists c :: c in s.customs && Exists(s, c.0) && row == CustomRow(u, c)
  }

  // The rows are exactly those that the memberships and custom roles of existing organizations call for.
  ghost predicate Mirrors(s: State, g: set<Iam.Grouping>, u: Iam.Uuids) {
    forall row: Iam.Grouping :: row in g <==> ByMember(s, u, row) || ByCustom(s, u, row)
  }

  // Memberships belong to known organizations, custom roles to members, under valid names.
  ghost predicate Tables(s: State) {
    && (forall m :: m in s.members ==> m.0 in s.orgs)
    && (forall c :: c in s.customs ==> (c.0, c.1) in s.members && CustomName(c.2))
  }

  lemma TablesKept(same: (string, string) -> bool, s: State, op: Op)
    requires Tables(s)
    ensures Tables(Apply(same, s, op))
  {
  }

  lemma CustomNameShape(name: string)
    requires CustomName(name)
    ensures !Iam.IsFixedRole(name) && '@' !in name
  {
    Text.JoinSplit(name, '-');
    Slug.JoinChars(Text.Split(name, '-'));
    assert Slug.SlugChars(name);
    assert Iam.IsFixedRole(name) ==> !Slug.Alnum(name[0]);
  }

  lemma ShowInjective(u: Iam.Uuids, a: Id, b: Id)
    requires u.Valid() && u.show(a) == u.show(b)
    ensures a == b
  {
    assert u.parse(u.show(a)) == Some(a);
  }

  // A user's row in a domain is backed by that user's own membership or custom role there.
  lemma BackedHere(s: State, u: Iam.Uuids, user: Id, org: Id, role: string)
    requires u.Valid() && Tables(s)
    ensures var row := Iam.Grouping(u.show(user), role, u.show(org));
            && (ByMember(s, u, row) <==> (org, user) in s.members && Exists(s, org) && role == RoleName(s.members[(org, user)]))
            && (ByCustom(s, u, row) <==> (org, user, role) in s.customs && Exists(s, org))
  {
    var row := Iam.Grouping(u.show(user), role, u.show(org));
    if m :| m in s.members && Exists(s, m.0) && row == MemberRow(s, u, m) {
      ShowInjective(u, m.0, org);
      ShowInjective(u, m.1, user);
      assert m == (org, user);
    }
    if c :| c in s.customs && Exists(s, c.0) && row == CustomRow(u, c) {
      ShowInjective(u, c.0, org);
      ShowInjective(u, c.1, user);
      assert c == (org, user, role);
    }
    if (org, user) in s.members && Exists(s, org) && role == RoleName(s.members[(org, user)]) {
      assert row == MemberRow(s, u, (org, user));
    }
    if (org, user, role) in s.customs && Exists(s, org) {
      assert row == CustomRow(u, (org, user, role));
    }
  }

  // Rows elsewhere are backed as before when the tables agree elsewhere.
  ghost predicate AgreeElsewhere(s: State, s': State, user: Id, org: Id) {
    && (forall o :: o != org ==> (Exists(s', o) <==> Exists(s, o)))
    && (Exists(s', org) || Exists(s, org) ==> Exists(s', org) && (Exists(s, org) || forall m :: m in s.members ==> m.0 != org))
    && (forall m: (Id, Id) :: m != (org, user) ==> (m in s'.members <==> m in s.members) && (m in s.members ==> s'.members[m] == s.members[m]))
    && (forall c: (Id, Id, string) :: !(c.0 == org && c.1 == user) ==> (c in s'.customs <==> c in s.customs))
  }

  lemma BackedElsewhere(s: State, s': State, u: Iam.Uuids, user: Id, org: Id, row: Iam.Grouping)
    requires u.Valid() && Tables(s) && Tables(s') && AgreeElsewhere(s, s', user, org)
    requires row.user != u.show(user) || row.dom != u.show(org)
    ensures ByMember(s', u, row) <==> ByMember(s, u, row)
    ensures ByCustom(s', u, row) <==> ByCustom(s, u, row)
  {
    MemberElsewhere(s, s', u, user, org, row);
    CustomElsewhere(s, s', u, user, org, row);
  }

  lemma MemberElsewhere(s: State, s': State, u: Iam.Uuids, user: Id, org: Id, row: Iam.Grouping)
    requires AgreeElsewhere(s, s', user, org) && (row.user != u.show(user) || row.dom != u.show(org))
    ensures ByMember(s', u, row) <==> ByMember(s, u, row)
  {
    if m :| m in s.members && Exists(s, m.0) && row == MemberRow(s, u, m) {
      assert m in s'.members && Exists(s', m.0) && row == MemberRow(s', u, m);
    }
    if m :| m in s'.members && Exists(s', m.0) && row == MemberRow(s', u, m) {
      assert m in s.members && Exists(s, m.0) && row == MemberRow(s, u, m);
    }
  }

  lemma CustomElsewhere(s: State, s': State, u: Iam.Uuids, user: Id, org: Id, row: Iam.Grouping)
    requires Tables(s) && AgreeElsewhere(s, s', user, org) && (row.user != u.show(user) || row.dom != u.show(org))
    ensures ByCustom(s', u, row) <==> ByCustom(s, u, row)
  {
    if c :| c in s.customs && Exists(s, c.0) && row == CustomRow(u, c) {
      assert c in s'.customs && Exists(s', c.0);
    }
    if c :| c in s'.customs && Exists(s', c.0) && row == CustomRow(u, c) {
      assert c in s.customs && (c.0, c.1) in s.members && Exists(s, c.0);
    }
  }

  // One user's standing in one organization changed, and their rows there were brought into line.
  lemma OneChanged(s: State, s': State, g: set<Iam.Grouping>, g': set<Iam.Grouping>, u: Iam.Uuids, user: Id, org: Id)
    requires u.Valid() && Tables(s) && Tables(s') && Mirrors(s, g, u) && Exists(s', org) && AgreeElsewhere(s, s', user, org)
    requires forall row: Iam.Grouping :: row.user != u.show(user) || row.dom != u.show(org) ==> (row in g' <==> row in g)
    requires forall role ::
      Iam.Grouping(u.show(user), role, u.show(org)) in g' <==>
        ((org, user) in s'.members && role == RoleName(s'.members[(org, user)])) || (org, user, role) in s'.customs
    ensures Mirrors(s', g', u)
  {
    forall row: Iam.Grouping ensures row in g' <==> ByMember(s', u, row) || ByCustom(s', u, row) {
      if row.user == u.show(user) && row.dom == u.show(org) {
        assert row == Iam.Grouping(u.show(user), row.role, u.show(org));
        BackedHere(s', u, user, org, row.role);
      } else {
        BackedElsewhere(s, s', u, user, org, row);
      }
    }
  }

  // A membership set, changed or removed, with the custom roles as they were or gone with it.
  lemma RoleSynced(s: State, s': State, g: set<Iam.Grouping>, u: Iam.Uuids, user: Id, org: Id, role: Role)
    requires u.Valid() && Tables(s) && Mirrors(s, g, u) && Exists(s', org) && AgreeElsewhere(s, s', user, org)
    requires s'.members == s.members[(org, user) := role] && s'.customs == s.customs && Tables(s')
    ensures Mirrors(s', Sync(g, u, user, org, Some(role)), u)
  {
    var g' := Sync(g, u, user, org, Some(role));
    forall name
      ensures Iam.Grouping(u.show(user), name, u.show(org)) in g' <==> name == RoleName(role) || (org, user, name) in s'.customs
    {
      BackedHere(s, u, user, org, name);
      if (org, user, name) in s.customs {
        CustomNameShape(name);
      }
    }
    OneChanged(s, s', g, g', u, user, org);
  }

  lemma RemoveMirrors(s: State, g: set<Iam.Grouping>, u: Iam.Uuids, grantor: Id, org: Id, target: Id)
    requires u.Valid() && Tables(s) && Mirrors(s, g, u) && RemoveMember(s, grantor, org, target).1.Ok?
    ensures Mirrors(RemoveMember(s, grantor, org, target).0, Revoked(s, g, u, org, target), u)
  {
    var s' := RemoveMember(s, grantor, org, target).0;
    var g' := Revoked(s, g, u, org, target);
    forall name ensures Iam.Grouping(u.show(target), name, u.show(org)) !in g' {
      BackedHere(s, u, target, org, name);
    }
    OneChanged(s, s', g, g', u, target, org);
  }

  lemma CustomMirrors(s: State, s': State, g: set<Iam.Grouping>, u: Iam.Uuids, user: Id, org: Id, name: string, grant: bool)
    requires u.Valid() && Tables(s) && Mirrors(s, g, u) && Exists(s, org) && CustomName(name) && Tables(s')
    requires s' == s.(customs := if grant then s.customs + {(org, user, name)} else s.customs - {(org, user, name)})
    ensures Mirrors(s', Iam.SyncCustom(g, u.show(user), u.show(org), name, grant), u)
  {
    var g' := Iam.SyncCustom(g, u.show(user), u.show(org), name, grant);
    CustomNameShape(name);
    forall role
      ensures Iam.Grouping(u.show(user), role, u.show(org)) in g' <==>
        ((org, user) in s'.members && role == RoleName(s'.members[(org, user)])) || (org, user, role) in s'.customs
    {
      BackedHere(s, u, user, org, role);
    }
    OneChanged(s, s', g, g', u, user, org);
  }

  lemma DeleteMirrors(s: State, g: set<Iam.Grouping>, u: Iam.Uuids, caller: Id, org: Id)
    requires u.Valid() && Mirrors(s, g, u) && DeleteOrg(s, caller, org).1.Ok?
    ensures Mirrors(DeleteOrg(s, caller, org).0, Dropped(g, u, org), u)
  {
    var s' := DeleteOrg(s, caller, org).0;
    forall row: Iam.Grouping ensures row in Dropped(g, u, org) <==> ByMember(s', u, row) || ByCustom(s', u, row) {
      if m :| m in s'.members && Exists(s', m.0) && row == MemberRow(s', u, m) {
        assert m in s.members && Exists(s, m.0) && row == MemberRow(s, u, m);
        if row.dom == u.show(org) { ShowInjective(u, m.0, org); }
      }
      if c :| c in s'.customs && Exists(s', c.0) && row == CustomRow(u, c) {
        assert c in s.customs && Exists(s, c.0);
        if row.dom == u.show(org) { ShowInjective(u, c.0, org); }
      }
      if row in Dropped(g, u, org) {
        if m :| m in s.members && Exists(s, m.0) && row == MemberRow(s, u, m) {
          assert m in s'.members && Exists(s', m.0) && row == MemberRow(s', u, m);
        } else {
          var c :| c in s.customs && Exists(s, c.0) && row == CustomRow(u, c);
          assert c in s'.customs && Exists(s', c.0);
        }
      }
    }
  }

  lemma SameTables(s: State, s': State, g: set<Iam.Grouping>, u: Iam.Uuids)
    requires Mirrors(s, g, u) && s'.members == s.members && s'.orgs == s.orgs && s'.customs == s.customs
    ensures Mirrors(s', g, u)
  {
    forall row: Iam.Grouping ensures (ByMember(s', u, row) <==> ByMember(s, u, row)) && (ByCustom(s', u, row) <==> ByCustom(s, u, row)) {
      if m :| m in s.members && Exists(s, m.0) && row == MemberRow(s, u, m) {
        assert m in s'.members && Exists(s', m.0) && row == MemberRow(s', u, m);
      }
      if m :| m in s'.members && Exists(s', m.0) && row == MemberRow(s', u, m) {
        assert m in s.members && Exists(s, m.0) && row == MemberRow(s, u, m);
      }
      if c :| c in s.customs && Exists(s, c.0) && row == CustomRow(u, c) {
        assert c in s'.customs && Exists(s', c.0);
      }
      if c :| c in s'.customs && Exists(s', c.0) && row == CustomRow(u, c) {
        assert c in s.customs && Exists(s, c.0);
      }
    }
  }

  lemma AcceptMirrors(same: (string, string) -> bool, s: State, g: set<Iam.Grouping>, u: Iam.Uuids, op: Op)
    requires u.Valid() && Tables(s) && Mirrors(s, g, u) && op.OpAccept?
    ensures Mirrors(Apply(same, s, op), Synchronised(same, s, op, g, u), u)
  {
    hide Mirrors, Tables, Sync;
    var s' := Apply(same, s, op);
    if s'.members != s.members {
      var inv := s.invites[FindInvite(s.invites, op.hash).value];
      TablesKept(same, s, op);
      RoleSynced(s, s', g, u, op.user.value.id, inv.org, inv.role);
    } else {
      SameTables(s, s', g, u);
    }
  }

  lemma CreateMirrors(s: State, g: set<Iam.Grouping>, u: Iam.Uuids, creator: Id, org: Id)
    requires u.Valid() && Tables(s) && Mirrors(s, g, u) && org !in s.orgs && Tables(CreateOrg(s, creator, org))
    ensures Mirrors(CreateOrg(s, creator, org), Sync(g, u, creator, org, Some(Owner)), u)
  {
    RoleSynced(s, CreateOrg(s, creator, org), g, u, creator, org, Owner);
  }

  lemma AddMirrors(s: State, g: set<Iam.Grouping>, u: Iam.Uuids, grantor: Id, org: Id, found: Option<User>, role: Option<Role>, limit: int)
    requires u.Valid() && Tables(s) && Mirrors(s, g, u) && AddMember(s, grantor, org, found, role, limit).1.Ok?
    requires Tables(AddMember(s, grantor, org, found, role, limit).0)
    ensures Mirrors(AddMember(s, grantor, org, found, role, limit).0,
                    Sync(g, u, found.value.id, org, Some(AddMember(s, grantor, org, found, role, limit).1.value)), u)
  {
    RoleSynced(s, AddMember(s, grantor, org, found, role, limit).0, g, u, found.value.id, org, OrMember(role));
  }

  lemma RoleMirrors(s: State, g: set<Iam.Grouping>, u: Iam.Uuids, grantor: Id, org: Id, target: Id, role: Option<Role>)
    requires u.Valid() && Tables(s) && Mirrors(s, g, u) && UpdateMemberRole(s, grantor, org, target, role).1.Ok?
    requires Tables(UpdateMemberRole(s, grantor, org, target, role).0)
    ensures Mirrors(UpdateMemberRole(s, grantor, org, target, role).0, Sync(g, u, target, org, role), u)
  {
    RoleSynced(s, UpdateMemberRole(s, grantor, org, target, role).0, g, u, target, org, role.value);
  }

  lemma SynchronisedMirrors(same: (string, string) -> bool, s: State, op: Op, g: set<Iam.Grouping>, u: Iam.Uuids)
    requires u.Valid() && Tables(s) && Mirrors(s, g, u)
    ensures Mirrors(Apply(same, s, op), Synchronised(same, s, op, g, u), u)
  {
    hide Mirrors, Tables, Sync, Dropped, Revoked;
    var s' := Apply(same, s, op);
    TablesKept(same, s, op);
    if op.OpAccept? {
      AcceptMirrors(same, s, g, u, op);
    } else if s'.members == s.members && s'.orgs == s.orgs && s'.customs == s.customs && Synchronised(same, s, op, g, u) == g {
      SameTables(s, s', g, u);
    } else if op.OpCreate? {
      CreateMirrors(s, g, u, op.creator, op.org);
    } else if op.OpDelete? {
      DeleteMirrors(s, g, u, op.caller, op.org);
    } else if op.OpAdd? {
      AddMirrors(s, g, u, op.grantor, op.org, op.found, op.role, op.limit);
    } else if op.OpRole? {
      RoleMirrors(s, g, u, op.grantor, op.org, op.target, op.role);
    } else if op.OpRemove? {
      RemoveMirrors(s, g, u, op.grantor, op.org, op.target);
    } else {
      CustomMirrors(s, s', g, u, op.target, op.org, op.name, op.OpAssign?);
    }
  }

  // While every synchronisation succeeds, in every run the groupings are exactly what the memberships
  // and custom roles of the organizations that exist call for.
  lemma {:induction false} EveryRunMirrors(same: (string, string) -> bool, ops: seq<Op>, u: Iam.Uuids)
    requires u.Valid()
    ensures Mirrors(Run(same, ops), Index(same, ops, u), u) && Tables(Run(same, ops))
  {
    if ops != [] {
      var n := |ops| - 1;
      EveryRunMirrors(same, ops[..n], u);
      SynchronisedMirrors(same, Run(same, ops[..n]), ops[n], Index(same, ops[..n], u), u);
      TablesKept(same, Run(same, ops[..n]), ops[n]);
    }
  }

  // ---------- repairing one user's rows ----------

  // What a repair reads: every membership row, also in soft-deleted organizations.
  function MembershipsOf(s: State, user: Id): map<Id, Iam.Membership> {
    map m | m in s.members && m.1 == user ::
      m.0 := Iam.Membership(RoleName(s.members[m]), set c | c in s.customs && c.0 == m.0 && c.1 == user :: c.2)
  }

  lemma MembershipsOfMeans(s: State, user: Id, org: Id)
    ensures org in MembershipsOf(s, user) <==> (org, user) in s.members
    ensures (org, user) in s.members ==>
              var m := MembershipsOf(s, user)[org];
              && m.role == RoleName(s.members[(org, user)])
              && forall name :: name in m.customs <==> (org, user, name) in s.customs
  {
    if (org, user) in s.members {
      assert (org, user).0 == org;
      var m := MembershipsOf(s, user)[org];
      forall name | (org, user, name) in s.customs ensures name in m.customs {
        assert (org, user, name).2 == name;
      }
    }
  }

  // Rows that mirror the tables are all tidy, so a repair reaches the membership truth.
  lemma MirroredIsTidy(s: State, g: set<Iam.Grouping>, u: Iam.Uuids, user: string, kept: set<string>)
    requires u.Valid() && Tables(s) && Mirrors(s, g, u)
    ensures IamSync.AllTidy(g, user, kept, u)
  {
    forall row | row in g && row.user == user ensures IamSync.Tidy(row, kept, u) {
      if c :| c in s.customs && Exists(s, c.0) && row == CustomRow(u, c) {
        CustomNameShape(c.2);
      }
    }
  }

  lemma CalledMeans(s: State, u: Iam.Uuids, user: Id, row: Iam.Grouping)
    ensures var ms := MembershipsOf(s, user);
            row in Iam.Called(u.show(user), ms, ms.Keys, u) <==>
              exists org :: (org, user) in s.members && CalledAt(s, u, user, row, org)
  {
    var ms := MembershipsOf(s, user);
    if row in Iam.Called(u.show(user), ms, ms.Keys, u) {
      var o :| o in ms && row.dom == u.show(o) && row.role in {ms[o].role} + ms[o].customs;
      MembershipsOfMeans(s, user, o);
      assert CalledAt(s, u, user, row, o);
    }
    if org :| (org, user) in s.members && CalledAt(s, u, user, row, org) {
      MembershipsOfMeans(s, user, org);
      assert org in ms && row.role in {ms[org].role} + ms[org].customs;
    }
  }

  predicate CalledAt(s: State, u: Iam.Uuids, user: Id, row: Iam.Grouping, org: Id) {
    && (org, user) in s.members && row.user == u.show(user) && row.dom == u.show(org)
    && (row.role == RoleName(s.members[(org, user)]) || (org, user, row.role) in s.customs)
  }

  // Repairing a user's rows leaves an exact index exact if and only if none of the user's
  // organizations has been deleted: a soft-deleted one still has its memberships, and gets its
  // groupings back.
  lemma RepairMirrorsIff(s: State, g: set<Iam.Grouping>, u: Iam.Uuids, user: Id)
    requires u.Valid() && Tables(s) && Mirrors(s, g, u)
    ensures Mirrors(s, Iam.Synced(g, u.show(user), MembershipsOf(s, user), u), u)
            <==> forall org :: (org, user) in s.members ==> Exists(s, org)
  {
    var ms, name := MembershipsOf(s, user), u.show(user);
    var g' := Iam.Synced(g, name, ms, u);
    MirroredIsTidy(s, g, u, name, Iam.Kept(ms, u));
    IamSync.ConvergesIff(g, name, ms, u);
    if org :| (org, user) in s.members && !Exists(s, org) {
      var row := Iam.Grouping(name, RoleName(s.members[(org, user)]), u.show(org));
      assert CalledAt(s, u, user, row, org);
      CalledMeans(s, u, user, row);
      assert row in g';
      BackedHere(s, u, user, org, row.role);
    } else {
      forall row: Iam.Grouping ensures row in g' <==> row in g {
        RepairChangesNothing(s, g, u, user, row);
      }
      assert g' == g;
    }
  }

  lemma RepairChangesNothing(s: State, g: set<Iam.Grouping>, u: Iam.Uuids, user: Id, row: Iam.Grouping)
    requires u.Valid() && Tables(s) && Mirrors(s, g, u)
    requires forall org :: (org, user) in s.members ==> Exists(s, org)
    ensures row in IamSync.Truth(g, u.show(user), MembershipsOf(s, user), u) <==> row in g
  {
    CalledMeans(s, u, user, row);
    if org :| (org, user) in s.members && CalledAt(s, u, user, row, org) {
      BackedHere(s, u, user, org, row.role);
      assert row == Iam.Grouping(u.show(user), row.role, u.show(org));
    }
    if row in g && row.user == u.show(user) {
      if m :| m in s.members && Exists(s, m.0) && row == MemberRow(s, u, m) {
        ShowInjective(u, m.1, user);
        assert m == (m.0, user);
        assert CalledAt(s, u, user, row, m.0);
      } else {
        var c :| c in s.customs && Exists(s, c.0) && row == CustomRow(u, c);
        ShowInjective(u, c.1, user);
        assert c == (c.0, user, c.2);
        assert CalledAt(s, u, user, row, c.0);
      }
    }
  }
}
