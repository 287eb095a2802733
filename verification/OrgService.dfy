// The organization service: rows updated in place, each call proved to do what Org says.
module OrgService {
  import opened Common
  import opened Org
  import OrgRuns
  import Slug

  // What OrgRuns proves of an acceptance, for every retry.
  lemma AcceptLemmas(s: State, caller: Option<User>, hash: string, now: Time, limit: int, same: (string, string) -> bool)
    ensures var (s', r) := AcceptInvite(s, caller, hash, now, limit, same);
            && (OrgRuns.Inv(s) ==> OrgRuns.Inv(s'))
            && (r.Ok? ==> forall later, cap :: AcceptInvite(s', caller, hash, later, cap, same) == (s', r))
            && if r.Err? then s' == s
               else
                 var i := FindInvite(s.invites, hash);
                 && i.Some? && caller.Some? && |s'.invites| == |s.invites| && s'.invites[i.value].accepted.Some?
                 && s'.invites[i.value].org == s.invites[i.value].org
                 && RoleOf(s', caller.value.id, s.invites[i.value].org) == r
                 && OrgRuns.OnlyStanding(s, s', caller.value.id, s.invites[i.value].org)
                 && (s'.members != s.members ==> s.invites[i.value].Open() && |Roster(s', s.invites[i.value].org)| <= limit)
  {
    if OrgRuns.Inv(s) {
      OrgRuns.AcceptKeeps(s, caller, hash, now, limit, same);
    }
    OrgRuns.AcceptMeans(s, caller, hash, now, limit, same);
    forall later, cap {
      OrgRuns.AcceptTwice(s, caller, hash, now, limit, same, later, cap);
    }
  }

  class Registry {
    var orgs: map<Id, Organization>
    var members: map<(Id, Id), Role>
    var customs: set<(Id, Id, string)>
    var invites: seq<Invite>

    function View(): State
      reads this
    {
      State(orgs, members, customs, invites)
    }

    constructor ()
      ensures View() == EMPTY
    {
      orgs, members, customs, invites := map[], map[], {}, [];
    }

    // ---------- guards ----------

    method Require(user: Id, org: Id, floor: Role) returns (r: Reply<Role, OrgError>)
      ensures r == RequireRole(View(), user, org, floor)
      ensures r.Ok? <==>
                org in orgs && !orgs[org].deleted && (org, user) in members && members[(org, user)].Level() >= floor.Level()
      ensures r == Err(Forbidden) <==>
                org in orgs && !orgs[org].deleted && (org, user) in members && members[(org, user)].Level() < floor.Level()
      ensures r.Ok? ==> r.value == members[(org, user)]
      ensures r.Err? ==> r.error in {Forbidden, OrgNotFound}
    {
      if org !in orgs || orgs[org].deleted { return Err(OrgNotFound); }
      if (org, user) !in members { return Err(OrgNotFound); }
      if members[(org, user)].Level() < floor.Level() { return Err(Forbidden); }
      r := Ok(members[(org, user)]);
    }

    method GuardLastOwner(org: Id) returns (ok: bool)
      ensures ok <==> exists a: Id, b: Id :: a != b && OrgRuns.IsOwner(View(), org, a) && OrgRuns.IsOwner(View(), org, b)
      ensures ok == LastOwnerGuard(View(), org)
    {
      var owners := set m | m in members && m.0 == org && members[m] == Owner :: m.1;
      assert owners == Owners(View(), org);
      ok := |owners| > 1;
      if ok {
        var a := OrgRuns.AnotherOwner(View(), org, 0);
        var b := OrgRuns.AnotherOwner(View(), org, a);
        assert OrgRuns.IsOwner(View(), org, a) && OrgRuns.IsOwner(View(), org, b);
      } else {
        forall a: Id, b: Id | OrgRuns.IsOwner(View(), org, a) && OrgRuns.IsOwner(View(), org, b) ensures a == b {
          assert (org, a).1 in owners && (org, b).1 in owners;
          if a != b {
            CardSubset({a, b}, owners);
          }
        }
      }
    }

    // ---------- organizations ----------

    method Found(creator: Id, org: Id)
      requires org !in orgs
      modifies this`orgs, this`members
      ensures View() == CreateOrg(old(View()), creator, org)
      ensures RoleOf(View(), creator, org) == Ok(Owner)
      ensures forall u: Id, o: Id :: o != org ==> RoleOf(View(), u, o) == RoleOf(old(View()), u, o)
      ensures OrgRuns.Inv(old(View())) ==> OrgRuns.Inv(View())
    {
      OrgRuns.FoundMeans(View(), creator, org);
      orgs := orgs[org := Organization(creator, false)];
      members := members[(org, creator) := Owner];
    }

    method Dissolve(caller: Id, org: Id) returns (r: Reply<(), OrgError>)
      modifies this`orgs
      ensures (View(), r) == DeleteOrg(old(View()), caller, org)
      ensures r.Ok? <==> RoleOf(old(View()), caller, org) == Ok(Owner)
      ensures r.Ok? ==> orgs == old(orgs)[org := Organization(old(orgs)[org].creator, true)]
      ensures r.Err? ==> orgs == old(orgs)
      ensures r.Ok? ==> forall u: Id :: RoleOf(View(), u, org) == Err(OrgNotFound)
      ensures forall u: Id, o: Id :: o != org ==> RoleOf(View(), u, o) == RoleOf(old(View()), u, o)
      ensures OrgRuns.Inv(old(View())) ==> OrgRuns.Inv(View())
    {
      OrgRuns.DissolveMeans(View(), caller, org);
      var mine := Require(caller, org, Owner);
      if mine.Err? { return Err(mine.error); }
      orgs := orgs[org := orgs[org].(deleted := true)];
      r := Ok(());
    }

    // ---------- members ----------

    method Add(grantor: Id, org: Id, found: Option<User>, role: Option<Role>, limit: int) returns (r: Reply<Role, OrgError>)
      modifies this`members
      ensures (View(), r) == AddMember(old(View()), grantor, org, found, role, limit)
      ensures r.Ok? <==>
                && OrgRuns.Stands(old(View()), grantor, org, if role == Some(Owner) then {Owner} else {Owner, Admin})
                && |Roster(old(View()), org)| < limit
                && found.Some? && found.value.active && (org, found.value.id) !in old(members)
      ensures r.Ok? ==> members == old(members)[(org, found.value.id) := if role.Some? then role.value else Member]
      ensures r.Err? ==> members == old(members)
      ensures r == Err(AlreadyMember) ==> found.Some? && (org, found.value.id) in old(members)
      ensures r == Err(UpgradeRequired) ==> |Roster(old(View()), org)| >= limit
      ensures r == Err(UserNotFound) ==> found.None? || !found.value.active
      ensures r.Ok? ==>
                && found.Some? && RoleOf(old(View()), found.value.id, org) == Err(OrgNotFound)
                && RoleOf(View(), found.value.id, org) == r && OrgRuns.OnlyStanding(old(View()), View(), found.value.id, org)
                && r.value.Level() <= RoleOf(old(View()), grantor, org).value.Level() && |Roster(View(), org)| <= limit
      ensures OrgRuns.Inv(old(View())) ==> OrgRuns.Inv(View())
    {
      OrgRuns.AddMeans(View(), grantor, org, found, role, limit);
      var mine := Require(grantor, org, Admin);
      if mine.Err? { return mine; }
      var granted := if role.Some? then role.value else Member;
      if mine.value.Level() < granted.Level() { return Err(Forbidden); }
      if |Roster(View(), org)| >= limit { return Err(UpgradeRequired); }
      if found.None? || !found.value.active { return Err(UserNotFound); }
      if (org, found.value.id) in members { return Err(AlreadyMember); }
      members := members[(org, found.value.id) := granted];
      r := Ok(granted);
    }

    method ChangeRole(grantor: Id, org: Id, target: Id, role: Option<Role>) returns (r: Reply<Role, OrgError>)
      modifies this`members
      ensures (View(), r) == UpdateMemberRole(old(View()), grantor, org, target, role)
      ensures r.Ok? <==>
                && OrgRuns.Stands(old(View()), grantor, org, {Owner}) && role.Some? && (org, target) in old(members)
                && (role == Some(Owner) || !OrgRuns.IsOwner(old(View()), org, target) || OrgRuns.OtherOwners(old(View()), org, target))
      ensures members == if r.Ok? then old(members)[(org, target) := role.value] else old(members)
    {
      OrgRuns.RoleMeans(View(), grantor, org, target, role);
      var mine := Require(grantor, org, Owner);
      if mine.Err? { return mine; }
      if role.None? { return Err(Forbidden); }
      if (org, target) !in members { return Err(OrgNotFound); }
      if members[(org, target)] == Owner && role.value != Owner {
        var ok := GuardLastOwner(org);
        if !ok { return Err(LastOwner); }
      }
      members := members[(org, target) := role.value];
      r := Ok(role.value);
    }

    method Remove(grantor: Id, org: Id, target: Id) returns (r: Reply<(), OrgError>)
      modifies this`members, this`customs
      ensures (View(), r) == RemoveMember(old(View()), grantor, org, target)
      ensures r.Ok? <==>
                && OrgRuns.Stands(old(View()), grantor, org, {Owner, Admin, Member}) && (org, target) in old(members)
                && (grantor == target || OrgRuns.Stands(old(View()), grantor, org, {Owner})
                    || (OrgRuns.Stands(old(View()), grantor, org, {Admin}) && !OrgRuns.IsOwner(old(View()), org, target)))
                && (OrgRuns.IsOwner(old(View()), org, target) ==> OrgRuns.OtherOwners(old(View()), org, target))
      ensures members == if r.Ok? then old(members) - {(org, target)} else old(members)
      ensures forall c :: c in customs <==> c in old(customs) && !(r.Ok? && c.0 == org && c.1 == target)
    {
      OrgRuns.RemoveMeans(View(), grantor, org, target);
      var mine := Require(grantor, org, Member);
      if mine.Err? { return Err(mine.error); }
      if (org, target) !in members { return Err(OrgNotFound); }
      var theirs := members[(org, target)];
      if grantor != target {
        if mine.value.Level() < Admin.Level() { return Err(Forbidden); }
        if theirs == Owner && mine.value != Owner { return Err(Forbidden); }
      }
      if theirs == Owner {
        var ok := GuardLastOwner(org);
        if !ok { return Err(LastOwner); }
      }
      members := members - {(org, target)};
      UnassignAll(org, target);
      r := Ok(());
    }

    // Every custom role the user holds in the organization, one by one.
    method UnassignAll(org: Id, target: Id)
      modifies this`customs
      ensures customs == set c | c in old(customs) && !(c.0 == org && c.1 == target)
    {
      var held := set c | c in customs && c.0 == org && c.1 == target :: c.2;
      while held != {}
        invariant customs <= old(customs)
        invariant forall c :: c in old(customs) && !(c.0 == org && c.1 == target) ==> c in customs
        invariant forall c :: c in customs && c.0 == org && c.1 == target ==> c.2 in held
        decreases |held|
      {
        var name :| name in held;
        held := held - {name};
        customs := customs - {(org, target, name)};
      }
    }

    method Assign(grantor: Id, org: Id, target: Id, name: string, defined: bool) returns (r: Reply<(), OrgError>)
      modifies this`customs
      ensures (View(), r) == AssignRole(old(View()), grantor, org, target, name, defined)
      ensures r.Ok? <==>
                && OrgRuns.Stands(old(View()), grantor, org, {Owner}) && defined && (org, target) in members
                && Slug.SlugRe(name) && name !in {"owner", "admin", "member", "superadmin"}
      ensures customs == if r.Ok? then old(customs) + {(org, target, name)} else old(customs)
      ensures r.Ok? ==>
                && RoleOf(View(), grantor, org) == Ok(Owner) && RoleOf(View(), target, org).Ok?
                && AssignRole(View(), grantor, org, target, name, defined) == (View(), Ok(()))
                && ((org, target, name) !in old(customs) ==>
                      UnassignRole(View(), grantor, org, target, name, defined) == (old(View()), Ok(())))
      ensures OrgRuns.Inv(old(View())) ==> OrgRuns.Inv(View())
    {
      OrgRuns.AssignMeans(View(), grantor, org, target, name, defined);
      var mine := Require(grantor, org, Owner);
      if mine.Err? { return Err(mine.error); }
      if !CustomName(name) { return Err(InvalidRoleName); }
      if !defined { return Err(RoleNotFound); }
      if (org, target) !in members { return Err(OrgNotFound); }
      customs := customs + {(org, target, name)};
      r := Ok(());
    }

    // ---------- invites ----------

    method InviteByEmail(grantor: Id, org: Id, email: string, found: Option<User>, role: Option<Role>, hash: string, now: Time)
      returns (r: Reply<(), OrgError>)
      modifies this`invites
      ensures (View(), r) == InviteMember(old(View()), grantor, org, email, found, role, hash, now)
      ensures r.Ok? <==>
                && OrgRuns.Stands(old(View()), grantor, org, if role == Some(Owner) then {Owner} else {Owner, Admin})
                && (found.Some? ==> (org, found.value.id) !in members)
      ensures r.Err? ==> invites == old(invites)
      ensures r.Ok? ==>
                && |invites| == |old(invites)| + 1
                && invites[|old(invites)|] ==
                     Invite(org, email, if role.Some? then role.value else Member, hash, now + 604800, None, None, grantor)
                && forall i :: 0 <= i < |old(invites)| && invites[i] != old(invites)[i] ==>
                     OpenFor(old(invites)[i], org, email) && invites[i] == old(invites)[i].(declined := Some(now))
      ensures r.Ok? ==>
                var n := |old(invites)|;
                && |invites| == n + 1 && PendingInvite(invites, org, email) == Some(n) && invites[n].Pending(now)
                && (FindInvite(old(invites), hash).None? ==> FindInvite(invites, hash) == Some(n))
                && invites[n].role.Level() <= RoleOf(old(View()), grantor, org).value.Level()
                && (forall i :: 0 <= i < n && !OpenFor(old(invites)[i], org, email) ==> invites[i] == old(invites)[i])
                && (OrgRuns.OneOpenInvite(old(View())) ==> forall i :: 0 <= i < n ==> !OpenFor(invites[i], org, email))
      ensures OrgRuns.Inv(old(View())) ==> OrgRuns.Inv(View())
    {
      OrgRuns.InviteMeans(View(), grantor, org, email, found, role, hash, now);
      var mine := Require(grantor, org, Admin);
      if mine.Err? { return Err(mine.error); }
      var granted := if role.Some? then role.value else Member;
      if mine.value.Level() < granted.Level() { return Err(Forbidden); }
      if found.Some? && (org, found.value.id) in members { return Err(AlreadyMember); }
      var pending := PendingInvite(invites, org, email);
      if pending.Some? {
        Consume(pending.value, false, now);
      }
      invites := invites + [Invite(org, email, granted, hash, now + INVITE_TTL, None, None, grantor)];
      r := Ok(());
    }

    method Consume(i: nat, accepted: bool, now: Time)
      requires i < |invites|
      modifies this`invites
      ensures invites == old(invites)[i := Stamp(old(invites)[i], accepted, now)]
    {
      if accepted {
        invites := invites[i := invites[i].(accepted := Some(now))];
      } else {
        invites := invites[i := invites[i].(declined := Some(now))];
      }
    }

    method Revoke(caller: Id, org: Id, i: nat, now: Time) returns (r: Reply<(), OrgError>)
      modifies this`invites
      ensures (View(), r) == RevokeInvite(old(View()), caller, org, i, now)
      ensures r.Ok? <==>
                && OrgRuns.Stands(old(View()), caller, org, {Owner, Admin}) && i < |old(invites)| && old(invites)[i].org == org
                && old(invites)[i].accepted.None? && old(invites)[i].declined.None? && now < old(invites)[i].expires
      ensures invites == if r.Ok? then old(invites)[i := old(invites)[i].(declined := Some(now))] else old(invites)
      ensures r.Ok? ==>
                && i < |old(invites)| && |invites| == |old(invites)| && !invites[i].Open()
                && (FindInvite(old(invites), invites[i].hash) == Some(i) ==> OrgRuns.NeverGrants(View(), invites[i].hash))
      ensures OrgRuns.Inv(old(View())) ==> OrgRuns.Inv(View())
    {
      OrgRuns.RevokeMeans(View(), caller, org, i, now);
      var mine := Require(caller, org, Admin);
      if mine.Err? { return Err(mine.error); }
      if i >= |invites| || invites[i].org != org || !invites[i].Pending(now) { return Err(InvalidInvite); }
      Consume(i, false, now);
      r := Ok(());
    }

    method Accept(caller: Option<User>, hash: string, now: Time, limit: int, same: (string, string) -> bool)
      returns (r: Reply<Role, OrgError>)
      modifies this`members, this`invites
      ensures (View(), r) == AcceptInvite(old(View()), caller, hash, now, limit, same)
      ensures r.Ok? <==>
                var found := FindInvite(old(invites), hash);
                && found.Some? && caller.Some? && caller.value.active
                && var inv := old(invites)[found.value];
                   && inv.org in orgs && !orgs[inv.org].deleted
                   && if inv.accepted.None? && inv.declined.None? && now < inv.expires
                      then same(caller.value.email, inv.email)
                           && ((inv.org, caller.value.id) in old(members) || |Roster(old(View()), inv.org)| < limit)
                      else inv.accepted.Some? && (inv.org, caller.value.id) in old(members)
      ensures members != old(members) ==>
                var inv := old(invites)[FindInvite(old(invites), hash).value];
                r.Ok? && members == old(members)[(inv.org, caller.value.id) := inv.role]
      ensures r.Ok? ==>
                var i := FindInvite(old(invites), hash);
                && i.Some? && caller.Some? && |invites| == |old(invites)| && invites[i.value].accepted.Some?
                && RoleOf(View(), caller.value.id, invites[i.value].org) == r
                && OrgRuns.OnlyStanding(old(View()), View(), caller.value.id, invites[i.value].org)
                && (members != old(members) ==> old(invites)[i.value].Open() && |Roster(View(), invites[i.value].org)| <= limit)
      ensures r.Ok? ==> forall later, cap :: AcceptInvite(View(), caller, hash, later, cap, same) == (View(), r)
      ensures OrgRuns.Inv(old(View())) ==> OrgRuns.Inv(View())
    {
      AcceptLemmas(View(), caller, hash, now, limit, same);
      var found := FindInvite(invites, hash);
      if found.None? || caller.None? { return Err(InvalidInvite); }
      var u := caller.value;
      if !u.active { return Err(Forbidden); }
      var i, inv := found.value, invites[found.value];
      if inv.org !in orgs || orgs[inv.org].deleted { return Err(InvalidInvite); }
      var me := (inv.org, u.id);
      if !inv.Pending(now) {
        if inv.accepted.None? { return Err(InvalidInvite); }
        if me !in members { return Err(InvalidInvite); }
        return Ok(members[me]);
      }
      if !same(u.email, inv.email) { return Err(EmailMismatch); }
      if me in members {
        Consume(i, true, now);
        return Ok(members[me]);
      }
      if |Roster(View(), inv.org)| >= limit { return Err(UpgradeRequired); }
      members := members[me := inv.role];
      Consume(i, true, now);
      r := Ok(inv.role);
    }

    method Decline(caller: Option<User>, hash: string, now: Time, same: (string, string) -> bool) returns (r: Reply<(), OrgError>)
      modifies this`invites
      ensures (View(), r) == DeclineInvite(old(View()), caller, hash, now, same)
      ensures r.Ok? <==>
                var found := FindInvite(old(invites), hash);
                && found.Some?
                && var inv := old(invites)[found.value];
                   && inv.accepted.None?
                   && (inv.declined.Some? || (now <= inv.expires && caller.Some? && same(caller.value.email, inv.email)))
      ensures r == Err(InviteConsumed) <==> FindInvite(old(invites), hash).Some? && old(invites)[FindInvite(old(invites), hash).value].accepted.Some?
      ensures invites != old(invites) ==>
                var i := FindInvite(old(invites), hash).value;
                r.Ok? && invites == old(invites)[i := old(invites)[i].(declined := Some(now))]
      ensures r.Ok? ==> OrgRuns.NeverGrants(View(), hash)
      ensures r.Ok? ==> forall later :: DeclineInvite(View(), caller, hash, later, same) == (View(), Ok(()))
      ensures OrgRuns.Inv(old(View())) ==> OrgRuns.Inv(View())
    {
      OrgRuns.DeclineMeans(View(), caller, hash, now, same);
      var found := FindInvite(invites, hash);
      if found.None? { return Err(InvalidInvite); }
      var inv := invites[found.value];
      if inv.accepted.Some? { return Err(InviteConsumed); }
      if inv.declined.Some? { return Ok(()); }
      if now > inv.expires || caller.None? { return Err(InvalidInvite); }
      if !same(caller.value.email, inv.email) { return Err(EmailMismatch); }
      Consume(found.value, false, now);
      r := Ok(());
    }
  }
}
