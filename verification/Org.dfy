// Organizations, memberships and invites: what each call does to the rows.
module Org {
  import opened Common
  import Slug

  datatype Role = Owner | Admin | Member {
    function Level(): (n: nat)
      ensures 1 <= n <= 3
      ensures n == 3 <==> Owner?
      ensures n == 1 <==> Member?
    {
      match this
      case Owner => 3
      case Admin => 2
      case Member => 1
    }
  }

  // deleted is the soft-delete stamp: the row, its memberships and its invites all stay.
  datatype Organization = Organization(creator: Id, deleted: bool)

  datatype Invite = Invite(
    org: Id, email: string, role: Role, hash: string, expires: Time, accepted: Option<Time>, declined: Option<Time>, inviter: Id)
  {
    predicate Open() { accepted.None? && declined.None? }

    predicate Pending(now: Time) { Open() && now < expires }
  }

  // Memberships are unique per organization and user. Invites are never deleted: an invite's id is
  // its position, in order of creation.
  datatype State = State(
    orgs: map<Id, Organization>, members: map<(Id, Id), Role>, customs: set<(Id, Id, string)>, invites: seq<Invite>)

  datatype OrgError =
    | OrgNotFound | Forbidden | UpgradeRequired | UserNotFound | AlreadyMember | LastOwner
    | InvalidInvite | EmailMismatch | InviteConsumed | InvalidRoleName | RoleNotFound

  // An account as the auth domain reports it.
  datatype User = User(id: Id, email: string, active: bool)

  const INVITE_TTL: Time := 604800   // seconds

  predicate Exists(s: State, org: Id) {
    org in s.orgs && !s.orgs[org].deleted
  }

  // The caller's role in an existing organization; outsiders are told it does not exist.
  function RoleOf(s: State, user: Id, org: Id): Reply<Role, OrgError> {
    if !Exists(s, org) || (org, user) !in s.members then Err(OrgNotFound) else Ok(s.members[(org, user)])
  }

  function RequireRole(s: State, user: Id, org: Id, floor: Role): Reply<Role, OrgError> {
    match RoleOf(s, user, org)
    case Err(e) => Err(e)
    case Ok(role) => if role.Level() < floor.Level() then Err(Forbidden) else Ok(role)
  }

  function Owners(s: State, org: Id): set<Id> {
    set m | m in s.members && m.0 == org && s.members[m] == Owner :: m.1
  }

  function Roster(s: State, org: Id): set<Id> {
    set m | m in s.members && m.0 == org :: m.1
  }

  predicate LastOwnerGuard(s: State, org: Id) {
    |Owners(s, org)| > 1
  }

  // A role name that is not one of the three is read as MEMBER.
  function OrMember(role: Option<Role>): Role {
    if role.Some? then role.value else Member
  }

  // ---------- organizations ----------

  function CreateOrg(s: State, creator: Id, org: Id): State {
    s.(orgs := s.orgs[org := Organization(creator, false)], members := s.members[(org, creator) := Owner])
  }

  function DeleteOrg(s: State, caller: Id, org: Id): (State, Reply<(), OrgError>) {
    match RequireRole(s, caller, org, Owner)
    case Err(e) => (s, Err(e))
    case Ok(_) => (s.(orgs := s.orgs[org := s.orgs[org].(deleted := true)]), Ok(()))
  }

  // ---------- members ----------

  // `found` is the account under the given address; limit the plan's member cap.
  function AddMember(s: State, grantor: Id, org: Id, found: Option<User>, role: Option<Role>, limit: int): (State, Reply<Role, OrgError>) {
    match RequireRole(s, grantor, org, Admin)
    case Err(e) => (s, Err(e))
    case Ok(mine) =>
      var granted := OrMember(role);
      if mine.Level() < granted.Level() then (s, Err(Forbidden))
      else if |Roster(s, org)| >= limit then (s, Err(UpgradeRequired))
      else if found.None? || !found.value.active then (s, Err(UserNotFound))
      else if (org, found.value.id) in s.members then (s, Err(AlreadyMember))
      else (s.(members := s.members[(org, found.value.id) := granted]), Ok(granted))
  }

  function UpdateMemberRole(s: State, grantor: Id, org: Id, target: Id, role: Option<Role>): (State, Reply<Role, OrgError>) {
    match RequireRole(s, grantor, org, Owner)
    case Err(e) => (s, Err(e))
    case Ok(_) =>
      if role.None? then (s, Err(Forbidden))
      else if (org, target) !in s.members then (s, Err(OrgNotFound))
      else if s.members[(org, target)] == Owner && role.value != Owner && !LastOwnerGuard(s, org) then (s, Err(LastOwner))
      else (s.(members := s.members[(org, target) := role.value]), Ok(role.value))
  }

  // The transaction of a removal: the membership and every custom role with it.
  function RemoveRows(s: State, org: Id, target: Id): State {
    s.(members := s.members - {(org, target)}, customs := set c | c in s.customs && !(c.0 == org && c.1 == target))
  }

  function RemoveMember(s: State, grantor: Id, org: Id, target: Id): (State, Reply<(), OrgError>) {
    match RoleOf(s, grantor, org)
    case Err(e) => (s, Err(e))
    case Ok(mine) =>
      if (org, target) !in s.members then (s, Err(OrgNotFound))
      else
        var theirs := s.members[(org, target)];
        if grantor != target && (mine.Level() < Admin.Level() || (theirs == Owner && mine != Owner)) then (s, Err(Forbidden))
        else if theirs == Owner && !LastOwnerGuard(s, org) then (s, Err(LastOwner))
        else (RemoveRows(s, org, target), Ok(()))
  }

  // ---------- custom roles ----------

  // A custom role's name, after lower-casing and trimming: a slug, and none of the reserved names.
  predicate CustomName(name: string) {
    Slug.SlugRe(name) && name !in {"owner", "admin", "member", "superadmin"}
  }

  // `defined`: the organization has a definition under that name.
  function AssignRole(s: State, grantor: Id, org: Id, target: Id, name: string, defined: bool): (State, Reply<(), OrgError>) {
    match RequireRole(s, grantor, org, Owner)
    case Err(e) => (s, Err(e))
    case Ok(_) =>
      if !CustomName(name) then (s, Err(InvalidRoleName))
      else if !defined then (s, Err(RoleNotFound))
      else if (org, target) !in s.members then (s, Err(OrgNotFound))
      else (s.(customs := s.customs + {(org, target, name)}), Ok(()))
  }

  function UnassignRole(s: State, grantor: Id, org: Id, target: Id, name: string, defined: bool): (State, Reply<(), OrgError>) {
    match RequireRole(s, grantor, org, Owner)
    case Err(e) => (s, Err(e))
    case Ok(_) =>
      if !CustomName(name) then (s, Err(InvalidRoleName))
      else if !defined then (s, Err(RoleNotFound))
      else (s.(customs := s.customs - {(org, target, name)}), Ok(()))
  }

  // ---------- invites ----------

  predicate OpenFor(inv: Invite, org: Id, email: string) {
    inv.org == org && inv.email == email && inv.Open()
  }

  // The newest open invite of this address.
  function PendingInvite(invites: seq<Invite>, org: Id, email: string): (r: Option<nat>)
    ensures r.Some? ==> r.value < |invites| && OpenFor(invites[r.value], org, email)
    ensures r.None? ==> forall i :: 0 <= i < |invites| ==> !OpenFor(invites[i], org, email)
  {
    if invites == [] then None
    else if OpenFor(invites[|invites| - 1], org, email) then Some(|invites| - 1)
    else PendingInvite(invites[..|invites| - 1], org, email)
  }

  function FindInvite(invites: seq<Invite>, hash: string): (r: Option<nat>)
    ensures r.Some? ==> r.value < |invites| && invites[r.value].hash == hash
    ensures r.None? ==> forall i :: 0 <= i < |invites| ==> invites[i].hash != hash
  {
    if invites == [] then None
    else
      var earlier := FindInvite(invites[..|invites| - 1], hash);
      if earlier.Some? then earlier
      else if invites[|invites| - 1].hash == hash then Some(|invites| - 1) else None
  }

  function Stamp(inv: Invite, accepted: bool, now: Time): Invite {
    if accepted then inv.(accepted := Some(now)) else inv.(declined := Some(now))
  }

  // `email` is normalized; `found` the account under it, if any.
  function InviteMember(s: State, grantor: Id, org: Id, email: string, found: Option<User>, role: Option<Role>, hash: string, now: Time)
    : (State, Reply<(), OrgError>)
  {
    match RequireRole(s, grantor, org, Admin)
    case Err(e) => (s, Err(e))
    case Ok(mine) =>
      var granted := OrMember(role);
      if mine.Level() < granted.Level() then (s, Err(Forbidden))
      else if found.Some? && (org, found.value.id) in s.members then (s, Err(AlreadyMember))
      else
        var pending := PendingInvite(s.invites, org, email);
        var superseded := if pending.None? then s.invites else s.invites[pending.value := Stamp(s.invites[pending.value], false, now)];
        var invite := Invite(org, email, granted, hash, now + INVITE_TTL, None, None, grantor);
        (s.(invites := superseded + [invite]), Ok(()))
  }

  function RevokeInvite(s: State, caller: Id, org: Id, i: nat, now: Time): (State, Reply<(), OrgError>) {
    match RequireRole(s, caller, org, Admin)
    case Err(e) => (s, Err(e))
    case Ok(_) =>
      if i >= |s.invites| || s.invites[i].org != org || !s.invites[i].Pending(now) then (s, Err(InvalidInvite))
      else (s.(invites := s.invites[i := Stamp(s.invites[i], false, now)]), Ok(()))
  }

  // `same` compares addresses regardless of case.
  function AcceptInvite(s: State, caller: Option<User>, hash: string, now: Time, limit: int, same: (string, string) -> bool)
    : (State, Reply<Role, OrgError>)
  {
    var found := FindInvite(s.invites, hash);
    if found.None? then (s, Err(InvalidInvite))
    else if caller.None? then (s, Err(InvalidInvite))
    else if !caller.value.active then (s, Err(Forbidden))
    else
      var inv, u := s.invites[found.value], caller.value;
      var me := (inv.org, u.id);
      if !Exists(s, inv.org) then (s, Err(InvalidInvite))
      else if !inv.Pending(now) then
        (s, if inv.accepted.None? || me !in s.members then Err(InvalidInvite) else Ok(s.members[me]))
      else if !same(u.email, inv.email) then (s, Err(EmailMismatch))
      else
        var stamped := s.invites[found.value := Stamp(inv, true, now)];
        if me in s.members then (s.(invites := stamped), Ok(s.members[me]))
        else if |Roster(s, inv.org)| >= limit then (s, Err(UpgradeRequired))
        else (s.(members := s.members[me := inv.role], invites := stamped), Ok(inv.role))
  }

  // Unlike Pending, the deadline itself is still in time.
  function DeclineInvite(s: State, caller: Option<User>, hash: string, now: Time, same: (string, string) -> bool): (State, Reply<(), OrgError>) {
    var found := FindInvite(s.invites, hash);
    if found.None? then (s, Err(InvalidInvite))
    else
      var inv := s.invites[found.value];
      if inv.accepted.Some? then (s, Err(InviteConsumed))
      else if inv.declined.Some? then (s, Ok(()))
      else if now > inv.expires then (s, Err(InvalidInvite))
      else if caller.None? then (s, Err(InvalidInvite))
      else if !same(caller.value.email, inv.email) then (s, Err(EmailMismatch))
      else (s.(invites := s.invites[found.value := Stamp(inv, false, now)]), Ok(()))
  }

  // ---------- runs ----------

  datatype Op =
    | OpCreate(creator: Id, org: Id)
    | OpDelete(caller: Id, org: Id)
    | OpAdd(grantor: Id, org: Id, found: Option<User>, role: Option<Role>, limit: int)
    | OpRole(grantor: Id, org: Id, target: Id, role: Option<Role>)
    | OpRemove(grantor: Id, org: Id, target: Id)
    | OpAssign(grantor: Id, org: Id, target: Id, name: string, defined: bool)
    | OpUnassign(grantor: Id, org: Id, target: Id, name: string, defined: bool)
    | OpInvite(grantor: Id, org: Id, email: string, found: Option<User>, role: Option<Role>, hash: string, now: Time)
    | OpRevoke(caller: Id, org: Id, invite: nat, now: Time)
    | OpAccept(user: Option<User>, hash: string, now: Time, limit: int)
    | OpDecline(user: Option<User>, hash: string, now: Time)

  // Ids and tokens a call draws are new.
  predicate Drawn(s: State, op: Op) {
    && (op.OpCreate? ==> op.org !in s.orgs)
    && (op.OpInvite? ==> FindInvite(s.invites, op.hash).None?)
  }

  function Apply(same: (string, string) -> bool, s: State, op: Op): State {
    if !Drawn(s, op) then s
    else match op {
      case OpCreate(creator, org) => CreateOrg(s, creator, org)
      case OpDelete(caller, org) => DeleteOrg(s, caller, org).0
      case OpAdd(grantor, org, found, role, limit) => AddMember(s, grantor, org, found, role, limit).0
      case OpRole(grantor, org, target, role) => UpdateMemberRole(s, grantor, org, target, role).0
      case OpRemove(grantor, org, target) => RemoveMember(s, grantor, org, target).0
      case OpAssign(grantor, org, target, name, defined) => AssignRole(s, grantor, org, target, name, defined).0
      case OpUnassign(grantor, org, target, name, defined) => UnassignRole(s, grantor, org, target, name, defined).0
      case OpInvite(grantor, org, email, found, role, hash, now) =>
        InviteMember(s, grantor, org, email, found, role, hash, now).0
      case OpRevoke(caller, org, i, now) => RevokeInvite(s, caller, org, i, now).0
      case OpAccept(user, hash, now, limit) => AcceptInvite(s, user, hash, now, limit, same).0
      case OpDecline(user, hash, now) => DeclineInvite(s, user, hash, now, same).0
    }
  }

  const EMPTY := State(map[], map[], {}, [])

  function Run(same: (string, string) -> bool, ops: seq<Op>): State {
    if ops == [] then EMPTY else Apply(same, Run(same, ops[..|ops| - 1]), ops[|ops| - 1])
  }
}
