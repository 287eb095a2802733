// Casbin rows, the tables they are materialised from, and the key under which a sync snapshots them.
module Iam {
  import opened Common

  datatype Grouping = Grouping(user: string, role: string, dom: string)           // a g row
  datatype Policy = Policy(role: string, dom: string, obj: string, act: string)   // a p row
  datatype Permission = Permission(obj: string, act: string)

  // The UUID printer and parser. The parser accepts more spellings than the printer produces, but
  // nothing that ends in "@" and a printed UUID.
  datatype Uuids = Uuids(show: Id -> string, parse: string -> Option<Id>) {
    ghost predicate Valid() {
      && (forall id: Id :: '@' !in show(id) && parse(show(id)) == Some(id))
      && (forall id: Id, x: string :: parse(x + "@" + show(id)) == None)
    }
  }

  predicate IsFixedRole(role: string) {
    role == "OWNER" || role == "ADMIN" || role == "MEMBER"
  }

  // One row of a user's memberships, with the custom roles assigned beside it.
  datatype Membership = Membership(role: string, customs: set<string>)

  // ---------- one membership ----------

  predicate FixedAt(row: Grouping, user: string, dom: string) {
    row.user == user && row.dom == dom && IsFixedRole(row.role)
  }

  // The user's fixed-role rows in the domain give way to the named role, or to nothing.
  function SyncMembership(g: set<Grouping>, user: string, dom: string, role: Option<string>): set<Grouping> {
    (set row | row in g && !FixedAt(row, user, dom))
      + if role.Some? then {Grouping(user, role.value, dom)} else {}
  }

  function SyncCustom(g: set<Grouping>, user: string, dom: string, role: string, grant: bool): set<Grouping> {
    if grant then g + {Grouping(user, role, dom)} else g - {Grouping(user, role, dom)}
  }

  // One row is set or cleared and nothing else: twice is once, and the opposite call undoes it.
  lemma CustomMeans(g: set<Grouping>, user: string, dom: string, role: string, grant: bool)
    ensures var g' := SyncCustom(g, user, dom, role, grant);
            var row := Grouping(user, role, dom);
            && (forall other :: other in g' <==> if other == row then grant else other in g)
            && SyncCustom(g', user, dom, role, grant) == g'
            && ((row in g <==> !grant) ==> SyncCustom(g', user, dom, role, !grant) == g)
  {
    if grant && Grouping(user, role, dom) !in g {
      assert g + {Grouping(user, role, dom)} - {Grouping(user, role, dom)} == g;
    }
  }

  // It never disturbs, nor is disturbed by, the synchronisation of a fixed role.
  lemma CustomCommutes(g: set<Grouping>, user: string, dom: string, role: string, grant: bool, other: string, there: string, fixed: Option<string>)
    requires !IsFixedRole(role) && (fixed.Some? ==> IsFixedRole(fixed.value))
    ensures SyncMembership(SyncCustom(g, user, dom, role, grant), other, there, fixed)
         == SyncCustom(SyncMembership(g, other, there, fixed), user, dom, role, grant)
  {
  }

  // ---------- snapshot keys ----------

  function Key(row: Grouping): string {
    row.role + "@" + row.dom
  }

  function Keys(g: set<Grouping>, user: string): set<string> {
    set row | row in g && row.user == user :: Key(row)
  }

  // At the first '@'; all of it is the role when there is none.
  function SplitKey(key: string): (string, string) {
    if key == "" then ("", "")
    else if key[0] == '@' then ("", key[1..])
    else
      var (role, dom) := SplitKey(key[1..]);
      ([key[0]] + role, dom)
  }

  // What a key says is one row's role and domain: right for a role without '@'.
  lemma {:induction false} SplitKeyAt(role: string, rest: string)
    requires '@' !in role
    ensures SplitKey(role + "@" + rest) == (role, rest)
  {
    var key := role + "@" + rest;
    if role == "" {
      assert key[1..] == rest;
    } else {
      assert key[1..] == role[1..] + "@" + rest;
      SplitKeyAt(role[1..], rest);
      assert role == [key[0]] + role[1..];
    }
  }

  // A role with '@' is cut short, and its tail becomes part of the domain.
  lemma {:induction false} SplitKeyInside(role: string, rest: string)
    requires '@' in role
    ensures var (head, tail) := SplitKey(role);
            '@' !in head && role == head + "@" + tail && SplitKey(role + "@" + rest) == (head, tail + "@" + rest)
  {
    var key := role + "@" + rest;
    if role[0] == '@' {
      assert key[1..] == role[1..] + "@" + rest;
    } else {
      assert key[1..] == role[1..] + "@" + rest;
      SplitKeyInside(role[1..], rest);
    }
  }

  // Two rows share a key only if they are the same row, when neither domain holds an '@'.
  lemma {:induction false} KeyInjective(role: string, dom: string, role': string, dom': string)
    requires '@' !in dom && '@' !in dom' && role + "@" + dom == role' + "@" + dom'
    ensures role == role' && dom == dom'
  {
    var key, key' := role + "@" + dom, role' + "@" + dom';
    assert key[|role|] == key'[|role|] && key[|role'|] == key'[|role'|];
    assert |role| == |role'|;
    assert role == key[..|role|] == role';
    assert dom == key[|role| + 1..] == dom';
  }

  // ---------- a user's whole sync ----------

  function Kept(ms: map<Id, Membership>, u: Uuids): set<string> {
    set o | o in ms :: u.show(o)
  }

  // The rows the memberships of some of the organizations call for.
  function Called(user: string, ms: map<Id, Membership>, orgs: set<Id>, u: Uuids): set<Grouping>
    requires orgs <= ms.Keys
  {
    set o, role | o in orgs && role in {ms[o].role} + ms[o].customs :: Grouping(user, role, u.show(o))
  }

  // Sweep-then-add over some of the memberships.
  function Refreshed(g: set<Grouping>, user: string, ms: map<Id, Membership>, orgs: set<Id>, u: Uuids): set<Grouping>
    requires orgs <= ms.Keys
  {
    (set row | row in g && !(row.user == user && IsFixedRole(row.role) && exists o :: o in orgs && row.dom == u.show(o)))
      + Called(user, ms, orgs, u)
  }

  // Handling this snapshot key removes this row.
  predicate Dooms(key: string, row: Grouping, user: string, kept: set<string>, u: Uuids) {
    var (role, ref) := SplitKey(key);
    && row.user == user && ref !in kept && u.parse(ref).Some?
    && row.dom == u.show(u.parse(ref).value)
    && if IsFixedRole(role) then IsFixedRole(row.role) else row.role == role
  }

  predicate Doomed(keys: set<string>, row: Grouping, user: string, kept: set<string>, u: Uuids) {
    exists key :: key in keys && Dooms(key, row, user, kept, u)
  }

  function Swept(g: set<Grouping>, keys: set<string>, user: string, kept: set<string>, u: Uuids): set<Grouping> {
    set row | row in g && !Doomed(keys, row, user, kept, u)
  }

  // SyncUserPolicies, as a set: whatever order the memberships and the snapshot are walked in.
  function Synced(g: set<Grouping>, user: string, ms: map<Id, Membership>, u: Uuids): set<Grouping> {
    Swept(Refreshed(g, user, ms, ms.Keys, u), Keys(g, user), user, Kept(ms, u), u)
  }

  datatype Diff = Diff(added: int, removed: int, total: int)

  function DiffOf(before: set<string>, after: set<string>): Diff {
    Diff(|after - before|, |before - after|, |after|)
  }

  // ---------- an organization's policies ----------

  const ADMIN_MATRIX: seq<(string, string)> := [
    ("org", "read"), ("org", "update"),
    ("member", "read"), ("member", "create"), ("member", "delete"),
    ("invite", "read"), ("invite", "create"), ("invite", "delete"),
    ("event", "read"), ("event", "create"), ("event", "update"), ("event", "delete"), ("event", "publish"),
    ("ticket", "read"), ("ticket", "create"), ("ticket", "update"), ("ticket", "delete"),
    ("attendee", "read"), ("attendee", "create"), ("attendee", "update"),
    ("checkin", "read"), ("checkin", "create"), ("checkin", "update"),
    ("kit", "read"), ("kit", "create"), ("kit", "update"), ("kit", "delete"),
    ("audit", "read"), ("role", "read"),
    ("apikey", "read"), ("apikey", "create"), ("apikey", "delete")]

  const MEMBER_MATRIX: seq<(string, string)> := [("org", "read"), ("member", "read"), ("event", "read"), ("ticket", "read")]

  // What a fixed role other than OWNER may do, by object.
  function AdminActs(obj: string): set<string> {
    if obj in {"kit", "ticket"} then {"read", "create", "update", "delete"}
    else if obj in {"attendee", "checkin"} then {"read", "create", "update"}
    else if obj in {"member", "invite", "apikey"} then {"read", "create", "delete"}
    else if obj == "event" then {"read", "create", "update", "delete", "publish"}
    else if obj == "org" then {"read", "update"}
    else if obj in {"audit", "role"} then {"read"}
    else {}
  }

  function MemberActs(obj: string): set<string> {
    if obj in {"org", "member", "event", "ticket"} then {"read"} else {}
  }

  // The seeded matrices, read by object: an ADMIN manages it, a MEMBER reads some of it.
  lemma MatricesMean(obj: string, act: string)
    ensures (obj, act) in ADMIN_MATRIX <==> act in AdminActs(obj)
    ensures (obj, act) in MEMBER_MATRIX <==> act in MemberActs(obj)
  {
    AdminMeans(obj, act);
    hide ADMIN_MATRIX, AdminActs;
  }

  lemma AdminMeans(obj: string, act: string)
    ensures (obj, act) in ADMIN_MATRIX <==> act in AdminActs(obj)
  {
  }

  function RulesFor(role: string, dom: string, matrix: seq<(string, string)>): (r: seq<Policy>)
    ensures |r| == |matrix| && forall i :: 0 <= i < |r| ==> r[i] == Policy(role, dom, matrix[i].0, matrix[i].1)
  {
    seq(|matrix|, i requires 0 <= i < |matrix| => Policy(role, dom, matrix[i].0, matrix[i].1))
  }

  function SeedRules(dom: string): seq<Policy> {
    [Policy("OWNER", dom, "*", "*")] + RulesFor("ADMIN", dom, ADMIN_MATRIX) + RulesFor("MEMBER", dom, MEMBER_MATRIX)
  }

  function Rows<T>(s: seq<T>): set<T> {
    set x | x in s
  }

  function InDom(p: set<Policy>, dom: string): set<Policy> {
    set row | row in p && row.dom == dom
  }

  // A role definition; perms is None when the stored JSON does not decode.
  datatype RoleDef = RoleDef(name: string, perms: Option<seq<Permission>>)

  function Granted(dom: string, role: string, perms: seq<Permission>): (r: seq<Policy>)
    ensures |r| == |perms| && forall i :: 0 <= i < |r| ==> r[i] == Policy(role, dom, perms[i].obj, perms[i].act)
  {
    seq(|perms|, i requires 0 <= i < |perms| => Policy(role, dom, perms[i].obj, perms[i].act))
  }

  // The rows that definitions call for, up to the first that does not decode.
  function Defined(dom: string, defs: seq<RoleDef>): set<Policy> {
    if defs == [] || defs[0].perms.None? then {}
    else Rows(Granted(dom, defs[0].name, defs[0].perms.value)) + Defined(dom, defs[1..])
  }

  predicate AllDecode(defs: seq<RoleDef>) {
    forall i :: 0 <= i < |defs| ==> defs[i].perms.Some?
  }

  function Names(defs: seq<RoleDef>): set<string> {
    set i | 0 <= i < |defs| :: defs[i].name
  }

  // A custom row whose role has no definition.
  predicate Orphan(row: Policy, dom: string, defs: seq<RoleDef>) {
    row.dom == dom && !IsFixedRole(row.role) && row.role !in Names(defs)
  }

  function Orphans(p: set<Policy>, dom: string, defs: seq<RoleDef>): set<Policy> {
    set row | row in p && Orphan(row, dom, defs)
  }

  datatype IamError = OrgNotFound | UserNotFound | BadDefinition

  // Seed, rebuild, sweep. A definition that does not decode stops it midway.
  function Repaired(p: set<Policy>, seed: set<Policy>, dom: string, defs: seq<RoleDef>): (set<Policy>, Reply<Diff, IamError>) {
    var built := p + seed + Defined(dom, defs);
    if !AllDecode(defs) then (built, Err(BadDefinition))
    else
      var after := built - Orphans(built, dom, defs);
      var before, total := |InDom(p, dom)|, |InDom(after, dom)|;
      (after, Ok(Diff(total - before, |Orphans(built, dom, defs)|, total)))
  }

  // ReseedOrgPolicies of an organization that exists.
  function Reseeded(p: set<Policy>, dom: string, defs: seq<RoleDef>): (set<Policy>, Reply<Diff, IamError>) {
    Repaired(p, Rows(SeedRules(dom)), dom, defs)
  }

  // ---------- superadmins ----------

  const SUPERADMIN := "superadmin"

  // The superadmin rows become exactly the listed accounts; an empty list changes nothing.
  function SuperAdmins(g2: set<(string, string)>, emails: seq<string>, account: string -> Option<string>): set<(string, string)> {
    if emails == [] then g2
    else
      (set row | row in g2 && row.1 != SUPERADMIN)
        + (set email | email in emails && account(email).Some? :: (account(email).value, SUPERADMIN))
  }

  // With a list, exactly its accounts are superadmins (beside the role's own name); other rows stay, and
  // doing it again changes nothing.
  lemma SuperAdminsMean(g2: set<(string, string)>, emails: seq<string>, account: string -> Option<string>)
    ensures var g' := SuperAdmins(g2, emails, account);
            && (emails == [] ==> g' == g2)
            && (emails != [] ==>
                  forall sub: string :: sub != "superadmin" ==> (IsSuper(g', sub) <==> exists email :: email in emails && account(email) == Some(sub)))
            && IsSuper(g', "superadmin")
            && (forall row: (string, string) :: row.1 != "superadmin" ==> (row in g' <==> row in g2))
            && SuperAdmins(g', emails, account) == g'
  {
  }

  // ---------- enforcement ----------

  predicate IsSuper(g2: set<(string, string)>, sub: string) {
    sub == SUPERADMIN || (sub, SUPERADMIN) in g2
  }

  predicate Grants(row: Policy, g: set<Grouping>, sub: string, dom: string, obj: string, act: string) {
    && (sub == row.role || Grouping(sub, row.role, dom) in g)
    && (row.dom == dom || row.dom == "*")
    && (row.obj == obj || row.obj == "*")
    && (row.act == act || row.act == "*")
  }

  // The matcher of model.conf, for groupings that do not chain through another role.
  predicate Allowed(p: set<Policy>, g: set<Grouping>, g2: set<(string, string)>,
                    sub: string, dom: string, obj: string, act: string) {
    IsSuper(g2, sub) || exists row :: row in p && Grants(row, g, sub, dom, obj, act)
  }
}
