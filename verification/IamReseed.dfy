// ReseedOrgPolicies heals an organization's rows, and with synced groupings the matcher then
// answers what the tables say.
module IamReseed {
  import opened Common
  import opened Iam
  import opened IamSync

  // ---------- what the definitions call for ----------

  lemma {:induction false} DefinedMeans(dom: string, defs: seq<RoleDef>, row: Policy)
    requires AllDecode(defs)
    ensures row in Defined(dom, defs) <==>
      exists i :: 0 <= i < |defs| && row in Granted(dom, defs[i].name, defs[i].perms.value)
  {
    if defs != [] {
      assert AllDecode(defs[1..]);
      DefinedMeans(dom, defs[1..], row);
      if exists i :: 0 <= i < |defs| && row in Granted(dom, defs[i].name, defs[i].perms.value) {
        var i :| 0 <= i < |defs| && row in Granted(dom, defs[i].name, defs[i].perms.value);
        if i > 0 {
          assert defs[1..][i - 1] == defs[i];
        }
      }
      if row in Defined(dom, defs[1..]) {
        var i :| 0 <= i < |defs[1..]| && row in Granted(dom, defs[1..][i].name, defs[1..][i].perms.value);
        assert defs[1..][i] == defs[i + 1];
      }
    }
  }

  lemma {:induction false} DefinedRow(dom: string, defs: seq<RoleDef>, row: Policy)
    requires row in Defined(dom, defs)
    ensures row.dom == dom && row.role in Names(defs)
  {
    if row in Granted(dom, defs[0].name, defs[0].perms.value) {
      assert defs[0].name in Names(defs);
    } else {
      DefinedRow(dom, defs[1..], row);
      var i :| 0 <= i < |defs[1..]| && defs[1..][i].name == row.role;
      assert defs[1..][i] == defs[i + 1];
    }
  }

  lemma SeedRow(dom: string, row: Policy)
    requires row in SeedRules(dom)
    ensures row.dom == dom && IsFixedRole(row.role)
  {
    var i :| 0 <= i < |SeedRules(dom)| && SeedRules(dom)[i] == row;
    var a := |ADMIN_MATRIX|;
    if 0 < i <= a {
      assert row == RulesFor("ADMIN", dom, ADMIN_MATRIX)[i - 1];
    } else if a < i {
      assert row == RulesFor("MEMBER", dom, MEMBER_MATRIX)[i - 1 - a];
    }
  }

  // ---------- healing ----------

  // What the seed and the definitions call for.
  function CalledFor(dom: string, defs: seq<RoleDef>): set<Policy> {
    Rows(SeedRules(dom)) + Defined(dom, defs)
  }

  lemma CalledRow(dom: string, defs: seq<RoleDef>, row: Policy)
    requires row in CalledFor(dom, defs)
    ensures row.dom == dom && !Orphan(row, dom, defs)
  {
    if row in Defined(dom, defs) {
      DefinedRow(dom, defs, row);
    } else {
      SeedRow(dom, row);
    }
  }

  // From any rows: every row called for is there, no custom row without a definition is, and no
  // other row of any organization moved.
  lemma ReseedHeals(p: set<Policy>, dom: string, defs: seq<RoleDef>, row: Policy)
    requires AllDecode(defs)
    ensures row in Reseeded(p, dom, defs).0 <==> row in CalledFor(dom, defs) || (row in p && !Orphan(row, dom, defs))
  {
    if row in CalledFor(dom, defs) {
      CalledRow(dom, defs, row);
    }
  }

  // The report: Total = before + Added; the rows inserted number Added + Removed; Removed counts
  // the rows that disappeared, all of them orphans.
  lemma ReseedReport(p: set<Policy>, dom: string, defs: seq<RoleDef>)
    requires AllDecode(defs)
    ensures var (after, r) := Reseeded(p, dom, defs);
            && r.Ok?
            && r.value.total == |InDom(p, dom)| + r.value.added
            && p - after == Orphans(p, dom, defs)
            && r.value.removed == |p - after|
            && |after - p| == r.value.added + r.value.removed
  {
    var seed, called := Rows(SeedRules(dom)), CalledFor(dom, defs);
    forall row | row in called ensures row.dom == dom && !Orphan(row, dom, defs) {
      CalledRow(dom, defs, row);
    }
    assert p + seed + Defined(dom, defs) == p + called;
    RepairReport(p, seed, dom, defs, called);
  }

  lemma RepairReport(p: set<Policy>, seed: set<Policy>, dom: string, defs: seq<RoleDef>, called: set<Policy>)
    requires AllDecode(defs) && p + seed + Defined(dom, defs) == p + called
    requires forall row :: row in called ==> row.dom == dom && !Orphan(row, dom, defs)
    ensures var (after, r) := Repaired(p, seed, dom, defs);
            && r.Ok?
            && r.value.total == |InDom(p, dom)| + r.value.added
            && p - after == Orphans(p, dom, defs)
            && r.value.removed == |p - after|
            && |after - p| == r.value.added + r.value.removed
  {
    var after := Repaired(p, seed, dom, defs).0;
    SweepSets(p, called, dom, defs);
    DifferenceCounts(InDom(p, dom), InDom(after, dom));
  }

  lemma SweepSets(p: set<Policy>, called: set<Policy>, dom: string, defs: seq<RoleDef>)
    requires forall row :: row in called ==> row.dom == dom && !Orphan(row, dom, defs)
    ensures var built := p + called;
            var after := built - Orphans(built, dom, defs);
            && Orphans(built, dom, defs) == Orphans(p, dom, defs) == p - after
            && InDom(p, dom) - InDom(after, dom) == p - after
            && InDom(after, dom) - InDom(p, dom) == after - p
  {
    hide Names;
    var built := p + called;
    assert Orphans(built, dom, defs) == Orphans(p, dom, defs);
  }

  lemma DifferenceCounts<T>(before: set<T>, after: set<T>)
    ensures |after - before| - |before - after| == |after| - |before|
  {
    assert after == (after - before) + (after * before);
    assert before == (before - after) + (after * before);
  }

  lemma SecondReseedIsNoop(p: set<Policy>, dom: string, defs: seq<RoleDef>)
    requires AllDecode(defs)
    ensures var (after, r) := Reseeded(p, dom, defs);
            r.Ok? && Reseeded(after, dom, defs) == (after, Ok(Diff(0, 0, r.value.total)))
  {
    var after := Reseeded(p, dom, defs).0;
    var twice := Reseeded(after, dom, defs).0;
    forall row ensures row in twice <==> row in after {
      ReseedHeals(p, dom, defs, row);
      ReseedHeals(after, dom, defs, row);
    }
    assert twice == after;
    ReseedReport(after, dom, defs);
    assert after - after == {};
  }

  // The order definitions are listed in does not matter.
  lemma DefinitionOrderIrrelevant(p: set<Policy>, dom: string, defs: seq<RoleDef>, defs': seq<RoleDef>)
    requires AllDecode(defs) && AllDecode(defs') && forall d :: d in defs <==> d in defs'
    ensures Reseeded(p, dom, defs) == Reseeded(p, dom, defs')
  {
    assert Defined(dom, defs) == Defined(dom, defs') by {
      DefinedWithin(dom, defs, defs');
      DefinedWithin(dom, defs', defs);
    }
    assert Names(defs) == Names(defs') by {
      SameNames(defs, defs');
      SameNames(defs', defs);
    }
    hide SeedRules, Defined, Names;
    var built := p + Rows(SeedRules(dom)) + Defined(dom, defs);
    assert Orphans(built, dom, defs) == Orphans(built, dom, defs');
  }

  lemma DefinedWithin(dom: string, defs: seq<RoleDef>, defs': seq<RoleDef>)
    requires AllDecode(defs) && AllDecode(defs') && forall d :: d in defs ==> d in defs'
    ensures Defined(dom, defs) <= Defined(dom, defs')
  {
    forall row | row in Defined(dom, defs) ensures row in Defined(dom, defs') {
      SameDefined(dom, defs, defs', row);
    }
  }

  lemma SameDefined(dom: string, defs: seq<RoleDef>, defs': seq<RoleDef>, row: Policy)
    requires AllDecode(defs) && AllDecode(defs') && forall d :: d in defs ==> d in defs'
    requires row in Defined(dom, defs)
    ensures row in Defined(dom, defs')
  {
    DefinedMeans(dom, defs, row);
    var i :| 0 <= i < |defs| && row in Granted(dom, defs[i].name, defs[i].perms.value);
    assert defs[i] in defs';
    var j :| 0 <= j < |defs'| && defs'[j] == defs[i];
    DefinedMeans(dom, defs', row);
  }

  lemma SameNames(defs: seq<RoleDef>, defs': seq<RoleDef>)
    requires forall d :: d in defs ==> d in defs'
    ensures Names(defs) <= Names(defs')
  {
    forall i | 0 <= i < |defs| ensures defs[i].name in Names(defs') {
      assert defs[i] in defs';
    }
  }

  // A definition that does not decode stops the repair with rows already added and nothing swept;
  // running it again once the definition is repaired ends where one clean run would have.
  lemma RetryHeals(p: set<Policy>, dom: string, defs: seq<RoleDef>, fixed: seq<RoleDef>)
    requires !AllDecode(defs) && AllDecode(fixed) && |fixed| == |defs|
    requires forall i :: 0 <= i < |defs| ==> fixed[i].name == defs[i].name && (defs[i].perms.Some? ==> fixed[i] == defs[i])
    ensures var (halfway, r) := Reseeded(p, dom, defs);
            && r == Err(BadDefinition) && p <= halfway
            && Reseeded(halfway, dom, fixed).0 == Reseeded(p, dom, fixed).0
  {
    var halfway := Reseeded(p, dom, defs).0;
    PrefixDefined(dom, defs, fixed);
    forall row ensures row in Reseeded(halfway, dom, fixed).0 <==> row in Reseeded(p, dom, fixed).0 {
      ReseedHeals(p, dom, fixed, row);
      ReseedHeals(halfway, dom, fixed, row);
    }
  }

  lemma {:induction false} PrefixDefined(dom: string, defs: seq<RoleDef>, fixed: seq<RoleDef>)
    requires AllDecode(fixed) && |fixed| == |defs|
    requires forall i :: 0 <= i < |defs| ==> defs[i].perms.Some? ==> fixed[i] == defs[i]
    ensures Defined(dom, defs) <= Defined(dom, fixed)
  {
    if defs != [] && defs[0].perms.Some? {
      assert AllDecode(fixed[1..]);
      PrefixDefined(dom, defs[1..], fixed[1..]);
    }
  }

  // ---------- enforcement ----------

  predicate Covers(perm: Permission, obj: string, act: string) {
    (perm.obj == obj || perm.obj == "*") && (perm.act == act || perm.act == "*")
  }

  // What the membership and role-definition tables grant, without looking at any Casbin row.
  predicate TablesGrant(m: Membership, defs: seq<RoleDef>, obj: string, act: string) {
    || m.role == "OWNER"
    || (m.role == "ADMIN" && (obj, act) in ADMIN_MATRIX)
    || (m.role == "MEMBER" && (obj, act) in MEMBER_MATRIX)
    || exists i, k ::
         0 <= i < |defs| && defs[i].name in m.customs && defs[i].perms.Some? && 0 <= k < |defs[i].perms.value|
         && Covers(defs[i].perms.value[k], obj, act)
  }

  predicate Healed(p: set<Policy>, dom: string, defs: seq<RoleDef>) {
    CalledFor(dom, defs) <= p
  }

  // The user holds at least the groupings their membership calls for.
  predicate Holds(g: set<Grouping>, user: string, dom: string, m: Membership) {
    forall role :: role in {m.role} + m.customs ==> Grouping(user, role, dom) in g
  }

  lemma SeedHas(dom: string, perm: (string, string))
    ensures Policy("OWNER", dom, "*", "*") in SeedRules(dom)
    ensures perm in ADMIN_MATRIX ==> Policy("ADMIN", dom, perm.0, perm.1) in SeedRules(dom)
    ensures perm in MEMBER_MATRIX ==> Policy("MEMBER", dom, perm.0, perm.1) in SeedRules(dom)
  {
    var s := SeedRules(dom);
    assert s[0] == Policy("OWNER", dom, "*", "*");
    if perm in ADMIN_MATRIX {
      var i :| 0 <= i < |ADMIN_MATRIX| && ADMIN_MATRIX[i] == perm;
      assert s[i + 1] == RulesFor("ADMIN", dom, ADMIN_MATRIX)[i];
    }
    if perm in MEMBER_MATRIX {
      var i :| 0 <= i < |MEMBER_MATRIX| && MEMBER_MATRIX[i] == perm;
      assert s[i + 1 + |ADMIN_MATRIX|] == RulesFor("MEMBER", dom, MEMBER_MATRIX)[i];
    }
  }

  // Everything the tables grant is let through.
  lemma TablesGrantAllowed(p: set<Policy>, g: set<Grouping>, g2: set<(string, string)>, user: string, dom: string,
                           m: Membership, defs: seq<RoleDef>, obj: string, act: string)
    requires AllDecode(defs) && Healed(p, dom, defs) && Holds(g, user, dom, m) && TablesGrant(m, defs, obj, act)
    ensures Allowed(p, g, g2, user, dom, obj, act)
  {
    SeedHas(dom, (obj, act));
    if m.role == "OWNER" {
      assert Grants(Policy("OWNER", dom, "*", "*"), g, user, dom, obj, act);
    } else if m.role == "ADMIN" && (obj, act) in ADMIN_MATRIX {
      assert Grants(Policy("ADMIN", dom, obj, act), g, user, dom, obj, act);
    } else if m.role == "MEMBER" && (obj, act) in MEMBER_MATRIX {
      assert Grants(Policy("MEMBER", dom, obj, act), g, user, dom, obj, act);
    } else {
      var i, k :| 0 <= i < |defs| && defs[i].name in m.customs && defs[i].perms.Some?
                  && 0 <= k < |defs[i].perms.value| && Covers(defs[i].perms.value[k], obj, act);
      var row := Granted(dom, defs[i].name, defs[i].perms.value)[k];
      DefinedMeans(dom, defs, row);
      assert Grants(row, g, user, dom, obj, act);
    }
  }

  // Nothing beyond what is called for applies in the domain.
  predicate NoSurplus(p: set<Policy>, dom: string, defs: seq<RoleDef>) {
    forall row :: row in p && (row.dom == dom || row.dom == "*") ==> row in CalledFor(dom, defs)
  }

  // The user's roles in the domain are the membership's, and the user's id is no role's name.
  predicate HoldsOnly(g: set<Grouping>, user: string, dom: string, m: Membership, defs: seq<RoleDef>) {
    && !IsFixedRole(user) && user !in Names(defs)
    && forall row :: row in g && row.user == user && row.dom == dom ==> row.role == m.role || row.role in m.customs
  }

  lemma AllowedTablesGrant(p: set<Policy>, g: set<Grouping>, user: string, dom: string, m: Membership,
                           defs: seq<RoleDef>, obj: string, act: string, row: Policy)
    requires AllDecode(defs) && NoSurplus(p, dom, defs) && HoldsOnly(g, user, dom, m, defs)
    requires IsFixedRole(m.role) && forall role :: role in m.customs ==> !IsFixedRole(role)
    requires row in p && Grants(row, g, user, dom, obj, act)
    requires forall i :: 0 <= i < |defs| ==> !IsFixedRole(defs[i].name)
    ensures TablesGrant(m, defs, obj, act)
  {
    CalledRow(dom, defs, row);
    if row in Defined(dom, defs) {
      DefinedRow(dom, defs, row);
      DefinedMeans(dom, defs, row);
      var i :| 0 <= i < |defs| && row in Granted(dom, defs[i].name, defs[i].perms.value);
      var k :| 0 <= k < |defs[i].perms.value| && row == Granted(dom, defs[i].name, defs[i].perms.value)[k];
      assert Covers(defs[i].perms.value[k], obj, act);
    } else {
      SeedRow(dom, row);
      SeedGrants(dom, row, obj, act);
    }
  }

  predicate MatrixGrants(role: string, obj: string, act: string) {
    role == "OWNER" || (role == "ADMIN" && (obj, act) in ADMIN_MATRIX) || (role == "MEMBER" && (obj, act) in MEMBER_MATRIX)
  }

  // A seeded row grants what its role's matrix lists.
  lemma SeedGrants(dom: string, row: Policy, obj: string, act: string)
    requires row in SeedRules(dom) && (row.obj == obj || row.obj == "*") && (row.act == act || row.act == "*")
    ensures MatrixGrants(row.role, obj, act)
  {
    var i :| 0 <= i < |SeedRules(dom)| && SeedRules(dom)[i] == row;
    var a := |ADMIN_MATRIX|;
    if 0 < i <= a {
      assert row == RulesFor("ADMIN", dom, ADMIN_MATRIX)[i - 1];
      NoWildcards(ADMIN_MATRIX[i - 1]);
    } else if a < i {
      assert row == RulesFor("MEMBER", dom, MEMBER_MATRIX)[i - 1 - a];
      NoWildcards(MEMBER_MATRIX[i - 1 - a]);
    }
  }

  lemma NoWildcards(perm: (string, string))
    requires perm in ADMIN_MATRIX || perm in MEMBER_MATRIX
    ensures perm.0 != "*" && perm.1 != "*"
  {
    if perm in MEMBER_MATRIX {
      var i :| 0 <= i < |MEMBER_MATRIX| && MEMBER_MATRIX[i] == perm;
    } else {
      var i :| 0 <= i < |ADMIN_MATRIX| && ADMIN_MATRIX[i] == perm;
      assert |ADMIN_MATRIX[i].0| > 1 && |ADMIN_MATRIX[i].1| > 1;
    }
  }

  // Before a repair: the rows that apply in the domain are called for, or are orphans a reseed sweeps.
  predicate OnlyOrphans(p: set<Policy>, dom: string, defs: seq<RoleDef>) {
    forall row :: row in p && (row.dom == dom || row.dom == "*") && !Orphan(row, dom, defs) ==> row in CalledFor(dom, defs)
  }

  // Before a sync: the custom roles the user holds in the domain are all assigned.
  predicate NoStaleCustoms(g: set<Grouping>, user: string, dom: string, m: Membership) {
    forall row :: row in g && row.user == user && row.dom == dom && !IsFixedRole(row.role) ==> row.role in m.customs
  }

  // What the tables can hold: fixed roles for members, other names for definitions and assignments.
  predicate Tables(ms: map<Id, Membership>, defs: seq<RoleDef>) {
    && (forall q :: q in ms ==> IsFixedRole(ms[q].role) && forall role :: role in ms[q].customs ==> !IsFixedRole(role))
    && (forall i :: 0 <= i < |defs| ==> defs[i].perms.Some? && !IsFixedRole(defs[i].name))
  }

  lemma SyncedHolds(g: set<Grouping>, user: string, o: Id, ms: map<Id, Membership>, u: Uuids, defs: seq<RoleDef>)
    requires u.Valid() && o in ms && Tables(ms, defs) && AllTidy(g, user, Kept(ms, u), u)
    ensures Holds(Synced(g, user, ms, u), user, u.show(o), ms[o])
    ensures NoStaleCustoms(g, user, u.show(o), ms[o]) && !IsFixedRole(user) && user !in Names(defs) ==>
              HoldsOnly(Synced(g, user, ms, u), user, u.show(o), ms[o], defs)
  {
    ConvergesIff(g, user, ms, u);
    var dom := u.show(o);
    forall row | row in Synced(g, user, ms, u) && row.user == user && row.dom == dom
      ensures row.role == ms[o].role || row.role in ms[o].customs || (row in g && !IsFixedRole(row.role))
    {
      TruthShape(g, user, ms, u, o, row);
    }
  }

  // After a reseed of the organization and a sync of the user, whatever rows were missing before,
  // the matcher lets through what the tables grant; and nothing else (but superadmins), when the
  // rows to begin with held no surplus that neither repair removes.
  lemma RepairedMatchesTables(p: set<Policy>, g: set<Grouping>, g2: set<(string, string)>, user: string, o: Id,
                              ms: map<Id, Membership>, u: Uuids, defs: seq<RoleDef>, obj: string, act: string)
    requires u.Valid() && o in ms && Tables(ms, defs) && AllTidy(g, user, Kept(ms, u), u)
    ensures var dom := u.show(o);
            var p', g' := Reseeded(p, dom, defs).0, Synced(g, user, ms, u);
            && (TablesGrant(ms[o], defs, obj, act) ==> Allowed(p', g', g2, user, dom, obj, act))
            && (OnlyOrphans(p, dom, defs) && NoStaleCustoms(g, user, dom, ms[o]) && !IsFixedRole(user) && user !in Names(defs) ==>
                  (Allowed(p', g', g2, user, dom, obj, act) <==> IsSuper(g2, user) || TablesGrant(ms[o], defs, obj, act)))
  {
    var dom := u.show(o);
    var p', g' := Reseeded(p, dom, defs).0, Synced(g, user, ms, u);
    SyncedHolds(g, user, o, ms, u, defs);
    forall row ensures row in p' <==> row in CalledFor(dom, defs) || (row in p && !Orphan(row, dom, defs)) {
      ReseedHeals(p, dom, defs, row);
    }
    assert Healed(p', dom, defs);
    if TablesGrant(ms[o], defs, obj, act) {
      TablesGrantAllowed(p', g', g2, user, dom, ms[o], defs, obj, act);
    }
    if OnlyOrphans(p, dom, defs) && HoldsOnly(g', user, dom, ms[o], defs) && !IsSuper(g2, user)
       && Allowed(p', g', g2, user, dom, obj, act)
    {
      var row :| row in p' && Grants(row, g', user, dom, obj, act);
      AllowedTablesGrant(p', g', user, dom, ms[o], defs, obj, act, row);
    }
  }
}
