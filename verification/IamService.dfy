// The enforcer's rows updated in place. Every loop over rows, keys or memberships picks its next
// element arbitrarily, as Go's map iteration does; the result does not depend on it.
module IamService {
  import opened Common
  import opened Iam
  import opened IamSync
  import opened IamReseed

  // One more organization refreshed.
  lemma RefreshedStep(g: set<Grouping>, user: string, ms: map<Id, Membership>, orgs: set<Id>, o: Id, u: Uuids)
    requires u.Valid() && orgs <= ms.Keys && o in ms && o !in orgs
    ensures Refreshed(g, user, ms, orgs + {o}, u) ==
      SyncMembership(Refreshed(g, user, ms, orgs, u), user, u.show(o), Some(ms[o].role))
        + CustomRows(user, u.show(o), ms[o].customs)
  {
    var dom := u.show(o);
    forall q | q in orgs ensures u.show(q) != dom {
      assert u.parse(u.show(q)) == Some(q);
    }
    var mine := {ms[o].role} + ms[o].customs;
    var l := Refreshed(g, user, ms, orgs + {o}, u);
    var r := SyncMembership(Refreshed(g, user, ms, orgs, u), user, dom, Some(ms[o].role))
               + CustomRows(user, dom, ms[o].customs);
    forall row ensures row in l <==> row in r {
      assert row in Called(user, ms, orgs + {o}, u) <==>
        row in Called(user, ms, orgs, u) || (row.user == user && row.dom == dom && row.role in mine);
      assert row in Called(user, ms, orgs, u) ==> row.dom != dom;
    }
  }

  function CustomRows(user: string, dom: string, customs: set<string>): set<Grouping> {
    set role | role in customs :: Grouping(user, role, dom)
  }

  function Shown(orgs: set<Id>, u: Uuids): set<string> {
    set o | o in orgs :: u.show(o)
  }

  // What handling one snapshot key removes.
  function SweepKey(g: set<Grouping>, key: string, user: string, kept: set<string>, u: Uuids): set<Grouping> {
    set row | row in g && !Dooms(key, row, user, kept, u)
  }

  class Enforcer {
    var p: set<Policy>
    var g: set<Grouping>
    var g2: set<(string, string)>

    constructor ()
      ensures p == {} && g == {} && g2 == {}
    {
      p, g, g2 := {}, {}, {};
    }

    // ---------- groupings ----------

    method SyncMembership(user: string, dom: string, role: Option<string>)
      modifies this`g
      ensures g == Iam.SyncMembership(old(g), user, dom, role)
    {
      var rows := set row | row in g && row.user == user;
      while rows != {}
        invariant rows <= RowsOf(old(g), user)
        invariant g == set row | row in old(g) && !(FixedAt(row, user, dom) && row !in rows)
        decreases |rows|
      {
        var row :| row in rows;
        rows := rows - {row};
        if row.dom == dom && IsFixedRole(row.role) {
          g := g - {row};
        }
      }
      if role.Some? {
        g := g + {Grouping(user, role.value, dom)};
      }
    }

    method SyncCustomGrouping(user: string, dom: string, role: string, grant: bool)
      modifies this`g
      ensures g == SyncCustom(old(g), user, dom, role, grant)
      ensures forall row :: row in g <==> if row == Grouping(user, role, dom) then grant else row in old(g)
      ensures SyncCustom(g, user, dom, role, grant) == g
      ensures (Grouping(user, role, dom) in old(g) <==> !grant) ==> SyncCustom(g, user, dom, role, !grant) == old(g)
    {
      CustomMeans(g, user, dom, role, grant);
      if grant {
        g := g + {Grouping(user, role, dom)};
      } else {
        g := g - {Grouping(user, role, dom)};
      }
    }

    method GroupingSet(user: string) returns (keys: set<string>)
      ensures keys == Keys(g, user)
    {
      var rows := set row | row in g && row.user == user;
      keys := {};
      ghost var seen: set<Grouping> := {};
      while rows != {}
        invariant seen + rows == RowsOf(g, user) && seen !! rows
        invariant keys == Keys(seen, user)
        decreases |rows|
      {
        var row :| row in rows;
        rows := rows - {row};
        assert Keys(seen + {row}, user) == Keys(seen, user) + {Key(row)};
        seen := seen + {row};
        keys := keys + {Key(row)};
      }
      assert Keys(seen, user) == Keys(g, user);
    }

    // How many of the first are missing from the second.
    method CountMissing(a: set<string>, b: set<string>) returns (n: nat)
      ensures n == |a - b|
    {
      var todo := a;
      n := 0;
      while todo != {}
        invariant todo <= a && n + |todo - b| == |a - b|
        decreases |todo|
      {
        var x :| x in todo;
        if x !in b {
          CardRemove(todo - b, x);
          assert (todo - {x}) - b == (todo - b) - {x};
          n := n + 1;
        } else {
          assert (todo - {x}) - b == todo - b;
        }
        todo := todo - {x};
      }
      assert {} - b == {};
    }

    method SyncUserPolicies(user: string, known: bool, ms: map<Id, Membership>, u: Uuids) returns (r: Reply<Diff, IamError>)
      requires u.Valid()
      modifies this`g
      ensures !known ==> r == Err(UserNotFound) && g == old(g)
      ensures known ==>
                && g == Synced(old(g), user, ms, u)
                && r == Ok(DiffOf(Keys(old(g), user), Keys(g, user)))
                && r.value.total == |Keys(old(g), user)| + r.value.added - r.value.removed
    {
      if !known { return Err(UserNotFound); }
      var before := GroupingSet(user);
      var keep := RefreshMemberships(user, ms, u);
      SweepSnapshot(user, before, keep, u);
      var after := GroupingSet(user);
      var added := CountMissing(after, before);
      var removed := CountMissing(before, after);
      DiffBalances(before, after);
      r := Ok(Diff(added, removed, |after|));
    }

    method RefreshMemberships(user: string, ms: map<Id, Membership>, u: Uuids) returns (keep: set<string>)
      requires u.Valid()
      modifies this`g
      ensures g == Refreshed(old(g), user, ms, ms.Keys, u) && keep == Kept(ms, u)
    {
      var todo := ms.Keys;
      keep := {};
      assert g == Refreshed(old(g), user, ms, {}, u);
      assert Shown(ms.Keys, u) == Kept(ms, u);
      hide Refreshed, CustomRows, Iam.SyncMembership;
      while todo != {}
        invariant todo <= ms.Keys
        invariant g == Refreshed(old(g), user, ms, ms.Keys - todo, u)
        invariant keep == Shown(ms.Keys - todo, u)
        decreases |todo|
      {
        var o :| o in todo;
        assert Shown(ms.Keys - todo + {o}, u) == Shown(ms.Keys - todo, u) + {u.show(o)};
        RefreshedStep(old(g), user, ms, ms.Keys - todo, o, u);
        SyncMembership(user, u.show(o), Some(ms[o].role));
        keep := keep + {u.show(o)};
        GrantCustoms(user, u.show(o), ms[o].customs);
        assert ms.Keys - todo + {o} == ms.Keys - (todo - {o});
        todo := todo - {o};
      }
      assert ms.Keys - todo == ms.Keys;
    }

    method GrantCustoms(user: string, dom: string, customs: set<string>)
      modifies this`g
      ensures g == old(g) + CustomRows(user, dom, customs)
    {
      var todo := customs;
      while todo != {}
        invariant todo <= customs
        invariant g == old(g) + (set role | role in customs && role !in todo :: Grouping(user, role, dom))
        decreases |todo|
      {
        var role :| role in todo;
        todo := todo - {role};
        SyncCustomGrouping(user, dom, role, true);
      }
    }

    method SweepSnapshot(user: string, before: set<string>, keep: set<string>, u: Uuids)
      modifies this`g
      ensures g == Swept(old(g), before, user, keep, u)
    {
      var todo := before;
      assert g == Swept(g, {}, user, keep, u);
      while todo != {}
        invariant todo <= before
        invariant g == Swept(old(g), before - todo, user, keep, u)
        decreases |todo|
      {
        var key :| key in todo;
        ghost var done := before - todo;
        SweepOne(key, user, keep, u);
        todo := todo - {key};
        assert before - todo == done + {key};
        assert forall row :: Doomed(done + {key}, row, user, keep, u) <==> Doomed(done, row, user, keep, u) || Dooms(key, row, user, keep, u);
      }
      assert before - todo == before;
    }

    method SweepOne(key: string, user: string, keep: set<string>, u: Uuids)
      modifies this`g
      ensures g == SweepKey(old(g), key, user, keep, u)
    {
      var (role, ref) := SplitKey(key);
      if ref in keep || u.parse(ref).None? {
        assert g == SweepKey(g, key, user, keep, u);
        return;
      }
      var dom := u.show(u.parse(ref).value);
      if !IsFixedRole(role) {
        SyncCustomGrouping(user, dom, role, false);
      } else {
        SyncMembership(user, dom, None);
      }
    }

    // ---------- policies ----------

    method AddRules(rules: seq<Policy>) returns (added: nat)
      modifies this`p
      ensures p == old(p) + Rows(rules) && added == |p - old(p)|
    {
      added := 0;
      for i := 0 to |rules|
        invariant p == old(p) + Rows(rules[..i]) && added == |Rows(rules[..i]) - old(p)|
      {
        OneMoreRule(old(p), rules, i);
        if rules[i] !in p {
          p := p + {rules[i]};
          added := added + 1;
        }
      }
      assert rules[..|rules|] == rules;
      assert p - old(p) == Rows(rules) - old(p);
    }

    method SeedOrgPolicies(dom: string)
      modifies this`p
      ensures p == old(p) + Rows(SeedRules(dom))
    {
      var added := AddRules(SeedRules(dom));
    }

    method EnsureCustomRolePolicies(dom: string, role: string, perms: seq<Permission>) returns (added: nat)
      modifies this`p
      ensures p == old(p) + Rows(Granted(dom, role, perms)) && added == |p - old(p)|
    {
      added := AddRules(Granted(dom, role, perms));
    }

    method RemoveCustomRolePolicies(dom: string, role: string) returns (removed: nat)
      modifies this`p
      ensures p == old(p) - RoleRows(old(p), dom, role)
      ensures removed == |RoleRows(old(p), dom, role)|
    {
      var rows := RoleRows(p, dom, role);
      ghost var all := rows;
      removed := 0;
      while rows != {}
        invariant rows <= all && p == old(p) - (all - rows)
        invariant removed + |rows| == |all|
        decreases |rows|
      {
        var row :| row in rows;
        CardRemove(rows, row);
        rows := rows - {row};
        p := p - {row};
        removed := removed + 1;
      }
    }

    // The custom rows of a domain by role; only the names matter to the sweep.
    method ListCustomRolePolicies(dom: string) returns (out: map<string, seq<Permission>>)
      ensures Listed(out, InDom(p, dom))
    {
      var rows := set row | row in p && row.dom == dom;
      ghost var seen: set<Policy> := {};
      out := map[];
      while rows != {}
        invariant seen + rows == InDom(p, dom)
        invariant Listed(out, seen)
        decreases |rows|
      {
        var row :| row in rows;
        rows := rows - {row};
        ListOne(out, seen, row);
        if !IsFixedRole(row.role) {
          out := out[row.role := (if row.role in out then out[row.role] else []) + [Permission(row.obj, row.act)]];
        }
        seen := seen + {row};
      }
      assert seen == InDom(p, dom);
    }

    method CountOrgPolicies(dom: string) returns (n: nat)
      ensures n == |InDom(p, dom)|
    {
      n := |set row | row in p && row.dom == dom|;
    }

    // The definitions in turn, up to one that does not decode.
    method RematerializeCustomRoles(dom: string, defs: seq<RoleDef>) returns (r: Reply<nat, IamError>)
      modifies this`p
      ensures !AllDecode(defs) ==> r == Err(BadDefinition) && p == old(p) + Defined(dom, defs)
      ensures AllDecode(defs) ==>
                var built := old(p) + Defined(dom, defs);
                p == built - Orphans(built, dom, defs) && r == Ok(|Orphans(built, dom, defs)|)
    {
      var names: set<string> := {};
      DefinitionsEnds(dom, defs);
      hide Defined, Names, AllDecode, Orphans, Rows;
      for i := 0 to |defs|
        invariant names == Names(defs[..i]) && AllDecode(defs[..i])
        invariant p + Defined(dom, defs[i..]) == old(p) + Defined(dom, defs)
      {
        DefinitionsStep(dom, defs, i);
        names := names + {defs[i].name};
        if defs[i].perms.None? {
          return Err(BadDefinition);
        }
        var added := EnsureCustomRolePolicies(dom, defs[i].name, defs[i].perms.value);
      }
      var removed := SweepOrphans(dom, defs, names);
      r := Ok(removed);
    }

    method SweepOrphans(dom: string, defs: seq<RoleDef>, names: set<string>) returns (removed: nat)
      requires names == Names(defs)
      modifies this`p
      ensures p == old(p) - Orphans(old(p), dom, defs) && removed == |Orphans(old(p), dom, defs)|
    {
      var live := ListCustomRolePolicies(dom);
      var todo := live.Keys;
      removed := 0;
      assert OrphansBut(old(p), dom, defs, todo) == {} by {
        OrphansAreLive(p, dom, defs, live);
      }
      while todo != {}
        invariant todo <= live.Keys
        invariant p == old(p) - OrphansBut(old(p), dom, defs, todo)
        invariant removed == |OrphansBut(old(p), dom, defs, todo)|
        decreases |todo|
      {
        var role :| role in todo;
        OrphanStep(old(p), dom, defs, todo, role);
        todo := todo - {role};
        assert !IsFixedRole(role);
        if role !in names {
          assert RoleRows(p, dom, role) == RoleRows(old(p), dom, role);
          var n := RemoveCustomRolePolicies(dom, role);
          removed := removed + n;
        }
      }
      assert OrphansBut(old(p), dom, defs, {}) == Orphans(old(p), dom, defs);
    }

    method ReseedOrgPolicies(dom: string, known: bool, defs: seq<RoleDef>) returns (r: Reply<Diff, IamError>)
      modifies this`p
      ensures !known ==> r == Err(OrgNotFound) && p == old(p)
      ensures known ==> (p, r) == Reseeded(old(p), dom, defs)
    {
      if !known { return Err(OrgNotFound); }
      r := Repair(dom, SeedRules(dom), defs);
    }

    method Repair(dom: string, rules: seq<Policy>, defs: seq<RoleDef>) returns (r: Reply<Diff, IamError>)
      modifies this`p
      ensures (p, r) == Repaired(old(p), Rows(rules), dom, defs)
    {
      hide Defined, Orphans, AllDecode, Rows, InDom;
      var before: int := CountOrgPolicies(dom);
      var added := AddRules(rules);
      var removed := RematerializeCustomRoles(dom, defs);
      if removed.Err? { return Err(removed.error); }
      var after: int := CountOrgPolicies(dom);
      r := Ok(Diff(after - before, removed.value, after));
    }

    // ---------- superadmins ----------

    method SeedSuperAdmins(emails: seq<string>, account: string -> Option<string>)
      modifies this`g2
      ensures g2 == SuperAdmins(old(g2), emails, account)
      ensures emails == [] ==> g2 == old(g2)
      ensures emails != [] ==>
                forall sub: string :: sub != "superadmin" ==> (IsSuper(g2, sub) <==> exists email :: email in emails && account(email) == Some(sub))
      ensures forall row: (string, string) :: row.1 != "superadmin" ==> (row in g2 <==> row in old(g2))
      ensures SuperAdmins(g2, emails, account) == g2
      ensures emails != [] ==>
                forall sub: string, dom: string, obj: string, act: string ::
                  sub != "superadmin" && (forall email :: email in emails ==> account(email) != Some(sub)) ==>
                    (Allowed(p, g, g2, sub, dom, obj, act) <==> exists row :: row in p && Grants(row, g, sub, dom, obj, act))
    {
      SuperAdminsMean(g2, emails, account);
      if |emails| == 0 { return; }
      var want: set<string> := {};
      for i := 0 to |emails|
        invariant want == Accounts(emails[..i], account)
        invariant g2 == old(g2) + Supers(want)
      {
        assert emails[..i + 1] == emails[..i] + [emails[i]];
        var user := account(emails[i]);
        if user.Some? {
          assert Supers(want + {user.value}) == Supers(want) + {(user.value, SUPERADMIN)};
          want := want + {user.value};
          g2 := g2 + {(user.value, SUPERADMIN)};
        }
      }
      assert emails[..|emails|] == emails;
      RevokeStale(want);
    }

    method RevokeStale(want: set<string>)
      modifies this`g2
      ensures g2 == set row | row in old(g2) && (row.1 == SUPERADMIN ==> row.0 in want)
    {
      var existing := set row | row in g2 && row.1 == SUPERADMIN;
      while existing != {}
        invariant forall row :: row in existing ==> row in old(g2) && row.1 == SUPERADMIN
        invariant g2 <= old(g2)
        invariant forall row :: row in old(g2) ==> (row in g2 <==> (row.1 == SUPERADMIN ==> row.0 in want || row in existing))
        decreases |existing|
      {
        var row :| row in existing;
        existing := existing - {row};
        if row.0 !in want {
          g2 := g2 - {row};
        }
      }
    }
  }

  lemma OneMoreRule(p: set<Policy>, rules: seq<Policy>, i: nat)
    requires i < |rules|
    ensures Rows(rules[..i + 1]) == Rows(rules[..i]) + {rules[i]}
    ensures |Rows(rules[..i + 1]) - p| == |Rows(rules[..i]) - p| + if rules[i] in p + Rows(rules[..i]) then 0 else 1
  {
    assert rules[..i + 1] == rules[..i] + [rules[i]];
    var before, after := Rows(rules[..i]) - p, Rows(rules[..i + 1]) - p;
    if rules[i] in p + Rows(rules[..i]) {
      assert after == before;
    } else {
      assert after == before + {rules[i]};
    }
  }

  function Accounts(emails: seq<string>, account: string -> Option<string>): set<string> {
    set email | email in emails && account(email).Some? :: account(email).value
  }

  function Supers(ids: set<string>): set<(string, string)> {
    set id | id in ids :: (id, SUPERADMIN)
  }

  function RoleRows(p: set<Policy>, dom: string, role: string): set<Policy> {
    set row | row in p && row.dom == dom && row.role == role
  }

  // The orphans whose role is no longer on the list of roles to look at.
  function OrphansBut(p: set<Policy>, dom: string, defs: seq<RoleDef>, todo: set<string>): set<Policy> {
    set row | row in p && Orphan(row, dom, defs) && row.role !in todo
  }

  lemma OrphansAreLive(p: set<Policy>, dom: string, defs: seq<RoleDef>, live: map<string, seq<Permission>>)
    requires Listed(live, InDom(p, dom))
    ensures OrphansBut(p, dom, defs, live.Keys) == {}
  {
    forall row | row in p && Orphan(row, dom, defs) ensures row.role in live.Keys {
      assert row in InDom(p, dom);
    }
  }

  lemma OrphanStep(p: set<Policy>, dom: string, defs: seq<RoleDef>, todo: set<string>, role: string)
    requires role in todo && !IsFixedRole(role)
    ensures var before, after := OrphansBut(p, dom, defs, todo), OrphansBut(p, dom, defs, todo - {role});
            if role in Names(defs) then after == before
            else after == before + RoleRows(p, dom, role) && |after| == |before| + |RoleRows(p, dom, role)|
  {
    var before, after := OrphansBut(p, dom, defs, todo), OrphansBut(p, dom, defs, todo - {role});
    if role in Names(defs) {
      assert after == before;
    } else {
      var rows := RoleRows(p, dom, role);
      assert after == before + rows;
      assert before !! rows;
    }
  }

  // The listing of some rows: their custom roles, each with its permissions.
  ghost predicate Listed(out: map<string, seq<Permission>>, rows: set<Policy>) {
    && (forall row :: row in rows && !IsFixedRole(row.role) ==> row.role in out)
    && (forall role :: role in out ==> !IsFixedRole(role) && exists row :: row in rows && row.role == role)
    && (forall role :: role in out ==> Rows(out[role]) == PermsIn(rows, role))
  }

  lemma ListOne(out: map<string, seq<Permission>>, seen: set<Policy>, row: Policy)
    requires Listed(out, seen)
    ensures IsFixedRole(row.role) ==> Listed(out, seen + {row})
    ensures !IsFixedRole(row.role) ==>
              Listed(out[row.role := (if row.role in out then out[row.role] else []) + [Permission(row.obj, row.act)]], seen + {row})
  {
    var perm := Permission(row.obj, row.act);
    forall role ensures PermsIn(seen + {row}, role) == PermsIn(seen, role) + if row.role == role then {perm} else {} {
    }
    if !IsFixedRole(row.role) {
      var sofar := if row.role in out then out[row.role] else [];
      assert row.role !in out ==> PermsIn(seen, row.role) == {};
      assert Rows(sofar + [perm]) == Rows(sofar) + {perm};
    }
  }

  function PermsIn(p: set<Policy>, role: string): set<Permission> {
    set row | row in p && row.role == role :: Permission(row.obj, row.act)
  }

  lemma DefinitionsEnds(dom: string, defs: seq<RoleDef>)
    ensures defs[..0] == [] && Names([]) == {} && AllDecode([]) && defs[0..] == defs
    ensures defs[..|defs|] == defs && Defined(dom, defs[|defs|..]) == {}
  {
  }

  // One more definition, decoded or not.
  lemma DefinitionsStep(dom: string, defs: seq<RoleDef>, i: nat)
    requires i < |defs|
    ensures Names(defs[..i + 1]) == Names(defs[..i]) + {defs[i].name}
    ensures AllDecode(defs[..i + 1]) <==> AllDecode(defs[..i]) && defs[i].perms.Some?
    ensures AllDecode(defs) ==> defs[i].perms.Some?
    ensures Defined(dom, defs[i..]) ==
      if defs[i].perms.None? then {} else Rows(Granted(dom, defs[i].name, defs[i].perms.value)) + Defined(dom, defs[i + 1..])
  {
    assert defs[i..][0] == defs[i] && defs[i..][1..] == defs[i + 1..];
    assert defs[..i + 1] == defs[..i] + [defs[i]];
    NamesSnoc(defs[..i], defs[i]);
    assert AllDecode(defs[..i + 1]) ==> forall k :: 0 <= k < i ==> defs[..i][k] == defs[..i + 1][k];
    assert defs[..i + 1][i] == defs[i];
  }

  lemma NamesSnoc(defs: seq<RoleDef>, d: RoleDef)
    ensures Names(defs + [d]) == Names(defs) + {d.name}
  {
    forall x | x in Names(defs) + {d.name} ensures x in Names(defs + [d]) {
      if x == d.name {
        assert (defs + [d])[|defs|] == d;
      } else {
        var i :| 0 <= i < |defs| && defs[i].name == x;
        assert (defs + [d])[i] == defs[i];
      }
    }
  }
}
