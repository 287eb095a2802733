// SyncUserPolicies converges: to what, from where, and exactly when.
module IamSync {
  import opened Common
  import opened Iam

  // The membership truth: everyone else's rows as they were; the user's role and assigned customs in
  // each organization they belong to, and the custom rows they already had there.
  function Truth(g: set<Grouping>, user: string, ms: map<Id, Membership>, u: Uuids): set<Grouping> {
    (set row | row in g && (row.user != user || (row.dom in Kept(ms, u) && !IsFixedRole(row.role))))
      + Called(user, ms, ms.Keys, u)
  }

  // A row the sync can handle: its domain is a printed UUID, and its key reads back as the row
  // unless the organization is kept anyway.
  predicate Tidy(row: Grouping, kept: set<string>, u: Uuids) {
    && u.parse(row.dom).Some? && u.show(u.parse(row.dom).value) == row.dom
    && (row.dom in kept || '@' !in row.role)
  }

  ghost predicate AllTidy(g: set<Grouping>, user: string, kept: set<string>, u: Uuids) {
    forall row :: row in g && row.user == user ==> Tidy(row, kept, u)
  }

  lemma {:induction false} SplitKeyHead(key: string)
    ensures '@' !in SplitKey(key).0
  {
    if key != "" && key[0] != '@' {
      SplitKeyHead(key[1..]);
    }
  }

  lemma KeptIsTidy(dom: string, ms: map<Id, Membership>, u: Uuids)
    requires u.Valid() && dom in Kept(ms, u)
    ensures u.parse(dom).Some? && u.show(u.parse(dom).value) == dom && '@' !in dom
  {
  }

  // ---------- what a snapshot key can remove ----------

  // A row that is not tidy is never swept: it outlives every sync.
  lemma UntidyStays(row: Grouping, keys: set<string>, user: string, ms: map<Id, Membership>, u: Uuids)
    requires u.Valid() && !Tidy(row, Kept(ms, u), u)
    ensures row.dom !in Kept(ms, u) && !Doomed(keys, row, user, Kept(ms, u), u)
  {
    if row.dom in Kept(ms, u) {
      KeptIsTidy(row.dom, ms, u);
    }
    forall key | key in keys ensures !Dooms(key, row, user, Kept(ms, u), u) {
      SplitKeyHead(key);
    }
  }

  // A row in a kept organization is in danger only from the key of a row that is not tidy.
  lemma OnlyUntidyHarms(y: Grouping, x: Grouping, user: string, ms: map<Id, Membership>, u: Uuids)
    requires u.Valid() && Dooms(Key(y), x, user, Kept(ms, u), u) && x.dom in Kept(ms, u)
    ensures !Tidy(y, Kept(ms, u), u)
  {
    if '@' in y.role {
      SplitKeyInside(y.role, y.dom);
      var tail := SplitKey(y.role).1;
      assert SplitKey(Key(y)).1 == tail + "@" + y.dom;
      assert forall o: Id :: u.parse(tail + "@" + u.show(o)) == None;
    } else {
      SplitKeyAt(y.role, y.dom);
    }
  }

  // A tidy row outside the kept organizations is removed by its own key.
  lemma TidyGoes(row: Grouping, keys: set<string>, user: string, ms: map<Id, Membership>, u: Uuids)
    requires u.Valid() && Tidy(row, Kept(ms, u), u) && row.dom !in Kept(ms, u) && row.user == user && Key(row) in keys
    ensures Doomed(keys, row, user, Kept(ms, u), u)
  {
    SplitKeyAt(row.role, row.dom);
    assert Dooms(Key(row), row, user, Kept(ms, u), u);
  }

  // ---------- convergence ----------

  lemma CalledInKept(row: Grouping, user: string, ms: map<Id, Membership>, u: Uuids)
    requires row in Called(user, ms, ms.Keys, u)
    ensures row.user == user && row.dom in Kept(ms, u)
  {
  }

  lemma RefreshedAll(g: set<Grouping>, user: string, ms: map<Id, Membership>, u: Uuids, row: Grouping)
    ensures row in Refreshed(g, user, ms, ms.Keys, u) <==>
      row in Called(user, ms, ms.Keys, u) ||
      (row in g && !(row.user == user && IsFixedRole(row.role) && row.dom in Kept(ms, u)))
  {
  }

  // Whatever the rows were, a sync reaches the membership truth exactly when every row the user
  // had was tidy.
  lemma ConvergesIff(g: set<Grouping>, user: string, ms: map<Id, Membership>, u: Uuids)
    requires u.Valid()
    ensures Synced(g, user, ms, u) == Truth(g, user, ms, u) <==> AllTidy(g, user, Kept(ms, u), u)
  {
    if AllTidy(g, user, Kept(ms, u), u) {
      forall row ensures row in Synced(g, user, ms, u) <==> row in Truth(g, user, ms, u) {
        RowConverges(g, user, ms, u, row);
      }
    } else {
      var row :| row in g && row.user == user && !Tidy(row, Kept(ms, u), u);
      UntidyStays(row, Keys(g, user), user, ms, u);
      RefreshedAll(g, user, ms, u, row);
      assert row in Synced(g, user, ms, u);
      assert row !in Truth(g, user, ms, u);
    }
  }

  lemma RowConverges(g: set<Grouping>, user: string, ms: map<Id, Membership>, u: Uuids, row: Grouping)
    requires u.Valid() && AllTidy(g, user, Kept(ms, u), u)
    ensures row in Synced(g, user, ms, u) <==> row in Truth(g, user, ms, u)
  {
    RefreshedAll(g, user, ms, u, row);
    var keys, kept := Keys(g, user), Kept(ms, u);
    if row.dom in kept {
      forall key | key in keys ensures !Dooms(key, row, user, kept, u) {
        var y :| y in g && y.user == user && Key(y) == key;
        if Dooms(key, row, user, kept, u) {
          OnlyUntidyHarms(y, row, user, ms, u);
        }
      }
    } else if row in g && row.user == user {
      assert Key(row) in keys;
      TidyGoes(row, keys, user, ms, u);
    }
  }

  // Nobody else's row is added or removed, tidy or not.
  lemma OthersUntouched(g: set<Grouping>, user: string, ms: map<Id, Membership>, u: Uuids, row: Grouping)
    requires row.user != user
    ensures row in Synced(g, user, ms, u) <==> row in g
  {
  }

  // What the truth says: in each organization of the user one fixed row, the membership's own;
  // every assigned custom; and nothing anywhere else.
  lemma TruthShape(g: set<Grouping>, user: string, ms: map<Id, Membership>, u: Uuids, o: Id, row: Grouping)
    requires u.Valid() && row.user == user
    requires forall q :: q in ms ==> IsFixedRole(ms[q].role) && forall role :: role in ms[q].customs ==> !IsFixedRole(role)
    ensures row in Truth(g, user, ms, u) ==> row.dom in Kept(ms, u)
    ensures o in ms && row.dom == u.show(o) ==>
              (row in Truth(g, user, ms, u) <==>
                 if IsFixedRole(row.role) then row.role == ms[o].role else row.role in ms[o].customs || row in g)
  {
    if o in ms && row.dom == u.show(o) {
      assert row in Called(user, ms, ms.Keys, u) <==> row.role == ms[o].role || row.role in ms[o].customs by {
        forall q | q in ms && u.show(q) == u.show(o) ensures q == o {
          assert u.parse(u.show(q)) == Some(q);
        }
      }
    }
  }

  // ---------- a second run ----------

  lemma CalledIsTidy(row: Grouping, user: string, ms: map<Id, Membership>, u: Uuids)
    requires u.Valid() && row in Called(user, ms, ms.Keys, u)
    ensures Tidy(row, Kept(ms, u), u)
  {
    CalledInKept(row, user, ms, u);
    KeptIsTidy(row.dom, ms, u);
  }

  // From any rows at all, tidy or not, a second sync changes nothing.
  lemma SecondRunIsNoop(g: set<Grouping>, user: string, ms: map<Id, Membership>, u: Uuids)
    requires u.Valid()
    ensures var once := Synced(g, user, ms, u);
            && Synced(once, user, ms, u) == once
            && DiffOf(Keys(once, user), Keys(Synced(once, user, ms, u), user)) == Diff(0, 0, |Keys(once, user)|)
  {
    var once := Synced(g, user, ms, u);
    forall row ensures row in Synced(once, user, ms, u) <==> row in once {
      if row in once {
        StaysOnce(g, user, ms, u, row);
      } else if row in Synced(once, user, ms, u) {
        GoneStaysGone(g, user, ms, u, row);
      }
    }
    var keys := Keys(once, user);
    assert keys - keys == {};
  }

  lemma StaysOnce(g: set<Grouping>, user: string, ms: map<Id, Membership>, u: Uuids, row: Grouping)
    requires u.Valid() && row in Synced(g, user, ms, u)
    ensures row in Synced(Synced(g, user, ms, u), user, ms, u)
  {
    var once, kept := Synced(g, user, ms, u), Kept(ms, u);
    RefreshedAll(g, user, ms, u, row);
    RefreshedAll(once, user, ms, u, row);
    forall key | key in Keys(once, user) ensures !Dooms(key, row, user, kept, u) {
      var y :| y in once && y.user == user && Key(y) == key;
      RefreshedAll(g, user, ms, u, y);
      if y in g {
        assert key in Keys(g, user);
      } else if Dooms(key, row, user, kept, u) {
        CalledInKept(y, user, ms, u);
        KeptKeyIsHarmless(y, row, user, ms, u);
      }
    }
  }

  // The key of a row in a kept organization removes nothing.
  lemma KeptKeyIsHarmless(y: Grouping, x: Grouping, user: string, ms: map<Id, Membership>, u: Uuids)
    requires u.Valid() && y.dom in Kept(ms, u)
    ensures !Dooms(Key(y), x, user, Kept(ms, u), u)
  {
    KeptIsTidy(y.dom, ms, u);
    if '@' in y.role {
      SplitKeyInside(y.role, y.dom);
      var tail := SplitKey(y.role).1;
      assert u.parse(tail + "@" + u.show(u.parse(y.dom).value)) == None;
    } else {
      SplitKeyAt(y.role, y.dom);
    }
  }

  lemma GoneStaysGone(g: set<Grouping>, user: string, ms: map<Id, Membership>, u: Uuids, row: Grouping)
    requires u.Valid() && row !in Synced(g, user, ms, u)
    ensures row !in Synced(Synced(g, user, ms, u), user, ms, u)
  {
    var once, kept := Synced(g, user, ms, u), Kept(ms, u);
    RefreshedAll(g, user, ms, u, row);
    RefreshedAll(once, user, ms, u, row);
    if row in Called(user, ms, ms.Keys, u) {
      CalledInKept(row, user, ms, u);
      assert Doomed(Keys(g, user), row, user, kept, u);
      var key :| key in Keys(g, user) && Dooms(key, row, user, kept, u);
      var y :| y in g && y.user == user && Key(y) == key;
      OnlyUntidyHarms(y, row, user, ms, u);
      UntidyStays(y, Keys(g, user), user, ms, u);
      RefreshedAll(g, user, ms, u, y);
      assert y in once;
      assert key in Keys(once, user);
    }
  }

  // ---------- the report ----------

  // Total = |before| + Added - Removed, whatever the two snapshots.
  lemma DiffBalances(before: set<string>, after: set<string>)
    ensures var d := DiffOf(before, after);
            d.total == |before| + d.added - d.removed
  {
    assert after == (after - before) + (after * before);
    assert before == (before - after) + (after * before);
  }

  function RowsOf(g: set<Grouping>, user: string): set<Grouping> {
    set row | row in g && row.user == user
  }

  // Keys count rows, as long as no domain holds an '@'.
  lemma {:induction false} KeysCountRows(g: set<Grouping>, user: string)
    requires forall row :: row in g && row.user == user ==> '@' !in row.dom
    ensures |Keys(g, user)| == |RowsOf(g, user)|
    decreases |RowsOf(g, user)|
  {
    var rows := RowsOf(g, user);
    if rows == {} {
      assert forall row :: row in g && row.user == user ==> row in rows;
      assert Keys(g, user) == {};
    } else {
      var row :| row in rows;
      var rest := g - {row};
      assert RowsOf(rest, user) == rows - {row};
      CardRemove(rows, row);
      KeysCountRows(rest, user);
      assert Keys(g, user) == Keys(rest, user) + {Key(row)};
      assert Key(row) !in Keys(rest, user) by {
        forall y | y in rest && y.user == user ensures Key(y) != Key(row) {
          if Key(y) == Key(row) {
            KeyInjective(y.role, y.dom, row.role, row.dom);
          }
        }
      }
    }
  }
}
