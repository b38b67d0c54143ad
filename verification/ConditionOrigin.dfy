/** Where the entries of the table come from: each was made for a row of the database it names, and
    for the conditions of that row alone; and which tables have rows to serve. */
module ConditionOrigin {
  import opened ConditionTable
  import opened ConditionRows
  import opened ConditionRun

  // ----- one row -----

  /** The table has grown by entries of `database` that stand for some of the conditions `m`. */
  ghost predicate GrownFor(list: seq<Entry>, longer: seq<Entry>, m: multiset<Condition>, database: string) {
    && Ordered(longer) && list <= longer
    && forall i :: |list| <= i < |longer| && IsId(longer, i) ==>
         longer[i].database == database && Leaves(longer, i) <= m
  }

  lemma NothingGrown(list: seq<Entry>, m: multiset<Condition>, database: string)
    requires Ordered(list)
    ensures GrownFor(list, list, m, database)
  {
  }

  lemma GrownTwice(list: seq<Entry>, longer: seq<Entry>, longest: seq<Entry>, m: multiset<Condition>,
                   two: multiset<Condition>, database: string)
    requires GrownFor(list, longer, m, database) && GrownFor(longer, longest, two, database)
    ensures GrownFor(list, longest, m + two, database)
  {
    forall i | |list| <= i < |longest| && IsId(longest, i)
      ensures longest[i].database == database && Leaves(longest, i) <= m + two
    {
      if i < |longer| { LeavesStable(longer, longest, i); }
    }
  }

  lemma {:induction false} AtomsGrow(list: seq<Entry>, t: Triple, n: nat, database: string)
    requires Valid(list) && n <= 3 && forall i :: 0 <= i < n ==> t.At(i).kind > 0
    ensures GrownFor(list, InsertAtoms(list, t, n, database), Prefix(t, n), database)
  {
    hide Leaves;
    if n == 0 {
      NothingGrown(list, Prefix(t, 0), database);
    } else {
      AtomsGrow(list, t, n - 1, database);
      InsertAtomsValid(list, t, n - 1, database);
      var shorter := InsertAtoms(list, t, n - 1, database);
      AtomGrows(shorter, t.At(n - 1), database);
      GrownTwice(list, shorter, InsertAtoms(list, t, n, database), Prefix(t, n - 1), multiset{t.At(n - 1)}, database);
    }
  }

  lemma AtomGrows(list: seq<Entry>, c: Condition, database: string)
    requires Valid(list) && c.kind > 0
    ensures GrownFor(list, InsertMissing(list, c, database), multiset{c}, database)
  {
    InsertOrdered(list, c, database);
  }

  /** A node inserted last, with an id that stands for `m`. */
  lemma LastGrows(list: seq<Entry>, c: Condition, database: string, m: multiset<Condition>)
    requires Ordered(list) && Ordered(Insert(list, c, database)) && Leaves(Insert(list, c, database), |list|) <= m
    ensures GrownFor(list, Insert(list, c, database), m, database)
  {
  }

  lemma PairGrows(list: seq<Entry>, f0: nat, f1: nat, database: string)
    requires Valid(list) && IsId(list, f0) && IsId(list, f1)
    requires |Leaves(list, f0)| == 1 && |Leaves(list, f1)| == 1
    ensures GrownFor(list, TwoPoint(list, f0, f1, database).list, Leaves(list, f0) + Leaves(list, f1), database)
  {
    hide Leaves, Canonical;
    var m := Leaves(list, f0) + Leaves(list, f1);
    TwoPointStands(list, f0, f1, database);
    if FindPair(list, f1, f0) == 0 {
      LastGrows(list, And(f1, f0), database, m);
    } else {
      NothingGrown(list, m, database);
    }
  }

  lemma TopGrows(list: seq<Entry>, f0: nat, f1: nat, f2: nat, database: string)
    requires Valid(list) && IsId(list, f0) && IsId(list, f1) && IsId(list, f2)
    requires |Leaves(list, f0)| == 1 && |Leaves(list, f1)| == 1 && |Leaves(list, f2)| == 1
    ensures GrownFor(list, ThreePoint(list, f0, f1, f2, database).list,
              Leaves(list, f0) + Leaves(list, f1) + Leaves(list, f2), database)
  {
    hide Leaves, Canonical, GrownFor, FirstTop, TopNode;
    var m := Leaves(list, f0) + Leaves(list, f1) + Leaves(list, f2);
    var p := ThreePoint(list, f0, f1, f2, database);
    ThreePointStands(list, f0, f1, f2, database);
    InsertOrdered(list, And(f1, f2), database);
    var list1 := Insert(list, And(f1, f2), database);
    LastGrows(list, And(f1, f2), database, m);
    NothingGrown(list, m, database);
    var q := FindPairs(list, f0, f1, f2);
    var base := if q == Pairs(0, 0, 0) then list1 else list;
    assert p.list == base || (|p.list| == |base| + 1 && p.id == |base| && p.list[|base|].database == database);
    if p.list != base {
      NodeGrows(base, p.list, database, m);
      GrownAgain(list, base, p.list, m, database);
    }
  }

  lemma NodeGrows(list: seq<Entry>, longer: seq<Entry>, database: string, m: multiset<Condition>)
    requires Ordered(list) && Ordered(longer) && list <= longer && |longer| == |list| + 1
    requires longer[|list|].database == database && Leaves(longer, |list|) <= m
    ensures GrownFor(list, longer, m, database)
  {
  }

  lemma GrownAgain(list: seq<Entry>, longer: seq<Entry>, longest: seq<Entry>, m: multiset<Condition>, database: string)
    requires GrownFor(list, longer, m, database) && GrownFor(longer, longest, m, database)
    ensures GrownFor(list, longest, m, database)
  {
    forall i | |list| <= i < |longest| && IsId(longest, i)
      ensures longest[i].database == database && Leaves(longest, i) <= m
    {
      if i < |longer| { LeavesStable(longer, longest, i); }
    }
  }

  /** Whatever a row adds names its database and stands for some of its conditions. */
  lemma RowGrows(list: seq<Entry>, phase: nat, row: Row, database: string)
    requires Valid(list) && IsRow(row, |row.conds|) && (phase >= 1 ==> Known(list, row))
    ensures GrownFor(list, ProcessRow(list, phase, row, database).list, Active(row.conds), database)
  {
    hide SortRow, Active, Leaves, ThreePoint, TwoPoint, Canonical, GrownFor;
    SortedPrefix(row);
    var t := SortRow(row);
    var n := t.Count();
    NothingGrown(list, Active(row.conds), database);
    if phase == 0 {
      AtomsGrow(list, t, n, database);
    } else if phase == n {
      PrefixUnfolds(t);
      FindKnown(list, t, 0);
      if n >= 2 { FindKnown(list, t, 1); }
      if n >= 3 { FindKnown(list, t, 2); }
      var f0, f1, f2 := Find(list, t.c1), Find(list, t.c2), Find(list, t.c3);
      if n == 2 { PairGrows(list, f0, f1, database); }
      if n == 3 { TopGrows(list, f0, f1, f2, database); }
    }
  }

  // ----- the whole run -----

  /** Entry `i` was made for row `x`. */
  ghost predicate MadeFor(list: seq<Entry>, i: nat, dbs: seq<Database>, x: Ref)
    requires Ordered(list) && IsId(list, i)
  {
    IsRef(dbs, x) && list[i].database == dbs[x.d].name && Leaves(list, i) <= Active(RowAt(dbs, x).conds)
  }

  /** Every entry was made for some row. */
  ghost predicate AllMade(list: seq<Entry>, dbs: seq<Database>)
    requires Ordered(list)
  {
    forall i :: IsId(list, i) ==> exists x :: MadeFor(list, i, dbs, x)
  }

  lemma StillMade(list: seq<Entry>, longer: seq<Entry>, dbs: seq<Database>, x: Ref)
    requires Ordered(list) && AllMade(list, dbs) && IsRef(dbs, x)
    requires GrownFor(list, longer, Active(RowAt(dbs, x).conds), dbs[x.d].name)
    ensures AllMade(longer, dbs)
  {
    hide Active;
    forall i | IsId(longer, i)
      ensures exists y :: MadeFor(longer, i, dbs, y)
    {
      if i < |list| {
        assert IsId(list, i);
        var y :| MadeFor(list, i, dbs, y);
        LeavesStable(list, longer, i);
        assert MadeFor(longer, i, dbs, y);
      } else {
        assert MadeFor(longer, i, dbs, x);
      }
    }
  }

  lemma {:induction false} RowsMade(w: Work, phase: nat, dbs: seq<Database>, refs: seq<Ref>)
    requires Valid(w.list) && AllMade(w.list, dbs)
    requires forall x :: x in refs ==> IsRef(dbs, x) && (phase >= 1 ==> Known(w.list, RowAt(dbs, x)))
    ensures var v := ProcessAll(w, phase, dbs, refs);
      Valid(v.list) && w.list <= v.list && AllMade(v.list, dbs)
  {
    hide ProcessRow, Known, Active, Canonical, AllMade, GrownFor;
    if refs != [] {
      var front, x := refs[..|refs| - 1], refs[|refs| - 1];
      assert x in refs && forall y :: y in front ==> y in refs;
      var u := ProcessAll(w, phase, dbs, front);
      RowsMade(w, phase, dbs, front);
      var row := RowAt(dbs, x);
      if phase >= 1 {
        KnownStable(w.list, u.list, row);
        LaterRow(u.list, phase, row, dbs[x.d].name);
      } else {
        Phase0Row(u.list, row, dbs[x.d].name);
      }
      RowGrows(u.list, phase, row, dbs[x.d].name);
      StillMade(u.list, ProcessRow(u.list, phase, row, dbs[x.d].name).list, dbs, x);
    }
  }

  lemma PhaseMade(w: Work, phase: nat, dbs: seq<Database>)
    requires AreDatabases(dbs) && Valid(w.list) && AllMade(w.list, dbs) && (phase >= 1 ==> AllKnown(w.list, dbs))
    ensures var v := RunPhase(w, phase, dbs); Valid(v.list) && w.list <= v.list && AllMade(v.list, dbs)
  {
    hide ProcessAll, Known, Canonical, AllMade, PhaseRefs;
    PhaseRefsExact(phase, dbs);
    RowsMade(w, phase, dbs, PhaseRefs(phase, dbs, |dbs|));
  }

  lemma NothingMade(dbs: seq<Database>)
    ensures Ordered(INITIAL) && AllMade(INITIAL, dbs)
  {
  }

  /** After a run over any databases the table has nothing that no row asked for: every entry but
      the initial one names the database of some row and stands for some of its conditions. */
  lemma EveryEntryMade(dbs: seq<Database>)
    requires AreDatabases(dbs)
    ensures Ordered(Run(dbs).list) && AllMade(Run(dbs).list, dbs) && Run(dbs).list[0] == Entry(0, NONE, "initial fill")
  {
    hide Known, Active, LogStands, Canonical, RunPhase, AllMade;
    InitialValid();
    NothingMade(dbs);
    var start := Work(INITIAL, []);
    var w0 := RunPhase(start, 0, dbs);
    FirstRunPhase(dbs);
    PhaseMade(start, 0, dbs);
    var w1 := RunPhase(w0, 1, dbs);
    LaterRunPhase(w0, 1, dbs);
    PhaseMade(w0, 1, dbs);
    var w2 := RunPhase(w1, 2, dbs);
    LaterRunPhase(w1, 2, dbs);
    PhaseMade(w1, 2, dbs);
    LaterRunPhase(w2, 3, dbs);
    PhaseMade(w2, 3, dbs);
  }

  // ----- the tables served -----

  /** The tables of a database of an expansion, and how many conditions their rows have: three
      loot tables came with expansions 1 and 2, and only the gossip tables have more than one. */
  predicate HasRows(expansion: int, name: string, columns: nat) {
    || (columns == 1 && name in {"reference_loot_template", "creature_loot_template", "gameobject_loot_template",
                                 "pickpocketing_loot_template", "item_loot_template", "fishing_loot_template",
                                 "skinning_loot_template", "disenchant_loot_template", "mail_loot_template"})
    || (columns == 1 && expansion >= 1 && name == "prospecting_loot_template")
    || (columns == 1 && expansion >= 2 && name in {"spell_loot_template", "milling_loot_template"})
    || (columns == 2 && name == "gossip_menu")
    || (columns == 3 && name == "gossip_menu_option")
  }

  predicate IsTable(db: Database, k: nat, name: string, columns: nat) {
    k < TABLE_COUNT && HasTable(db, k) && TABLES[k].name == name && TABLES[k].columns == columns
  }

  lemma TablesServed(db: Database, name: string, n: nat)
    ensures HasRows(db.expansion, name, n) <==> exists k: nat :: IsTable(db, k, name, n)
  {
    assert IsTable(db, 0, name, n) || IsTable(db, 1, name, n) || IsTable(db, 2, name, n) || IsTable(db, 3, name, n)
        || IsTable(db, 4, name, n) || IsTable(db, 5, name, n) || IsTable(db, 6, name, n) || IsTable(db, 7, name, n)
        || IsTable(db, 8, name, n) || IsTable(db, 9, name, n) || IsTable(db, 10, name, n) || IsTable(db, 11, name, n)
        || IsTable(db, 12, name, n) || IsTable(db, 13, name, n) || !HasRows(db.expansion, name, n);
  }

  /** Every row of every such table that has a condition is given its id by exactly one UPDATE. */
  lemma EveryRowServed(dbs: seq<Database>, d: nat, name: string, columns: nat, r: nat)
    requires AreDatabases(dbs) && d < |dbs| && HasRows(dbs[d].expansion, name, columns)
    requires name in dbs[d].rows && r < |dbs[d].rows[name]|
    ensures exists k: nat :: IsTable(dbs[d], k, name, columns) && IsRef(dbs, Ref(d, k, r)) &&
              Written(Run(dbs), Ref(d, k, r)) == if |Active(dbs[d].rows[name][r].conds)| >= 1 then 1 else 0
  {
    hide Run, Active, HasRows;
    TablesServed(dbs[d], name, columns);
    var k: nat :| IsTable(dbs[d], k, name, columns);
    RunExact(dbs);
    assert IsDatabase(dbs[d]);
    assert IsRef(dbs, Ref(d, k, r));
  }
}
