/** The whole conversion: four phases over all tables of all databases. */
module ConditionRun {
  import opened ConditionTable
  import opened ConditionRows

  /** A table of doTables: its number of condition columns and the expansion it came with. */
  datatype TableSpec = TableSpec(name: string, columns: nat, minExpansion: int)

  const TABLES: seq<TableSpec> := [
    TableSpec("reference_loot_template", 1, 0),
    TableSpec("creature_loot_template", 1, 0),
    TableSpec("gameobject_loot_template", 1, 0),
    TableSpec("pickpocketing_loot_template", 1, 0),
    TableSpec("item_loot_template", 1, 0),
    TableSpec("fishing_loot_template", 1, 0),
    TableSpec("skinning_loot_template", 1, 0),
    TableSpec("disenchant_loot_template", 1, 0),
    TableSpec("mail_loot_template", 1, 0),
    TableSpec("prospecting_loot_template", 1, 1),
    TableSpec("spell_loot_template", 1, 2),
    TableSpec("milling_loot_template", 1, 2),
    TableSpec("gossip_menu", 2, 0),
    TableSpec("gossip_menu_option", 3, 0)
  ]

  /** The length of TABLES. */
  const TABLE_COUNT: nat := 14

  datatype Database = Database(name: string, expansion: int, rows: map<string, seq<Row>>)

  /** Which tables exist: the loot and gossip tables of every expansion, the others from theirs on. */
  predicate HasTable(db: Database, k: nat)
    requires k < TABLE_COUNT
  {
    TABLES[k].minExpansion <= 0 || TABLES[k].minExpansion <= db.expansion
  }

  /** doTables skips the one-column tables after phase 1 and gossip_menu in phase 3. */
  predicate Visited(phase: nat, db: Database, k: nat)
    requires k < TABLE_COUNT
  {
    && HasTable(db, k)
    && (if TABLES[k].columns == 1 then phase <= 1 else if TABLES[k].columns == 2 then phase < 3 else true)
  }

  ghost predicate IsDatabase(db: Database) {
    forall k :: 0 <= k < TABLE_COUNT && HasTable(db, k) ==>
      TABLES[k].name in db.rows &&
      forall r :: 0 <= r < |db.rows[TABLES[k].name]| ==> IsRow(db.rows[TABLES[k].name][r], TABLES[k].columns)
  }

  ghost predicate AreDatabases(dbs: seq<Database>) {
    forall d :: 0 <= d < |dbs| ==> IsDatabase(dbs[d])
  }

  /** A row of a table of a database. */
  datatype Ref = Ref(d: nat, k: nat, r: nat)

  predicate IsRef(dbs: seq<Database>, x: Ref) {
    && x.d < |dbs| && x.k < TABLE_COUNT && HasTable(dbs[x.d], x.k) && TABLES[x.k].name in dbs[x.d].rows
    && x.r < |dbs[x.d].rows[TABLES[x.k].name]|
    && IsRow(dbs[x.d].rows[TABLES[x.k].name][x.r], TABLES[x.k].columns)
  }

  function RowAt(dbs: seq<Database>, x: Ref): (row: Row)
    requires IsRef(dbs, x)
    ensures IsRow(row, |row.conds|)
  {
    dbs[x.d].rows[TABLES[x.k].name][x.r]
  }

  // ----- one row -----

  /** progressTable on one row; id 0 means that no UPDATE is written. */
  function ProcessRow(list: seq<Entry>, phase: nat, row: Row, database: string): Point
    requires IsRow(row, |row.conds|)
  {
    var t := SortRow(row);
    var n := t.Count();
    if n == 0 then Point(list, 0)
    else if phase == 0 then Point(InsertAtoms(list, t, n, database), 0)
    else if phase != n then Point(list, 0)
    else
      var f0 := Find(list, t.c1);
      var f1 := if n >= 2 then Find(list, t.c2) else 0;
      var f2 := if n >= 3 then Find(list, t.c3) else 0;
      if f0 == 0 || (n >= 2 && f1 == 0) || (n >= 3 && f2 == 0) then Point(list, 0)
      else if n == 3 then ThreePoint(list, f0, f1, f2, database)
      else if n == 2 then TwoPoint(list, f0, f1, database)
      else Point(list, f0)
  }

  /** Every condition of the row has an id. */
  ghost predicate Known(list: seq<Entry>, row: Row)
    requires Ordered(list) && IsRow(row, |row.conds|)
  {
    var t := SortRow(row);
    forall i :: 0 <= i < t.Count() ==> Holds(list, multiset{t.At(i)})
  }

  lemma KnownStable(list: seq<Entry>, longer: seq<Entry>, row: Row)
    requires Ordered(list) && Ordered(longer) && list <= longer && IsRow(row, |row.conds|) && Known(list, row)
    ensures Known(longer, row)
  {
    hide SortRow;
    var t := SortRow(row);
    forall i | 0 <= i < t.Count()
      ensures Holds(longer, multiset{t.At(i)})
    {
      HoldsStable(list, longer, multiset{t.At(i)});
    }
  }

  /** Phase 0 makes a row known. */
  lemma Phase0Row(list: seq<Entry>, row: Row, database: string)
    requires Valid(list) && IsRow(row, |row.conds|)
    ensures var p := ProcessRow(list, 0, row, database);
      p.id == 0 && Valid(p.list) && list <= p.list && Known(p.list, row)
  {
    hide SortRow, Active;
    SortedPrefix(row);
    InsertAtomsValid(list, SortRow(row), SortRow(row).Count(), database);
  }

  /** A later phase gives a known row of its own size an id that stands for exactly its
      conditions, and leaves every other row alone. */
  lemma LaterRow(list: seq<Entry>, phase: nat, row: Row, database: string)
    requires Valid(list) && IsRow(row, |row.conds|) && phase >= 1 && Known(list, row)
    ensures var p := ProcessRow(list, phase, row, database);
      if phase == |Active(row.conds)| then Stands(list, p, Active(row.conds)) else p == Point(list, 0)
  {
    hide SortRow, Active, Leaves, ThreePoint, TwoPoint, Canonical;
    SortedPrefix(row);
    var t := SortRow(row);
    var n := t.Count();
    if phase == n {
      PrefixUnfolds(t);
      FindKnown(list, t, 0);
      if n >= 2 { FindKnown(list, t, 1); }
      if n >= 3 { FindKnown(list, t, 2); }
      var f0, f1, f2 := Find(list, t.c1), Find(list, t.c2), Find(list, t.c3);
      if n == 2 { TwoPointStands(list, f0, f1, database); }
      if n == 3 { ThreePointStands(list, f0, f1, f2, database); }
    }
  }

  lemma FindKnown(list: seq<Entry>, t: Triple, i: nat)
    requires Valid(list) && i < 3 && t.At(i).kind > 0 && Holds(list, multiset{t.At(i)})
    ensures var f := Find(list, t.At(i));
      IsId(list, f) && Leaves(list, f) == multiset{t.At(i)} && |Leaves(list, f)| == 1
  {
    FindAtom(list, t.At(i));
  }

  // ----- all rows, in order -----

  datatype Update = Update(ref: Ref, phase: nat, id: nat)

  datatype Work = Work(list: seq<Entry>, log: seq<Update>)

  function ProcessRef(w: Work, phase: nat, dbs: seq<Database>, x: Ref): Work
    requires IsRef(dbs, x)
  {
    var p := ProcessRow(w.list, phase, RowAt(dbs, x), dbs[x.d].name);
    Work(p.list, if p.id > 0 then w.log + [Update(x, phase, p.id)] else w.log)
  }

  function ProcessAll(w: Work, phase: nat, dbs: seq<Database>, refs: seq<Ref>): Work
    requires forall x :: x in refs ==> IsRef(dbs, x)
  {
    if refs == [] then w
    else ProcessRef(ProcessAll(w, phase, dbs, refs[..|refs| - 1]), phase, dbs, refs[|refs| - 1])
  }

  function RowRefs(d: nat, k: nat, n: nat): seq<Ref> {
    if n == 0 then [] else RowRefs(d, k, n - 1) + [Ref(d, k, n - 1)]
  }

  /** How many rows of table `k` a phase goes through. */
  function RowsIn(phase: nat, db: Database, k: nat): nat {
    if k < TABLE_COUNT && Visited(phase, db, k) && TABLES[k].name in db.rows then |db.rows[TABLES[k].name]| else 0
  }

  function TableRefs(phase: nat, db: Database, d: nat, n: nat): seq<Ref> {
    if n == 0 then [] else TableRefs(phase, db, d, n - 1) + RowRefs(d, n - 1, RowsIn(phase, db, n - 1))
  }

  /** The rows one phase visits, in order. */
  function PhaseRefs(phase: nat, dbs: seq<Database>, n: nat): seq<Ref>
    requires n <= |dbs|
  {
    if n == 0 then [] else PhaseRefs(phase, dbs, n - 1) + TableRefs(phase, dbs[n - 1], n - 1, TABLE_COUNT)
  }

  ghost function Times(refs: seq<Ref>, x: Ref): nat { multiset(refs)[x] }

  lemma TimesConcat(a: seq<Ref>, b: seq<Ref>, x: Ref)
    ensures Times(a + b, x) == Times(a, x) + Times(b, x)
  {
  }

  lemma {:induction false} RowRefsOnce(d: nat, k: nat, n: nat, x: Ref)
    ensures Times(RowRefs(d, k, n), x) == if x.d == d && x.k == k && x.r < n then 1 else 0
  {
    if n > 0 {
      RowRefsOnce(d, k, n - 1, x);
      TimesConcat(RowRefs(d, k, n - 1), [Ref(d, k, n - 1)], x);
    }
  }

  lemma {:induction false} TableRefsOnce(phase: nat, db: Database, d: nat, n: nat, x: Ref)
    ensures Times(TableRefs(phase, db, d, n), x) == if x.d == d && x.k < n && x.r < RowsIn(phase, db, x.k) then 1 else 0
  {
    hide RowsIn, Times;
    if n == 0 {
      TimesNone(x);
    } else {
      var front, back := TableRefs(phase, db, d, n - 1), RowRefs(d, n - 1, RowsIn(phase, db, n - 1));
      assert TableRefs(phase, db, d, n) == front + back;
      hide TableRefs, RowRefs;
      TableRefsOnce(phase, db, d, n - 1, x);
      RowRefsOnce(d, n - 1, RowsIn(phase, db, n - 1), x);
      TimesConcat(front, back, x);
    }
  }

  /** Each row that a phase visits is visited once. */
  lemma {:induction false} PhaseRefsOnce(phase: nat, dbs: seq<Database>, n: nat, x: Ref)
    requires n <= |dbs|
    ensures Times(PhaseRefs(phase, dbs, n), x) ==
      if x.d < n && x.k < TABLE_COUNT && x.r < RowsIn(phase, dbs[x.d], x.k) then 1 else 0
  {
    hide RowsIn, Times, TableRefs;
    if n == 0 {
      TimesNone(x);
    } else {
      var front, back := PhaseRefs(phase, dbs, n - 1), TableRefs(phase, dbs[n - 1], n - 1, TABLE_COUNT);
      assert PhaseRefs(phase, dbs, n) == front + back;
      hide PhaseRefs;
      PhaseRefsOnce(phase, dbs, n - 1, x);
      TableRefsOnce(phase, dbs[n - 1], n - 1, TABLE_COUNT, x);
      TimesConcat(front, back, x);
    }
  }

  lemma TimesNone(x: Ref)
    ensures Times([], x) == 0
  {
  }

  lemma RowsInExact(phase: nat, dbs: seq<Database>, x: Ref)
    requires AreDatabases(dbs)
    ensures x.d < |dbs| && x.k < TABLE_COUNT && x.r < RowsIn(phase, dbs[x.d], x.k) <==>
      IsRef(dbs, x) && Visited(phase, dbs[x.d], x.k)
  {
    if x.d < |dbs| { assert IsDatabase(dbs[x.d]); }
  }

  lemma PhaseRefsExact(phase: nat, dbs: seq<Database>)
    requires AreDatabases(dbs)
    ensures forall x :: x in PhaseRefs(phase, dbs, |dbs|) <==> IsRef(dbs, x) && Visited(phase, dbs[x.d], x.k)
  {
    forall x
      ensures x in PhaseRefs(phase, dbs, |dbs|) <==> IsRef(dbs, x) && Visited(phase, dbs[x.d], x.k)
    {
      PhaseRefsOnce(phase, dbs, |dbs|, x);
      RowsInExact(phase, dbs, x);
      hide IsRef, Visited;
      assert x in PhaseRefs(phase, dbs, |dbs|) <==> Times(PhaseRefs(phase, dbs, |dbs|), x) > 0;
    }
  }

  // ----- phase 0 -----

  lemma {:induction false} Phase0(w: Work, dbs: seq<Database>, refs: seq<Ref>)
    requires Valid(w.list) && forall x :: x in refs ==> IsRef(dbs, x)
    ensures var v := ProcessAll(w, 0, dbs, refs);
      Valid(v.list) && w.list <= v.list && v.log == w.log && forall x :: x in refs ==> Known(v.list, RowAt(dbs, x))
  {
    hide Known, Canonical, ProcessRow;
    if refs != [] {
      var front, last := refs[..|refs| - 1], refs[|refs| - 1];
      var u := ProcessAll(w, 0, dbs, front);
      Phase0(w, dbs, front);
      Phase0Row(u.list, RowAt(dbs, last), dbs[last.d].name);
      var v := ProcessAll(w, 0, dbs, refs);
      forall x | x in refs
        ensures Known(v.list, RowAt(dbs, x))
      {
        if x != last {
          assert x in front;
          KnownStable(u.list, v.list, RowAt(dbs, x));
        }
      }
    }
  }

  // ----- later phases -----

  /** Each UPDATE of the log writes an id that stands for the conditions of its row. */
  ghost predicate LogStands(list: seq<Entry>, log: seq<Update>, dbs: seq<Database>)
    requires Valid(list)
  {
    forall i :: 0 <= i < |log| ==>
      && IsRef(dbs, log[i].ref) && IsId(list, log[i].id)
      && Leaves(list, log[i].id) == Active(RowAt(dbs, log[i].ref).conds)
      && log[i].phase == |Active(RowAt(dbs, log[i].ref).conds)|
  }

  function Refs(log: seq<Update>): seq<Ref> {
    seq(|log|, i requires 0 <= i < |log| => log[i].ref)
  }

  /** The number of UPDATEs written for row `x` so far. */
  ghost function Written(w: Work, x: Ref): nat { Times(Refs(w.log), x) }

  lemma LogStable(list: seq<Entry>, longer: seq<Entry>, log: seq<Update>, dbs: seq<Database>)
    requires Valid(list) && Valid(longer) && list <= longer && LogStands(list, log, dbs)
    ensures LogStands(longer, log, dbs)
  {
    hide Active, Canonical;
    forall i | 0 <= i < |log|
      ensures IsId(longer, log[i].id) && Leaves(longer, log[i].id) == Leaves(list, log[i].id)
    {
      LeavesStable(list, longer, log[i].id);
    }
  }

  /** One row in a later phase: what is logged is right, and it is logged exactly if due. */
  lemma LaterRef(w: Work, phase: nat, dbs: seq<Database>, x: Ref)
    requires Valid(w.list) && phase >= 1 && IsRef(dbs, x) && Known(w.list, RowAt(dbs, x))
    requires LogStands(w.list, w.log, dbs)
    ensures var v := ProcessRef(w, phase, dbs, x);
      && Valid(v.list) && w.list <= v.list && LogStands(v.list, v.log, dbs)
      && Refs(v.log) == if |Active(RowAt(dbs, x).conds)| == phase then Refs(w.log) + [x] else Refs(w.log)
  {
    hide ProcessRow, Known, Active, Canonical;
    var p := ProcessRow(w.list, phase, RowAt(dbs, x), dbs[x.d].name);
    LaterRow(w.list, phase, RowAt(dbs, x), dbs[x.d].name);
    LogStable(w.list, p.list, w.log, dbs);
  }

  lemma {:induction false} LaterPhase(w: Work, phase: nat, dbs: seq<Database>, refs: seq<Ref>)
    requires Valid(w.list) && phase >= 1 && LogStands(w.list, w.log, dbs)
    requires forall x :: x in refs ==> IsRef(dbs, x) && Known(w.list, RowAt(dbs, x))
    ensures var v := ProcessAll(w, phase, dbs, refs);
      && Valid(v.list) && w.list <= v.list && LogStands(v.list, v.log, dbs)
      && forall x :: IsRef(dbs, x) ==>
           Written(v, x) == Written(w, x) + if |Active(RowAt(dbs, x).conds)| == phase then Times(refs, x) else 0
  {
    hide ProcessRef, Known, Active, LogStands, Canonical;
    if refs != [] {
      var front, last := refs[..|refs| - 1], refs[|refs| - 1];
      var u := ProcessAll(w, phase, dbs, front);
      LaterPhase(w, phase, dbs, front);
      KnownStable(w.list, u.list, RowAt(dbs, last));
      LaterRef(u, phase, dbs, last);
      assert refs == front + [last];
    }
  }

  // ----- the whole run -----

  function RunPhase(w: Work, phase: nat, dbs: seq<Database>): Work
    requires AreDatabases(dbs)
  {
    PhaseRefsExact(phase, dbs);
    ProcessAll(w, phase, dbs, PhaseRefs(phase, dbs, |dbs|))
  }

  function Run(dbs: seq<Database>): Work
    requires AreDatabases(dbs)
  {
    RunPhase(RunPhase(RunPhase(RunPhase(Work(INITIAL, []), 0, dbs), 1, dbs), 2, dbs), 3, dbs)
  }

  ghost predicate AllKnown(list: seq<Entry>, dbs: seq<Database>)
    requires Ordered(list)
  {
    forall x :: IsRef(dbs, x) ==> Known(list, RowAt(dbs, x))
  }

  lemma LaterRunPhase(w: Work, phase: nat, dbs: seq<Database>)
    requires AreDatabases(dbs) && 1 <= phase <= 3
    requires Valid(w.list) && AllKnown(w.list, dbs) && LogStands(w.list, w.log, dbs)
    ensures var v := RunPhase(w, phase, dbs);
      && Valid(v.list) && AllKnown(v.list, dbs) && LogStands(v.list, v.log, dbs)
      && forall x :: IsRef(dbs, x) ==>
           Written(v, x) == Written(w, x) + if |Active(RowAt(dbs, x).conds)| == phase then 1 else 0
  {
    hide Known, Active, LogStands, Canonical, ProcessAll, PhaseRefs;
    PhaseRefsExact(phase, dbs);
    LaterPhase(w, phase, dbs, PhaseRefs(phase, dbs, |dbs|));
    var v := RunPhase(w, phase, dbs);
    forall x | IsRef(dbs, x)
      ensures Known(v.list, RowAt(dbs, x))
      ensures Written(v, x) == Written(w, x) + if |Active(RowAt(dbs, x).conds)| == phase then 1 else 0
    {
      KnownStable(w.list, v.list, RowAt(dbs, x));
      PhaseRefsOnce(phase, dbs, |dbs|, x);
      RowsInExact(phase, dbs, x);
      ActiveFits(RowAt(dbs, x));
    }
  }

  lemma ActiveFits(row: Row)
    requires IsRow(row, |row.conds|)
    ensures |Active(row.conds)| <= |row.conds|
  {
    SortedPrefix(row);
  }

  lemma InitialValid()
    ensures Valid(INITIAL) && |INITIAL| == 1
  {
  }

  /** After a run over any databases: the table is canonical, and every row with at least one
      condition has been given exactly one id, one that stands for exactly its conditions. */
  lemma RunExact(dbs: seq<Database>)
    requires AreDatabases(dbs)
    ensures var w := Run(dbs);
      && Valid(w.list) && LogStands(w.list, w.log, dbs)
      && forall x :: IsRef(dbs, x) ==> Written(w, x) == if |Active(RowAt(dbs, x).conds)| >= 1 then 1 else 0
  {
    hide Known, Active, LogStands, Canonical, RunPhase;
    var w0 := RunPhase(Work(INITIAL, []), 0, dbs);
    FirstRunPhase(dbs);
    var w1 := RunPhase(w0, 1, dbs);
    LaterRunPhase(w0, 1, dbs);
    var w2 := RunPhase(w1, 2, dbs);
    LaterRunPhase(w1, 2, dbs);
    LaterRunPhase(w2, 3, dbs);
    forall x | IsRef(dbs, x)
      ensures |Active(RowAt(dbs, x).conds)| <= 3
    {
      ActiveFits(RowAt(dbs, x));
    }
  }

  lemma FirstRunPhase(dbs: seq<Database>)
    requires AreDatabases(dbs)
    ensures var w := RunPhase(Work(INITIAL, []), 0, dbs);
      Valid(w.list) && AllKnown(w.list, dbs) && LogStands(w.list, w.log, dbs) && forall x :: Written(w, x) == 0
  {
    hide Known, Active, ProcessAll, PhaseRefs;
    InitialValid();
    PhaseRefsExact(0, dbs);
    Phase0(Work(INITIAL, []), dbs, PhaseRefs(0, dbs, |dbs|));
  }

  /** Two rows, of whatever databases and tables, get the same id exactly when they have the
      same conditions. */
  lemma SameIdSameConditions(dbs: seq<Database>, i: nat, j: nat)
    requires AreDatabases(dbs)
    ensures var log := Run(dbs).log; i < |log| && j < |log| ==>
      && IsRef(dbs, log[i].ref) && IsRef(dbs, log[j].ref)
      && (log[i].id == log[j].id <==> Active(RowAt(dbs, log[i].ref).conds) == Active(RowAt(dbs, log[j].ref).conds))
  {
    hide Active, Run;
    RunExact(dbs);
  }

  /** In the final table an emitted id means the conjunction of its row's active conditions,
      under every assignment of truth values. */
  lemma IdMeansRow(dbs: seq<Database>, i: nat, truth: Condition -> bool)
    requires AreDatabases(dbs)
    ensures var w := Run(dbs); i < |w.log| ==>
      && Ordered(w.list) && IsId(w.list, w.log[i].id) && IsRef(dbs, w.log[i].ref)
      && var conds := RowAt(dbs, w.log[i].ref).conds;
         Eval(w.list, w.log[i].id, truth) <==> forall c :: c in conds && c.kind > 0 ==> truth(c)
  {
    hide Run, Active, Canonical;
    RunExact(dbs);
    var w := Run(dbs);
    if i < |w.log| {
      var conds := RowAt(dbs, w.log[i].ref).conds;
      EvalIsConjunction(w.list, w.log[i].id, truth);
      forall c
        ensures c in Active(conds) <==> c in conds && c.kind > 0
      {
        ActiveMembers(conds, c);
      }
    }
  }

  lemma {:induction false} ActiveMembers(conds: seq<Condition>, c: Condition)
    ensures c in Active(conds) <==> c in conds && c.kind > 0
  {
    if conds != [] {
      ActiveMembers(conds[1..], c);
      assert c in conds <==> c == conds[0] || c in conds[1..];
    }
  }
}
