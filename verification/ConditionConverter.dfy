/** The conversion script itself: its globals as fields, its procedures as methods, each tied
    to the function on tables that ConditionRows and ConditionRun reason about. */
module ConditionConverter {
  import opened ConditionTable
  import opened ConditionRows
  import opened ConditionRun

  class Converter {
    var linkedList: seq<Entry>
    var oldMax: nat
    var processNumConditions: nat
    var updates: seq<Update>

    ghost predicate Counts()
      reads this
    {
      |linkedList| == oldMax + 1
    }

    function State(): Work
      reads this
    {
      Work(linkedList, updates)
    }

    constructor ()
      ensures Counts() && State() == Work(INITIAL, [])
    {
      linkedList, oldMax, processNumConditions, updates := INITIAL, 0, 0, [];
    }

    method InsertCondition(c: Condition, database: string)
      requires Counts()
      modifies `linkedList, `oldMax
      ensures Counts() && linkedList == Insert(old(linkedList), c, database) && oldMax == |old(linkedList)|
    {
      oldMax := oldMax + 1;
      linkedList := linkedList + [Entry(oldMax, c, database)];
    }

    method FindCondition(c: Condition) returns (id: nat)
      ensures id == Find(linkedList, c)
    {
      for i := 0 to |linkedList|
        invariant Find(linkedList, c) == Find(linkedList[i..], c)
      {
        assert linkedList[i..][1..] == linkedList[i + 1..];
        if linkedList[i].cond == c { return linkedList[i].id; }
      }
      return 0;
    }

    /** Either order of an AND node. */
    method FindAnd(a: nat, b: nat) returns (id: nat)
      ensures id == FindPair(linkedList, a, b)
    {
      id := FindCondition(And(a, b));
      if id == 0 { id := FindCondition(And(b, a)); }
    }

    method InsertIfMissing(c: Condition, database: string)
      requires Counts()
      modifies `linkedList, `oldMax
      ensures Counts() && linkedList == InsertMissing(old(linkedList), c, database)
    {
      var found := FindCondition(c);
      if found == 0 { InsertCondition(c, database); }
    }

    method TwoVector(f0: nat, f1: nat, database: string) returns (lastPoint: nat)
      requires Counts()
      modifies `linkedList, `oldMax
      ensures Counts() && Point(linkedList, lastPoint) == TwoPoint(old(linkedList), f0, f1, database)
    {
      lastPoint := FindAnd(f1, f0);
      if lastPoint == 0 {
        InsertCondition(And(f1, f0), database);
        lastPoint := oldMax;
      }
    }

    method FindOnTop(pair: nat, atom: nat) returns (id: nat)
      ensures id == FindTop(linkedList, pair, atom)
    {
      if pair == 0 { return 0; }
      id := FindAnd(pair, atom);
    }

    method ThreeVector(f0: nat, f1: nat, f2: nat, database: string) returns (lastPoint: nat)
      requires Counts()
      modifies `linkedList, `oldMax
      ensures Counts() && Point(linkedList, lastPoint) == ThreePoint(old(linkedList), f0, f1, f2, database)
    {
      hide FindPair;
      var n2 := FindAnd(f0, f1);
      var n1 := FindAnd(f0, f2);
      var n0 := FindAnd(f1, f2);
      if n0 == 0 && n1 == 0 && n2 == 0 {
        InsertCondition(And(f1, f2), database);
        n0 := oldMax;
      }
      lastPoint := FindOnTop(n0, f0);
      if lastPoint == 0 { lastPoint := FindOnTop(n1, f1); }
      if lastPoint == 0 { lastPoint := FindOnTop(n2, f2); }
      if lastPoint == 0 {
        InsertCondition(if n0 > 0 then And(f0, n0) else if n1 > 0 then And(f1, n1) else And(f2, n2), database);
        lastPoint := oldMax;
      }
    }

    /** The body of progressTable's loop; 0 means that no UPDATE is written. */
    method ProgressRow(row: Row, database: string) returns (lastPoint: nat)
      requires Counts() && IsRow(row, |row.conds|)
      modifies `linkedList, `oldMax
      ensures Counts()
      ensures Point(linkedList, lastPoint) == ProcessRow(old(linkedList), processNumConditions, row, database)
    {
      hide TwoPoint, ThreePoint;
      var t := SortRow(row);
      hide SortRow;
      var rowConditionNumber := t.Count();
      lastPoint := 0;
      if rowConditionNumber == 0 { return; }
      if processNumConditions == 0 {
        InsertUpTo(t, rowConditionNumber, database);
        return;
      }
      if processNumConditions != rowConditionNumber { return; }
      var f0, f1, f2 := 0, 0, 0;
      f0 := FindCondition(t.c1);
      if rowConditionNumber >= 2 { f1 := FindCondition(t.c2); }
      if rowConditionNumber >= 3 { f2 := FindCondition(t.c3); }
      if f0 == 0 || (rowConditionNumber >= 2 && f1 == 0) || (rowConditionNumber >= 3 && f2 == 0) { return; }
      if rowConditionNumber == 3 {
        lastPoint := ThreeVector(f0, f1, f2, database);
      } else if rowConditionNumber == 2 {
        lastPoint := TwoVector(f0, f1, database);
      } else {
        lastPoint := f0;
      }
    }

    method InsertUpTo(t: Triple, n: nat, database: string)
      requires Counts() && n <= 3
      modifies `linkedList, `oldMax
      ensures Counts() && linkedList == InsertAtoms(old(linkedList), t, n, database)
    {
      for i := 0 to n
        invariant Counts() && linkedList == InsertAtoms(old(linkedList), t, i, database)
      {
        InsertIfMissing(t.At(i), database);
      }
    }

    /** One turn of that loop, with the UPDATE it may write. */
    method UpdateRow(dbs: seq<Database>, x: Ref, row: Row)
      requires Counts() && IsRef(dbs, x) && row == RowAt(dbs, x)
      modifies `linkedList, `oldMax, `updates
      ensures Counts() && State() == ProcessRef(old(State()), processNumConditions, dbs, x)
    {
      hide ConditionRun.ProcessRow;
      var lastPoint := ProgressRow(row, dbs[x.d].name);
      if lastPoint > 0 { updates := updates + [Update(x, processNumConditions, lastPoint)]; }
    }

    method ProgressTable(dbs: seq<Database>, d: nat, k: nat)
      requires Counts() && AreDatabases(dbs) && d < |dbs| && k < TABLE_COUNT && Visited(processNumConditions, dbs[d], k)
      modifies `linkedList, `oldMax, `updates
      ensures Counts()
      ensures var refs := RowRefs(d, k, RowsIn(processNumConditions, dbs[d], k));
        && (forall x :: x in refs ==> IsRef(dbs, x))
        && State() == ProcessAll(old(State()), processNumConditions, dbs, refs)
    {
      assert IsDatabase(dbs[d]) && HasTable(dbs[d], k);
      var rows := dbs[d].rows[TABLES[k].name];
      assert RowsIn(processNumConditions, dbs[d], k) == |rows|;
      assert forall r :: 0 <= r < |rows| ==> IsRef(dbs, Ref(d, k, r)) && RowAt(dbs, Ref(d, k, r)) == rows[r];
      hide IsRef, Visited, HasTable, IsDatabase, ProcessRef, RowAt, AreDatabases, RowsIn;
      for r := 0 to |rows|
        invariant Counts()
        invariant forall x :: x in RowRefs(d, k, r) ==> IsRef(dbs, x)
        invariant State() == ProcessAll(old(State()), processNumConditions, dbs, RowRefs(d, k, r))
      {
        UpdateRow(dbs, Ref(d, k, r), rows[r]);
        ProcessOneMore(old(State()), processNumConditions, dbs, RowRefs(d, k, r), Ref(d, k, r));
      }
    }

    method DoTables(dbs: seq<Database>, d: nat)
      requires Counts() && AreDatabases(dbs) && d < |dbs|
      modifies `linkedList, `oldMax, `updates
      ensures Counts()
      ensures var refs := TableRefs(processNumConditions, dbs[d], d, TABLE_COUNT);
        && (forall x :: x in refs ==> IsRef(dbs, x))
        && State() == ProcessAll(old(State()), processNumConditions, dbs, refs)
    {
      var phase := processNumConditions;
      hide IsRef, Visited, HasTable, IsDatabase, ProcessRef, AreDatabases, RowsIn;
      for k := 0 to TABLE_COUNT
        invariant Counts()
        invariant forall x :: x in TableRefs(phase, dbs[d], d, k) ==> IsRef(dbs, x)
        invariant State() == ProcessAll(old(State()), phase, dbs, TableRefs(phase, dbs[d], d, k))
      {
        ghost var before := State();
        if Visited(phase, dbs[d], k) {
          ProgressTable(dbs, d, k);
        } else {
          NotVisited(phase, dbs[d], d, k);
        }
        ProcessMore(old(State()), phase, dbs, TableRefs(phase, dbs[d], d, k), RowRefs(d, k, RowsIn(phase, dbs[d], k)));
      }
    }

    /** The main loop: four phases, each over all databases. */
    method RunAll(dbs: seq<Database>)
      requires Counts() && AreDatabases(dbs) && State() == Work(INITIAL, [])
      modifies this
      ensures Counts() && State() == Run(dbs)
    {
      OnePhase(dbs, 0);
      OnePhase(dbs, 1);
      OnePhase(dbs, 2);
      OnePhase(dbs, 3);
    }

    method OnePhase(dbs: seq<Database>, phase: nat)
      requires Counts() && AreDatabases(dbs)
      modifies this
      ensures Counts() && State() == RunPhase(old(State()), phase, dbs)
    {
      hide IsRef, Visited, ProcessRef, TableRefs, AreDatabases;
      processNumConditions := phase;
      for d := 0 to |dbs|
        invariant Counts() && processNumConditions == phase
        invariant forall x :: x in PhaseRefs(phase, dbs, d) ==> IsRef(dbs, x)
        invariant State() == ProcessAll(old(State()), phase, dbs, PhaseRefs(phase, dbs, d))
      {
        ghost var before := State();
        DoTables(dbs, d);
        ProcessMore(old(State()), phase, dbs, PhaseRefs(phase, dbs, d), TableRefs(phase, dbs[d], d, TABLE_COUNT));
      }
    }

    /** The dump lists every entry but the initial fill, unless nothing was ever inserted: then
        it lists just that one. */
    method Dump() returns (lines: seq<Entry>)
      requires Counts()
      ensures lines == if oldMax >= 1 then linkedList[1..] else linkedList
    {
      lines := [];
      for i := 1 to if oldMax >= 1 then oldMax else 1
        invariant lines == linkedList[1..i]
      {
        lines := lines + [linkedList[i]];
      }
      lines := lines + [linkedList[oldMax]];
    }
  }

  // ----- processing in pieces -----

  lemma ProcessOneMore(w: Work, phase: nat, dbs: seq<Database>, refs: seq<Ref>, x: Ref)
    requires IsRef(dbs, x) && forall y :: y in refs ==> IsRef(dbs, y)
    ensures (forall y :: y in refs + [x] ==> IsRef(dbs, y))
    ensures ProcessAll(w, phase, dbs, refs + [x]) == ProcessRef(ProcessAll(w, phase, dbs, refs), phase, dbs, x)
  {
    assert (refs + [x])[..|refs|] == refs;
  }

  lemma {:induction false} ProcessMore(w: Work, phase: nat, dbs: seq<Database>, a: seq<Ref>, b: seq<Ref>)
    requires forall y :: y in a ==> IsRef(dbs, y)
    requires forall y :: y in b ==> IsRef(dbs, y)
    ensures forall y :: y in a + b ==> IsRef(dbs, y)
    ensures ProcessAll(w, phase, dbs, a + b) == ProcessAll(ProcessAll(w, phase, dbs, a), phase, dbs, b)
    decreases |b|
  {
    hide IsRef, ProcessRef;
    if b == [] {
      assert a + b == a;
    } else {
      var front, last := b[..|b| - 1], b[|b| - 1];
      assert last in b;
      ProcessMore(w, phase, dbs, a, front);
      ProcessOneMore(w, phase, dbs, a + front, last);
      assert a + b == a + front + [last];
    }
  }

  lemma NotVisited(phase: nat, db: Database, d: nat, k: nat)
    requires k < TABLE_COUNT && !Visited(phase, db, k)
    ensures RowRefs(d, k, RowsIn(phase, db, k)) == []
  {
  }
}
