/** One row of inline conditions: ordering it, and finding or inserting its id. */
module ConditionRows {
  import opened ConditionTable

  /** compareCondition: strictly greater, by type, then value1, then value2. */
  predicate Greater(a: Condition, b: Condition) {
    a.kind > b.kind || (a.kind == b.kind && (a.value1 > b.value1 || (a.value1 == b.value1 && a.value2 > b.value2)))
  }

  /** The one to three condition columns of a row. */
  datatype Row = Row(key1: int, key2: int, conds: seq<Condition>)

  predicate IsRow(row: Row, columns: nat) {
    1 <= columns <= 3 && |row.conds| == columns
  }

  /** The three working conditions of a row after the compare-and-swap steps. */
  datatype Triple = Triple(c1: Condition, c2: Condition, c3: Condition)
  {
    function At(i: nat): Condition
      requires i < 3
    {
      if i == 0 then c1 else if i == 1 then c2 else c3
    }

    /** How many conditions are there? */
    function Count(): nat {
      (if c1.kind > 0 then 1 else 0) + (if c2.kind > 0 then 1 else 0) + (if c3.kind > 0 then 1 else 0)
    }
  }

  function SwapFirst(t: Triple): Triple {
    if Greater(t.c2, t.c1) then Triple(t.c2, t.c1, t.c3) else t
  }

  function SwapLast(t: Triple): Triple {
    if Greater(t.c3, t.c2) then Triple(t.c1, t.c3, t.c2) else t
  }

  function Columns(conds: seq<Condition>): Triple
    requires 1 <= |conds| <= 3
  {
    Triple(conds[0], if |conds| >= 2 then conds[1] else NONE, if |conds| >= 3 then conds[2] else NONE)
  }

  /** The conditions of one row ordered from big to small, as far as it has columns. */
  function SortRow(row: Row): Triple
    requires IsRow(row, |row.conds|)
  {
    var t := Columns(row.conds);
    if |row.conds| == 1 then t
    else if |row.conds| == 2 then SwapFirst(t)
    else SwapFirst(SwapLast(SwapFirst(t)))
  }

  /** The active conditions of a row, in whatever order they were written. */
  ghost function Active(conds: seq<Condition>): multiset<Condition> {
    if conds == [] then multiset{}
    else (if conds[0].kind > 0 then multiset{conds[0]} else multiset{}) + Active(conds[1..])
  }

  ghost function Prefix(t: Triple, n: nat): multiset<Condition>
    requires n <= 3
  {
    if n == 0 then multiset{} else Prefix(t, n - 1) + multiset{t.At(n - 1)}
  }

  ghost function Positive(c: Condition): multiset<Condition> {
    if c.kind > 0 then multiset{c} else multiset{}
  }

  ghost function ActiveOf(t: Triple): multiset<Condition> {
    Positive(t.c1) + Positive(t.c2) + Positive(t.c3)
  }

  lemma ActiveColumns(conds: seq<Condition>)
    requires 1 <= |conds| <= 3
    ensures Active(conds) == ActiveOf(Columns(conds))
  {
    hide Positive, Active;
    NonePositive();
    ActiveHead(conds);
    if |conds| >= 2 { ActiveHead(conds[1..]); }
    if |conds| >= 3 { ActiveHead(conds[2..]); }
    assert |conds| >= 2 ==> conds[1..][1..] == conds[2..];
    assert conds[|conds|..] == [];
    NoneActive();
  }

  lemma ActiveHead(conds: seq<Condition>)
    requires conds != []
    ensures Active(conds) == Positive(conds[0]) + Active(conds[1..])
  {
  }

  lemma NonePositive()
    ensures Positive(NONE) == multiset{}
  {
  }

  lemma NoneActive()
    ensures Active([]) == multiset{}
  {
  }

  function Max(a: int, b: int): int { if a < b then b else a }

  function Min(a: int, b: int): int { if a < b then a else b }

  lemma SwapFirstKeeps(t: Triple)
    ensures var r := SwapFirst(t);
      && ActiveOf(r) == ActiveOf(t) && r.c3 == t.c3
      && r.c1.kind == Max(t.c1.kind, t.c2.kind) && r.c2.kind == Min(t.c1.kind, t.c2.kind)
  {
    hide Positive;
  }

  lemma SwapLastKeeps(t: Triple)
    ensures var r := SwapLast(t);
      && ActiveOf(r) == ActiveOf(t) && r.c1 == t.c1
      && r.c2.kind == Max(t.c2.kind, t.c3.kind) && r.c3.kind == Min(t.c2.kind, t.c3.kind)
  {
    hide Positive;
  }

  /** The compare-and-swap steps lose nothing. */
  lemma SortKeeps(row: Row)
    requires IsRow(row, |row.conds|)
    ensures ActiveOf(SortRow(row)) == Active(row.conds)
  {
    hide ActiveOf, Active, SwapFirst, SwapLast, Columns, Max, Min;
    ActiveColumns(row.conds);
    var t := Columns(row.conds);
    SwapFirstKeeps(t);
    SwapLastKeeps(SwapFirst(t));
    SwapFirstKeeps(SwapLast(SwapFirst(t)));
  }

  /** The compare-and-swap steps order the types. */
  lemma SortOrders(row: Row)
    requires IsRow(row, |row.conds|)
    ensures var t := SortRow(row);
      && (t.c2.kind > 0 ==> t.c1.kind > 0) && (t.c3.kind > 0 ==> t.c2.kind > 0)
      && t.Count() <= |row.conds|
  {
    hide ActiveOf, SwapFirst, SwapLast;
    var t := Columns(row.conds);
    SwapFirstKeeps(t);
    SwapLastKeeps(SwapFirst(t));
    SwapFirstKeeps(SwapLast(SwapFirst(t)));
  }

  /** Sorting a row moves its active conditions to the front and keeps all of them. */
  lemma SortedPrefix(row: Row)
    requires IsRow(row, |row.conds|)
    ensures var t := SortRow(row);
      && t.Count() <= |row.conds|
      && (forall i :: 0 <= i < 3 ==> (t.At(i).kind > 0 <==> i < t.Count()))
      && Prefix(t, t.Count()) == Active(row.conds)
      && t.Count() == |Active(row.conds)|
  {
    SortKeeps(row);
    SortOrders(row);
    PrefixUnfolds(SortRow(row));
    hide SortRow;
  }

  lemma PrefixUnfolds(t: Triple)
    ensures Prefix(t, 0) == multiset{}
    ensures Prefix(t, 1) == multiset{t.c1}
    ensures Prefix(t, 2) == multiset{t.c1, t.c2}
    ensures Prefix(t, 3) == multiset{t.c1, t.c2, t.c3}
  {
    assert Prefix(t, 1) == Prefix(t, 0) + multiset{t.At(0)};
    assert Prefix(t, 2) == Prefix(t, 1) + multiset{t.At(1)};
    assert Prefix(t, 3) == Prefix(t, 2) + multiset{t.At(2)};
  }

  // ----- phase 0: atoms -----

  function InsertMissing(list: seq<Entry>, c: Condition, database: string): seq<Entry> {
    if Find(list, c) == 0 then Insert(list, c, database) else list
  }

  function InsertAtoms(list: seq<Entry>, t: Triple, n: nat, database: string): seq<Entry>
    requires n <= 3
  {
    if n == 0 then list else InsertMissing(InsertAtoms(list, t, n - 1, database), t.At(n - 1), database)
  }

  lemma InsertMissingAtom(list: seq<Entry>, c: Condition, database: string)
    requires Valid(list) && c.kind > 0
    ensures var longer := InsertMissing(list, c, database);
      Valid(longer) && list <= longer && Holds(longer, multiset{c})
  {
    FindAtom(list, c);
    if Find(list, c) == 0 { InsertValid(list, c, database, multiset{c}); }
  }

  lemma HoldsStable(list: seq<Entry>, longer: seq<Entry>, m: multiset<Condition>)
    requires Ordered(list) && Ordered(longer) && list <= longer && Holds(list, m)
    ensures Holds(longer, m)
  {
    var i :| IsId(list, i) && Leaves(list, i) == m;
    LeavesStable(list, longer, i);
  }

  /** After phase 0 has seen a row, each of its conditions has an id. */
  lemma {:induction false} InsertAtomsValid(list: seq<Entry>, t: Triple, n: nat, database: string)
    requires Valid(list) && n <= 3 && forall i :: 0 <= i < n ==> t.At(i).kind > 0
    ensures var longer := InsertAtoms(list, t, n, database);
      Valid(longer) && list <= longer && forall i :: 0 <= i < n ==> Holds(longer, multiset{t.At(i)})
  {
    if n > 0 {
      var shorter := InsertAtoms(list, t, n - 1, database);
      InsertAtomsValid(list, t, n - 1, database);
      InsertMissingAtom(shorter, t.At(n - 1), database);
      var longer := InsertAtoms(list, t, n, database);
      forall i | 0 <= i < n
        ensures Holds(longer, multiset{t.At(i)})
      {
        if i < n - 1 { HoldsStable(shorter, longer, multiset{t.At(i)}); }
      }
    }
  }

  // ----- phases 1 to 3: ids -----

  /** Where a row's id was found or inserted. */
  datatype Point = Point(list: seq<Entry>, id: nat)

  function TwoPoint(list: seq<Entry>, f0: nat, f1: nat, database: string): Point {
    var r := FindPair(list, f1, f0);
    if r == 0 then Point(Insert(list, And(f1, f0), database), |list|) else Point(list, r)
  }

  /** The three pair ids of a triple of atoms: `q` stands for the two atoms other than f(q). */
  datatype Pairs = Pairs(p0: nat, p1: nat, p2: nat)

  function FindPairs(list: seq<Entry>, f0: nat, f1: nat, f2: nat): Pairs {
    Pairs(FindPair(list, f1, f2), FindPair(list, f0, f2), FindPair(list, f0, f1))
  }

  function FindTop(list: seq<Entry>, pair: nat, atom: nat): nat {
    if pair == 0 then 0 else FindPair(list, pair, atom)
  }

  /** The first top node found, trying the pairs in order. */
  function FirstTop(list: seq<Entry>, q: Pairs, f0: nat, f1: nat, f2: nat): nat {
    if FindTop(list, q.p0, f0) > 0 then FindTop(list, q.p0, f0)
    else if FindTop(list, q.p1, f1) > 0 then FindTop(list, q.p1, f1)
    else FindTop(list, q.p2, f2)
  }

  /** The node inserted on top of the first pair there is. */
  function TopNode(q: Pairs, f0: nat, f1: nat, f2: nat): Condition {
    if q.p0 > 0 then And(f0, q.p0) else if q.p1 > 0 then And(f1, q.p1) else And(f2, q.p2)
  }

  function ThreePoint(list: seq<Entry>, f0: nat, f1: nat, f2: nat, database: string): Point {
    var q := FindPairs(list, f0, f1, f2);
    var list1 := if q == Pairs(0, 0, 0) then Insert(list, And(f1, f2), database) else list;
    var q1 := if q == Pairs(0, 0, 0) then q.(p0 := |list|) else q;
    var r := FirstTop(list1, q1, f0, f1, f2);
    if r > 0 then Point(list1, r)
    else Point(Insert(list1, TopNode(q1, f0, f1, f2), database), |list1|)
  }

  /** The id `p.id` of the grown table stands for exactly the conditions `m`. */
  ghost predicate Stands(list: seq<Entry>, p: Point, m: multiset<Condition>) {
    Valid(p.list) && list <= p.list && IsId(p.list, p.id) && Leaves(p.list, p.id) == m
  }

  lemma TwoPointStands(list: seq<Entry>, f0: nat, f1: nat, database: string)
    requires Valid(list) && IsId(list, f0) && IsId(list, f1)
    requires |Leaves(list, f0)| == 1 && |Leaves(list, f1)| == 1
    ensures Stands(list, TwoPoint(list, f0, f1, database), Leaves(list, f0) + Leaves(list, f1))
  {
    FindPairComplete(list, f1, f0);
    var m := Leaves(list, f1) + Leaves(list, f0);
    assert m == Leaves(list, f0) + Leaves(list, f1);
    if !Holds(list, m) { InsertValid(list, And(f1, f0), database, m); }
  }

  /** What FindPairs knows: each pair id, where there is one, stands for the other two atoms. */
  ghost predicate PairsFor(list: seq<Entry>, q: nat, a: nat, b: nat)
    requires Valid(list) && IsId(list, a) && IsId(list, b)
  {
    var m := Leaves(list, a) + Leaves(list, b);
    if Holds(list, m) then IsId(list, q) && Leaves(list, q) == m else q == 0
  }

  /** Node `i` is the AND, in either order, of atom `x` and a node that stands for `two`. */
  ghost predicate TopOn(list: seq<Entry>, i: nat, x: nat, p: nat, two: multiset<Condition>)
    requires Ordered(list)
  {
    && IsId(list, i) && IsId(list, p) && IsId(list, x)
    && (list[i].cond == And(p, x) || list[i].cond == And(x, p)) && Leaves(list, p) == two
  }

  /** A node that stands for three atoms joins one of them with the pair of the other two. */
  lemma TopShape(list: seq<Entry>, i: nat, f0: nat, f1: nat, f2: nat)
    requires Valid(list) && IsId(list, i) && IsId(list, f0) && IsId(list, f1) && IsId(list, f2)
    requires |Leaves(list, f0)| == 1 && |Leaves(list, f1)| == 1 && |Leaves(list, f2)| == 1
    requires Leaves(list, i) == Leaves(list, f0) + Leaves(list, f1) + Leaves(list, f2)
    ensures exists p :: TopOn(list, i, f0, p, Leaves(list, f1) + Leaves(list, f2))
                     || TopOn(list, i, f1, p, Leaves(list, f0) + Leaves(list, f2))
                     || TopOn(list, i, f2, p, Leaves(list, f0) + Leaves(list, f1))
  {
    var c := list[i].cond;
    assert |Leaves(list, i)| == 3;
    var l1, l2 := Leaves(list, c.value1), Leaves(list, c.value2);
    assert Leaves(list, i) == l1 + l2 == l2 + l1;
    hide Leaves, Canonical;
    if |l1| == 1 {
      OneOfThree(l2, l1, Leaves(list, f0), Leaves(list, f1), Leaves(list, f2));
      TopOperand(list, i, c.value1, c.value2, f0, f1, f2);
    } else {
      OneOfThree(l1, l2, Leaves(list, f0), Leaves(list, f1), Leaves(list, f2));
      TopOperand(list, i, c.value2, c.value1, f0, f1, f2);
    }
  }

  lemma TopOperand(list: seq<Entry>, i: nat, x: nat, p: nat, f0: nat, f1: nat, f2: nat)
    requires Valid(list) && IsId(list, i) && IsId(list, f0) && IsId(list, f1) && IsId(list, f2) && IsId(list, x)
    requires IsId(list, p)
    requires list[i].cond == And(p, x) || list[i].cond == And(x, p)
    requires (Leaves(list, x) == Leaves(list, f0) && Leaves(list, p) == Leaves(list, f1) + Leaves(list, f2))
          || (Leaves(list, x) == Leaves(list, f1) && Leaves(list, p) == Leaves(list, f0) + Leaves(list, f2))
          || (Leaves(list, x) == Leaves(list, f2) && Leaves(list, p) == Leaves(list, f0) + Leaves(list, f1))
    ensures TopOn(list, i, f0, p, Leaves(list, f1) + Leaves(list, f2))
         || TopOn(list, i, f1, p, Leaves(list, f0) + Leaves(list, f2))
         || TopOn(list, i, f2, p, Leaves(list, f0) + Leaves(list, f1))
  {
  }

  lemma OneOfThree(p: multiset<Condition>, x: multiset<Condition>,
                   a: multiset<Condition>, b: multiset<Condition>, c: multiset<Condition>)
    requires |x| == 1 && |a| == 1 && |b| == 1 && |c| == 1 && p + x == a + b + c
    ensures (x == a && p == b + c) || (x == b && p == a + c) || (x == c && p == a + b)
  {
    var e :| e in x;
    assert e in p + x;
    Single(x, e);
    assert p == (a + b + c) - x;
    if e in a {
      Single(a, e);
    } else if e in b {
      Single(b, e);
    } else {
      Single(c, e);
    }
  }

  /** If no pair has a top node, nothing stands for the three atoms. */
  lemma NoTop(list: seq<Entry>, q: Pairs, f0: nat, f1: nat, f2: nat)
    requires Valid(list) && IsId(list, f0) && IsId(list, f1) && IsId(list, f2)
    requires |Leaves(list, f0)| == 1 && |Leaves(list, f1)| == 1 && |Leaves(list, f2)| == 1
    requires PairsFor(list, q.p0, f1, f2) && PairsFor(list, q.p1, f0, f2) && PairsFor(list, q.p2, f0, f1)
    requires FirstTop(list, q, f0, f1, f2) == 0
    ensures !Holds(list, Leaves(list, f0) + Leaves(list, f1) + Leaves(list, f2))
  {
    var m := Leaves(list, f0) + Leaves(list, f1) + Leaves(list, f2);
    if i :| IsId(list, i) && Leaves(list, i) == m {
      TopShape(list, i, f0, f1, f2);
      var p :| TopOn(list, i, f0, p, Leaves(list, f1) + Leaves(list, f2))
            || TopOn(list, i, f1, p, Leaves(list, f0) + Leaves(list, f2))
            || TopOn(list, i, f2, p, Leaves(list, f0) + Leaves(list, f1));
      if TopOn(list, i, f0, p, Leaves(list, f1) + Leaves(list, f2)) {
        FoundOnTop(list, i, f0, p, q.p0, Leaves(list, f1) + Leaves(list, f2));
      } else if TopOn(list, i, f1, p, Leaves(list, f0) + Leaves(list, f2)) {
        FoundOnTop(list, i, f1, p, q.p1, Leaves(list, f0) + Leaves(list, f2));
      } else {
        FoundOnTop(list, i, f2, p, q.p2, Leaves(list, f0) + Leaves(list, f1));
      }
    }
  }

  /** A top node is found through the pair id it stands on. */
  lemma FoundOnTop(list: seq<Entry>, i: nat, x: nat, p: nat, pair: nat, two: multiset<Condition>)
    requires Valid(list) && TopOn(list, i, x, p, two)
    requires if Holds(list, two) then IsId(list, pair) && Leaves(list, pair) == two else pair == 0
    ensures FindTop(list, pair, x) != 0
  {
    assert Holds(list, two);
    FindPairSound(list, p, x);
  }

  /** What is found on top of a pair stands for the three conditions. */
  lemma TopSound(list: seq<Entry>, q: Pairs, f0: nat, f1: nat, f2: nat)
    requires Valid(list) && IsId(list, f0) && IsId(list, f1) && IsId(list, f2)
    requires q.p0 == 0 || (IsId(list, q.p0) && Leaves(list, q.p0) == Leaves(list, f1) + Leaves(list, f2))
    requires q.p1 == 0 || (IsId(list, q.p1) && Leaves(list, q.p1) == Leaves(list, f0) + Leaves(list, f2))
    requires q.p2 == 0 || (IsId(list, q.p2) && Leaves(list, q.p2) == Leaves(list, f0) + Leaves(list, f1))
    ensures var r := FirstTop(list, q, f0, f1, f2);
      r == 0 || (IsId(list, r) && Leaves(list, r) == Leaves(list, f0) + Leaves(list, f1) + Leaves(list, f2))
  {
    var m := Leaves(list, f0) + Leaves(list, f1) + Leaves(list, f2);
    FoundStands(list, q.p0, f0, Leaves(list, f1) + Leaves(list, f2), m);
    FoundStands(list, q.p1, f1, Leaves(list, f0) + Leaves(list, f2), m);
    FoundStands(list, q.p2, f2, Leaves(list, f0) + Leaves(list, f1), m);
  }

  lemma FoundStands(list: seq<Entry>, pair: nat, atom: nat, two: multiset<Condition>, m: multiset<Condition>)
    requires Valid(list) && IsId(list, atom) && m == Leaves(list, atom) + two
    requires pair == 0 || (IsId(list, pair) && Leaves(list, pair) == two)
    ensures var r := FindTop(list, pair, atom); r == 0 || (IsId(list, r) && Leaves(list, r) == m)
  {
    if pair > 0 { FindPairSound(list, pair, atom); }
  }

  lemma ThreePointStands(list: seq<Entry>, f0: nat, f1: nat, f2: nat, database: string)
    requires Valid(list) && IsId(list, f0) && IsId(list, f1) && IsId(list, f2)
    requires |Leaves(list, f0)| == 1 && |Leaves(list, f1)| == 1 && |Leaves(list, f2)| == 1
    ensures Stands(list, ThreePoint(list, f0, f1, f2, database), Leaves(list, f0) + Leaves(list, f1) + Leaves(list, f2))
  {
    FindPairComplete(list, f1, f2);
    FindPairComplete(list, f0, f2);
    FindPairComplete(list, f0, f1);
    if FindPairs(list, f0, f1, f2) == Pairs(0, 0, 0) {
      FreshPairStands(list, f0, f1, f2, database);
    } else {
      KnownPairStands(list, f0, f1, f2, database);
    }
  }

  lemma KnownPairStands(list: seq<Entry>, f0: nat, f1: nat, f2: nat, database: string)
    requires Valid(list) && IsId(list, f0) && IsId(list, f1) && IsId(list, f2)
    requires |Leaves(list, f0)| == 1 && |Leaves(list, f1)| == 1 && |Leaves(list, f2)| == 1
    requires var q := FindPairs(list, f0, f1, f2);
      && q != Pairs(0, 0, 0)
      && PairsFor(list, q.p0, f1, f2) && PairsFor(list, q.p1, f0, f2) && PairsFor(list, q.p2, f0, f1)
    ensures Stands(list, ThreePoint(list, f0, f1, f2, database), Leaves(list, f0) + Leaves(list, f1) + Leaves(list, f2))
  {
    hide Leaves, Canonical, FindPair;
    var q := FindPairs(list, f0, f1, f2);
    var m := Leaves(list, f0) + Leaves(list, f1) + Leaves(list, f2);
    TopSound(list, q, f0, f1, f2);
    if FirstTop(list, q, f0, f1, f2) == 0 {
      NoTop(list, q, f0, f1, f2);
      var node := TopNode(q, f0, f1, f2);
      assert Leaves(list, node.value1) + Leaves(list, node.value2) == m;
      InsertValid(list, node, database, m);
    }
  }

  /** No pair was known, so nothing can stand on top of the one just inserted. */
  lemma FreshPairStands(list: seq<Entry>, f0: nat, f1: nat, f2: nat, database: string)
    requires Valid(list) && IsId(list, f0) && IsId(list, f1) && IsId(list, f2)
    requires |Leaves(list, f0)| == 1 && |Leaves(list, f1)| == 1 && |Leaves(list, f2)| == 1
    requires var q := FindPairs(list, f0, f1, f2);
      && q == Pairs(0, 0, 0)
      && PairsFor(list, q.p0, f1, f2) && PairsFor(list, q.p1, f0, f2) && PairsFor(list, q.p2, f0, f1)
    ensures Stands(list, ThreePoint(list, f0, f1, f2, database), Leaves(list, f0) + Leaves(list, f1) + Leaves(list, f2))
  {
    var two := Leaves(list, f1) + Leaves(list, f2);
    var m := Leaves(list, f0) + Leaves(list, f1) + Leaves(list, f2);
    var list1 := Insert(list, And(f1, f2), database);
    InsertValid(list, And(f1, f2), database, two);
    LeavesStable(list, list1, f0);
    LeavesStable(list, list1, f1);
    LeavesStable(list, list1, f2);
    FreshHasNoTop(list, f0, f1, f2, list1);
    var q1 := Pairs(|list|, 0, 0);
    hide Leaves, Canonical, FindPair;
    TopSound(list1, q1, f0, f1, f2);
    assert FirstTop(list1, q1, f0, f1, f2) == 0;
    InsertValid(list1, And(f0, |list|), database, m);
  }

  lemma FreshHasNoTop(list: seq<Entry>, f0: nat, f1: nat, f2: nat, list1: seq<Entry>)
    requires Valid(list) && IsId(list, f0) && IsId(list, f1) && IsId(list, f2)
    requires |Leaves(list, f0)| == 1 && |Leaves(list, f1)| == 1 && |Leaves(list, f2)| == 1
    requires PairsFor(list, 0, f1, f2) && PairsFor(list, 0, f0, f2) && PairsFor(list, 0, f0, f1)
    requires Valid(list1) && list <= list1 && |list1| == |list| + 1
    requires |Leaves(list1, |list|)| == 2
    ensures !Holds(list1, Leaves(list, f0) + Leaves(list, f1) + Leaves(list, f2))
  {
    var m := Leaves(list, f0) + Leaves(list, f1) + Leaves(list, f2);
    forall i | IsId(list1, i) ensures Leaves(list1, i) != m {
      if i != |list| { NotAmongOld(list, f0, f1, f2, list1, i); }
    }
  }

  /** An id that was there before has no pair to stand on. */
  lemma NotAmongOld(list: seq<Entry>, f0: nat, f1: nat, f2: nat, list1: seq<Entry>, i: nat)
    requires Valid(list) && IsId(list, f0) && IsId(list, f1) && IsId(list, f2) && IsId(list, i)
    requires |Leaves(list, f0)| == 1 && |Leaves(list, f1)| == 1 && |Leaves(list, f2)| == 1
    requires PairsFor(list, 0, f1, f2) && PairsFor(list, 0, f0, f2) && PairsFor(list, 0, f0, f1)
    requires Valid(list1) && list <= list1
    ensures Leaves(list1, i) != Leaves(list, f0) + Leaves(list, f1) + Leaves(list, f2)
  {
    hide Canonical, FindPair;
    LeavesStable(list, list1, i);
    if Leaves(list, i) == Leaves(list, f0) + Leaves(list, f1) + Leaves(list, f2) { TopShape(list, i, f0, f1, f2); }
  }
}
