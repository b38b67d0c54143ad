/** The shared table of conditions: atoms and binary AND nodes, appended and never changed. */
module ConditionTable {

  /** A condition (type, value1, value2).  An AND node has type -1 and two ids as values. */
  datatype Condition = Condition(kind: int, value1: int, value2: int)

  datatype Entry = Entry(id: nat, cond: Condition, database: string)

  const NONE: Condition := Condition(0, 0, 0)
  const AND: int := -1
  const INITIAL: seq<Entry> := [Entry(0, NONE, "initial fill")]

  function And(a: nat, b: nat): Condition {
    Condition(AND, a, b)
  }

  /** findCondition: the id of the first entry that holds the condition, or 0. */
  function Find(list: seq<Entry>, c: Condition): nat {
    if list == [] then 0
    else if list[0].cond == c then list[0].id
    else Find(list[1..], c)
  }

  /** The two lookups made for an AND node, whose operands may stand in either order. */
  function FindPair(list: seq<Entry>, a: nat, b: nat): nat {
    var r := Find(list, And(a, b));
    if r == 0 then Find(list, And(b, a)) else r
  }

  function Insert(list: seq<Entry>, c: Condition, database: string): seq<Entry> {
    list + [Entry(|list|, c, database)]
  }

  // ----- well-formed tables and their meaning -----

  /** Ids are list positions, and an AND node refers to smaller positive ids. */
  ghost predicate Ordered(list: seq<Entry>) {
    && |list| >= 1 && list[0].cond == NONE
    && (forall i :: 0 <= i < |list| ==> list[i].id == i)
    && (forall i :: 1 <= i < |list| ==>
          var c := list[i].cond;
          c.kind > 0 || (c.kind == AND && 1 <= c.value1 < i && 1 <= c.value2 < i))
  }

  predicate IsId(list: seq<Entry>, id: int) { 1 <= id < |list| }

  /** The conditions below an id, each as often as it occurs. */
  ghost function Leaves(list: seq<Entry>, id: nat): (m: multiset<Condition>)
    requires Ordered(list) && IsId(list, id)
    ensures |m| >= 1
    ensures list[id].cond.kind == AND <==> |m| >= 2
    decreases id
  {
    var c := list[id].cond;
    if c.kind == AND then Leaves(list, c.value1) + Leaves(list, c.value2) else multiset{c}
  }

  /** What an id means once every plain condition is given a truth value. */
  ghost predicate Eval(list: seq<Entry>, id: nat, truth: Condition -> bool)
    requires Ordered(list) && IsId(list, id)
    decreases id
  {
    var c := list[id].cond;
    if c.kind == AND then Eval(list, c.value1, truth) && Eval(list, c.value2, truth) else truth(c)
  }

  /** An id means the conjunction of its leaves. */
  lemma {:induction false} EvalIsConjunction(list: seq<Entry>, id: nat, truth: Condition -> bool)
    requires Ordered(list) && IsId(list, id)
    ensures Eval(list, id, truth) <==> forall c :: c in Leaves(list, id) ==> truth(c)
    decreases id
  {
    var c := list[id].cond;
    if c.kind == AND {
      EvalIsConjunction(list, c.value1, truth);
      EvalIsConjunction(list, c.value2, truth);
    } else {
      assert c in Leaves(list, id);
    }
  }

  /** Two different ids never stand for the same conditions, and none for more than three. */
  ghost predicate Canonical(list: seq<Entry>)
    requires Ordered(list)
  {
    && (forall i :: IsId(list, i) ==> |Leaves(list, i)| <= 3)
    && (forall i, j :: IsId(list, i) && IsId(list, j) && Leaves(list, i) == Leaves(list, j) ==> i == j)
  }

  ghost predicate Valid(list: seq<Entry>) {
    Ordered(list) && Canonical(list)
  }

  /** The id that stands for exactly these conditions exists. */
  ghost predicate Holds(list: seq<Entry>, m: multiset<Condition>)
    requires Ordered(list)
  {
    exists i :: IsId(list, i) && Leaves(list, i) == m
  }

  // ----- growing tables -----

  lemma {:induction false} LeavesStable(list: seq<Entry>, longer: seq<Entry>, id: nat)
    requires Ordered(list) && Ordered(longer) && list <= longer && IsId(list, id)
    ensures Leaves(longer, id) == Leaves(list, id)
    decreases id
  {
    var c := list[id].cond;
    assert longer[id] == list[id];
    if c.kind == AND {
      LeavesStable(list, longer, c.value1);
      LeavesStable(list, longer, c.value2);
    }
  }

  /** Later inserts never change the meaning of an id. */
  lemma EvalStable(list: seq<Entry>, longer: seq<Entry>, id: nat, truth: Condition -> bool)
    requires Ordered(list) && Ordered(longer) && list <= longer && IsId(list, id)
    ensures Eval(longer, id, truth) == Eval(list, id, truth)
  {
    LeavesStable(list, longer, id);
    EvalIsConjunction(list, id, truth);
    EvalIsConjunction(longer, id, truth);
  }

  lemma InsertOrdered(list: seq<Entry>, c: Condition, database: string)
    requires Ordered(list)
    requires c.kind > 0 || (c.kind == AND && IsId(list, c.value1) && IsId(list, c.value2))
    ensures var longer := Insert(list, c, database);
      && Ordered(longer) && list <= longer
      && (forall i :: IsId(list, i) ==> Leaves(longer, i) == Leaves(list, i))
      && Leaves(longer, |list|)
         == if c.kind == AND then Leaves(list, c.value1) + Leaves(list, c.value2) else multiset{c}
  {
    var longer := Insert(list, c, database);
    assert Ordered(longer);
    forall i | IsId(list, i)
      ensures Leaves(longer, i) == Leaves(list, i)
    {
      LeavesStable(list, longer, i);
    }
  }

  /** Inserting conditions that no id stands for yet keeps the table canonical. */
  lemma InsertValid(list: seq<Entry>, c: Condition, database: string, m: multiset<Condition>)
    requires Valid(list)
    requires c.kind > 0 || (c.kind == AND && IsId(list, c.value1) && IsId(list, c.value2))
    requires m == if c.kind == AND then Leaves(list, c.value1) + Leaves(list, c.value2) else multiset{c}
    requires |m| <= 3 && !Holds(list, m)
    ensures var longer := Insert(list, c, database);
      Valid(longer) && list <= longer && Leaves(longer, |list|) == m
  {
    InsertOrdered(list, c, database);
    hide Ordered, Leaves;
    var longer := Insert(list, c, database);
    assert forall i :: IsId(longer, i) ==> IsId(list, i) || i == |list|;
  }

  // ----- lookups -----

  /** A lookup finds the first match, and misses only what is not there. */
  lemma {:induction false} FindExact(list: seq<Entry>, c: Condition)
    ensures (forall i :: 0 <= i < |list| ==> list[i].cond != c) ==> Find(list, c) == 0
    ensures (exists i :: 0 <= i < |list| && list[i].cond == c) ==>
      exists i :: 0 <= i < |list| && list[i].cond == c && Find(list, c) == list[i].id
  {
    if list != [] && list[0].cond != c {
      FindExact(list[1..], c);
      if i :| 0 <= i < |list| && list[i].cond == c {
        assert list[1..][i - 1].cond == c;
        var j :| 0 <= j < |list[1..]| && list[1..][j].cond == c && Find(list[1..], c) == list[1..][j].id;
        assert list[j + 1] == list[1..][j];
      }
    }
  }

  lemma FindEntry(list: seq<Entry>, c: Condition)
    requires Ordered(list) && c.kind != 0
    ensures Find(list, c) == 0 || (IsId(list, Find(list, c)) && list[Find(list, c)].cond == c)
    ensures Find(list, c) == 0 ==> forall i :: IsId(list, i) ==> list[i].cond != c
  {
    FindExact(list, c);
  }

  /** An atom is found exactly when some id stands for it alone. */
  lemma FindAtom(list: seq<Entry>, c: Condition)
    requires Valid(list) && c.kind > 0
    ensures var r := Find(list, c);
      if Holds(list, multiset{c}) then IsId(list, r) && Leaves(list, r) == multiset{c} else r == 0
  {
    FindEntry(list, c);
    var r := Find(list, c);
    if r > 0 {
      assert Leaves(list, r) == multiset{c};
    }
    if i :| IsId(list, i) && Leaves(list, i) == multiset{c} {
      assert |Leaves(list, i)| == 1;
      assert multiset{list[i].cond} == multiset{c};
      assert list[i].cond in multiset{c};
    }
  }

  lemma FindPairSound(list: seq<Entry>, a: nat, b: nat)
    requires Ordered(list) && IsId(list, a) && IsId(list, b)
    ensures var r := FindPair(list, a, b);
      r == 0 || (IsId(list, r) && Leaves(list, r) == Leaves(list, a) + Leaves(list, b))
    ensures FindPair(list, a, b) == 0 ==>
      forall i :: IsId(list, i) ==> list[i].cond != And(a, b) && list[i].cond != And(b, a)
  {
    FindEntry(list, And(a, b));
    FindEntry(list, And(b, a));
  }

  /** Two atoms: their AND node is found exactly when some id stands for the two conditions. */
  lemma FindPairComplete(list: seq<Entry>, a: nat, b: nat)
    requires Valid(list) && IsId(list, a) && IsId(list, b)
    requires |Leaves(list, a)| == 1 && |Leaves(list, b)| == 1
    ensures var r := FindPair(list, a, b);
      if Holds(list, Leaves(list, a) + Leaves(list, b))
      then IsId(list, r) && Leaves(list, r) == Leaves(list, a) + Leaves(list, b) else r == 0
  {
    FindPairSound(list, a, b);
    if i :| IsId(list, i) && Leaves(list, i) == Leaves(list, a) + Leaves(list, b) {
      assert |Leaves(list, i)| == 2;
      var c := list[i].cond;
      var x, y := c.value1, c.value2;
      assert Leaves(list, i) == Leaves(list, x) + Leaves(list, y);
      SplitTwo(Leaves(list, a), Leaves(list, b), Leaves(list, x), Leaves(list, y));
    }
  }

  lemma SplitTwo(a: multiset<Condition>, b: multiset<Condition>, x: multiset<Condition>, y: multiset<Condition>)
    requires |a| == 1 && |b| == 1 && |x| >= 1 && |y| >= 1 && a + b == x + y
    ensures (x == a && y == b) || (x == b && y == a)
  {
    var p :| p in x;
    assert p in a + b;
    assert |x| + |y| == |a + b| == 2;
    Single(x, p);
    if p in a {
      Single(a, p);
      assert y == (x + y) - x == (a + b) - a == b;
    } else {
      Single(b, p);
      assert y == (x + y) - x == (a + b) - b == a;
    }
  }

  lemma Single(m: multiset<Condition>, c: Condition)
    requires |m| == 1 && c in m
    ensures m == multiset{c}
  {
    assert m == multiset{c} + (m - multiset{c});
    assert |m - multiset{c}| == 0;
  }
}
