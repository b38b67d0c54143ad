/** What the completion test computes, said without its loops, and the same over whole runs. */
module AchievementCompletion {
  import opened AchievementStore
  import opened AchievementEngine
  import opened AchievementFixpoint
  import opened AchievementLowering
  import opened AchievementRuns

  // ----- the criteria of an achievement -----

  predicate Ascending(list: seq<Criterion>) {
    forall i, j :: 0 <= i < j < |list| ==> list[i].id < list[j].id
  }

  /** The criteria of an achievement are listed once each, in the order of their rows. */
  lemma {:induction false} CriteriaAscend(store: Store, n: nat, id: nat)
    requires store.Valid()
    ensures Ascending(store.CriteriaByAchievementBelow(n, id))
  {
    if n > 0 {
      CriteriaAscend(store, n - 1, id);
      var front := store.CriteriaByAchievementBelow(n - 1, id);
      forall i | 0 <= i < |front| ensures front[i].id < n - 1 { assert front[i] in front; }
    }
  }

  /** And so are the criteria of a type. */
  lemma {:induction false} TypeAscends(store: Store, n: nat, t: nat)
    requires store.Valid()
    ensures Ascending(store.CriteriaByTypeBelow(n, t))
  {
    if n > 0 {
      TypeAscends(store, n - 1, t);
      var front := store.CriteriaByTypeBelow(n - 1, t);
      forall i | 0 <= i < |front| ensures front[i].id < n - 1 { assert front[i] in front; }
    }
  }

  // ----- the counting loop -----

  /** The completed criteria from position `from` on. */
  ghost function Done(env: Env, s: State, a: Achievement, list: seq<Criterion>, from: nat): set<nat> {
    set k: nat | from <= k < |list| && IsCompletedCriteria(env, s, list[k], a) :: list[k].id
  }

  lemma DoneFirst(env: Env, s: State, a: Achievement, list: seq<Criterion>, from: nat)
    requires from < |list| && Ascending(list)
    ensures |Done(env, s, a, list, from)|
         == |Done(env, s, a, list, from + 1)| + if IsCompletedCriteria(env, s, list[from], a) then 1 else 0
  {
    hide IsCompletedCriteria;
    var rest, id := Done(env, s, a, list, from + 1), list[from].id;
    assert Done(env, s, a, list, from) == if IsCompletedCriteria(env, s, list[from], a) then rest + {id} else rest;
  }

  /** The loop from position `from` on, with `n` criteria counted so far. */
  lemma {:induction false} EnoughFrom(env: Env, s: State, a: Achievement, list: seq<Criterion>, from: nat, n: nat,
                                      all: bool)
    requires Ascending(list) && from <= |list| && (TestCount(a) > 0 ==> n < TestCount(a))
    ensures EnoughCompleted(env, s, a, list[from..], n, all) <==>
      if TestCount(a) > 0 then n + |Done(env, s, a, list, from)| >= TestCount(a)
      else all && forall k :: from <= k < |list| ==> IsCompletedCriteria(env, s, list[k], a)
    decreases |list| - from
  {
    hide IsCompletedCriteria, TestCount;
    if from < |list| {
      var done := IsCompletedCriteria(env, s, list[from], a);
      var n' := if done then n + 1 else n;
      assert list[from..][1..] == list[from + 1..];
      DoneFirst(env, s, a, list, from);
      if !(0 < TestCount(a) <= n') { EnoughFrom(env, s, a, list, from + 1, n', all && done); }
    } else {
      assert Done(env, s, a, list, from) == {};
    }
  }

  // ----- completion -----

  /** The count that the test asks for; two achievements have a wrong one in the data. */
  function Wanted(a: Achievement): nat { if a.id == 202 || a.id == 1502 then 1 else a.count }

  /** What a criterion asks of an achievement that is no counter. */
  function Goal(c: Criterion): nat {
    if c.requiredType == 8 then 1 else if c.requiredType == 115 then 9000 else c.typeMax
  }

  /** The criterion is satisfied: its counter has reached the goal, or has merely started where
      that is enough; nothing satisfies a realm-first achievement that is taken. */
  predicate Satisfied(env: Env, s: State, a: Achievement, c: Criterion) {
    && c.id in s.progress && !(a.realmFirst && a.id in env.realmTaken)
    && (s.progress[c.id].counter >= Goal(c) || (a.reqCount && s.progress[c.id].counter >= 1))
  }

  /** The criteria it is judged by: its own, or those it borrows. */
  function JudgedBy(store: Store, a: Achievement): set<nat> {
    var lender := if a.refAchievement == 0 then a.id else a.refAchievement;
    set id | id in store.criteria && store.criteria[id].referred == lender
  }

  function SatisfiedBy(env: Env, s: State, a: Achievement): set<nat> {
    set id | id in JudgedBy(env.store, a) && id in env.store.criteria && Satisfied(env, s, a, env.store.criteria[id])
  }

  /** Enough of its criteria are satisfied: as many as it asks for, or all if it asks for none. */
  predicate Deserved(env: Env, s: State, a: Achievement) {
    && !a.counter && JudgedBy(env.store, a) != {}
    && if Wanted(a) > 0 then |SatisfiedBy(env, s, a)| >= Wanted(a) else SatisfiedBy(env, s, a) == JudgedBy(env.store, a)
  }

  /** The completion test of an achievement that sums nothing, without the loop. */
  lemma CompletionExact(env: Env, s: State, a: Achievement)
    requires env.store.Valid() && !a.summ
    ensures IsCompletedAchievement(env, s, a) <==> Deserved(env, s, a)
  {
    var list := env.store.CriteriaByAchievement(TestId(a));
    CriteriaAscend(env.store, env.store.criteriaRows, TestId(a));
    EnoughFrom(env, s, a, list, 0, 0, true);
    assert list[0..] == list;
    hide EnoughCompleted, IsCompletedCriteria, Satisfied;
    ListedAreJudged(env.store, a);
    if !a.counter {
      CriterionExact(env, s, a);
      SatisfiedListed(env, s, a, list);
    }
  }

  lemma ListedAreJudged(store: Store, a: Achievement)
    requires store.Valid()
    ensures JudgedBy(store, a) == {} <==> store.CriteriaByAchievement(TestId(a)) == []
  {
    var list := store.CriteriaByAchievement(TestId(a));
    assert forall id :: id in JudgedBy(store, a) ==> store.criteria[id] in list;
    if list != [] { assert list[0] in list && list[0].id in JudgedBy(store, a); }
  }

  lemma CriterionExact(env: Env, s: State, a: Achievement)
    requires !a.counter
    ensures forall c :: IsCompletedCriteria(env, s, c, a) <==> Satisfied(env, s, a, c)
  {
  }

  lemma SatisfiedListed(env: Env, s: State, a: Achievement, list: seq<Criterion>)
    requires env.store.Valid() && forall c :: c in list <==> env.store.HasCriterion(c) && c.referred == TestId(a)
    requires forall c :: IsCompletedCriteria(env, s, c, a) <==> Satisfied(env, s, a, c)
    ensures Done(env, s, a, list, 0) == SatisfiedBy(env, s, a)
    ensures SatisfiedBy(env, s, a) == JudgedBy(env.store, a) <==>
      forall k :: 0 <= k < |list| ==> IsCompletedCriteria(env, s, list[k], a)
  {
    hide IsCompletedCriteria, Satisfied;
    forall id | id in JudgedBy(env.store, a) ensures exists k :: 0 <= k < |list| && list[k].id == id {
      var c := env.store.criteria[id];
      assert c in list;
      var k :| 0 <= k < |list| && list[k] == c;
      assert list[k].id == id;
    }
    forall k | 0 <= k < |list|
      ensures list[k].id in JudgedBy(env.store, a) && env.store.criteria[list[k].id] == list[k]
    {
      assert list[k] in list;
    }
  }

  /** Over every ordinary run: an achievement that sums nothing is held exactly if enough of its
      counters have reached their goals. */
  lemma HeldByCounters(store: Store, horde: bool, events: seq<Event>, env: Env, a: Achievement)
    requires store.Valid() && ReferencesReport(store) && CapsFit(store)
    requires RealmGrows(events) && forall i :: 0 <= i < |events| ==> Ordinary(store, events[i])
    requires env.store == store && env.horde == horde
    requires events != [] ==> events[|events| - 1].realmTaken <= env.realmTaken
    requires store.Has(a) && !a.summ && !a.realmFirst
    ensures a.id in Run(store, horde, events).completed <==> Deserved(env, Run(store, horde, events), a)
  {
    hide Run, IsCompletedAchievement, Deserved;
    RunGood(store, horde, events, env);
    var s := Run(store, horde, events);
    assert Settled(env, s, a) && Sound(env, s, a);
    CompletionExact(env, s, a);
  }
}
