/** Concrete stores and states on which the conditions of the main theorems fail, and what
    goes wrong there. */
module AchievementLimits {
  import opened AchievementStore
  import opened AchievementEngine
  import opened AchievementFixpoint

  const PLAIN: Achievement := Achievement(1, false, false, false, false, AnyFaction, 0, 0, 10)
  const ONE_STEP: Criterion := Criterion(0, 1, 60, 0, 0, 5, 0, 0)

  /** A plain counter whose criterion is borrowed by another achievement. */
  const STATISTIC: Achievement := PLAIN.(counter := true)
  const BORROWER: Achievement := PLAIN.(id := 2, refAchievement := 1)
  const BORROWED_COUNTER: Store := Store(3, map[1 := STATISTIC, 2 := BORROWER], 1, map[0 := ONE_STEP])

  lemma OnlyCriterion(store: Store, c: Criterion, id: nat)
    requires store.Valid() && store.criteriaRows == 1 && store.criteria == map[0 := c] && c.referred == id
    ensures store.CriteriaByAchievement(id) == [c]
  {
    assert store.CriteriaByAchievementBelow(0, id) == [];
    assert store.criteria[0] == c;
  }

  /** The borrower is complete and not held: a plain counter does not report. */
  lemma PlainCounterHidesCompletion(now: int)
    ensures BORROWED_COUNTER.Valid() && !ReferencesReport(BORROWED_COUNTER)
    ensures var env := Env(BORROWED_COUNTER, true, now, {});
      var s := SetCriteriaProgress(env, EMPTY, ONE_STEP, 5, ProgressHighest);
      IsCompletedAchievement(env, s, BORROWER) && BORROWER.id !in s.completed
  {
    var env := Env(BORROWED_COUNTER, true, now, {});
    assert BORROWED_COUNTER.Has(BORROWER);
    var s := SetCriteriaProgress(env, EMPTY, ONE_STEP, 5, ProgressHighest);
    assert BORROWED_COUNTER.Owner(ONE_STEP) == STATISTIC;
    var r := Record(env, EMPTY, ONE_STEP, 5);
    assert AfterChange(env, r, ONE_STEP, 0, 5) == r;
    assert s == r;
    OnlyCriterion(BORROWED_COUNTER, ONE_STEP, 1);
    assert IsCompletedCriteria(env, s, ONE_STEP, BORROWER);
    assert EnoughCompleted(env, s, BORROWER, [], 1, true);
  }

  /** A SUMM achievement over two criteria that both ask for the largest uint32. */
  const SUM: Achievement := PLAIN.(summ := true)
  const FIRST: Criterion := Criterion(0, 1, 60, 0, UINT32_MAX, UINT32_MAX, 0, 0)
  const SECOND: Criterion := FIRST.(id := 1)
  const TWO_PARTS: Store := Store(2, map[1 := SUM], 2, map[0 := FIRST, 1 := SECOND])

  function Counters(a: nat, b: nat): State {
    EMPTY.(progress := map[0 := Progress(a, 0, true, false), 1 := Progress(b, 0, true, false)])
  }

  /** More progress can make a SUMM achievement incomplete again once its uint32 sum wraps. */
  lemma WrappedSumUncompletes(env: Env)
    requires env.store == TWO_PARTS
    ensures TWO_PARTS.Valid() && Grows(Counters(UINT32_MAX - 5, 5), Counters(UINT32_MAX - 5, 10))
    ensures IsCompletedAchievement(env, Counters(UINT32_MAX - 5, 5), SUM)
    ensures !IsCompletedAchievement(env, Counters(UINT32_MAX - 5, 10), SUM)
    ensures !Fits(env, Counters(UINT32_MAX - 5, 10), SUM)
  {
    BothParts();
    var list := [FIRST, SECOND];
    var s, t := Counters(UINT32_MAX - 5, 5), Counters(UINT32_MAX - 5, 10);
    assert list[1..] == [SECOND] && [SECOND][1..] == [];
    assert SummReached(s, [SECOND], UINT32_MAX - 5);
    assert !SummReached(t, [SECOND], UINT32_MAX - 5) by { assert !SummReached(t, [], 4); }
    assert Total(t, [SECOND]) == 10 + Total(t, []);
  }

  lemma BothParts()
    ensures TWO_PARTS.Valid() && TWO_PARTS.CriteriaByAchievement(1) == [FIRST, SECOND]
  {
    assert TWO_PARTS.CriteriaByAchievementBelow(0, 1) == [];
    assert TWO_PARTS.CriteriaByAchievementBelow(1, 1) == [FIRST];
  }

  // ----- when the wrapped sum decides -----

  /** The running total of the SUMM loop after criterion `k`, before it is cut to a uint32. */
  ghost function RunningTotal(s: State, list: seq<Criterion>, k: nat): nat
    requires k < |list|
  {
    Total(s, list[..k + 1])
  }

  /** Criterion `k` has a record, and the wrapped total reaches its threshold there. */
  ghost predicate ReachedAt(s: State, list: seq<Criterion>, k: nat, before: nat) {
    k < |list| && list[k].id in s.progress && (before + RunningTotal(s, list, k)) % UINT32_SIZE >= list[k].count
  }

  lemma ReachedLater(s: State, list: seq<Criterion>, k: nat, before: nat)
    requires 0 < k < |list|
    ensures ReachedAt(s, list, k, before) <==> ReachedAt(s, list[1..], k - 1, before + Counter(s, list[0]))
  {
    assert list[..k + 1][1..] == list[1..][..k];
    assert list[1..][k - 1] == list[k];
  }

  lemma ReachedFirst(s: State, list: seq<Criterion>, before: nat)
    requires list != []
    ensures ReachedAt(s, list, 0, before) <==>
      list[0].id in s.progress && (before + Counter(s, list[0])) % UINT32_SIZE >= list[0].count
  {
    assert list[..1] == [list[0]] && list[..1][1..] == [];
    assert RunningTotal(s, list, 0) == Counter(s, list[0]) + Total(s, []);
  }

  /** The SUMM loop succeeds if and only if some wrapped running total reaches its threshold. */
  lemma {:induction false} SummExact(s: State, list: seq<Criterion>, before: nat)
    ensures SummReached(s, list, before % UINT32_SIZE) <==> exists k: nat :: ReachedAt(s, list, k, before)
  {
    hide ReachedAt;
    if list == [] {
      NoneReached(s, before);
    } else {
      var next := before + Counter(s, list[0]);
      ModuloAdd(before, Counter(s, list[0]));
      ReachedFirst(s, list, before);
      SummExact(s, list[1..], next);
      if k: nat :| ReachedAt(s, list, k, before) {
        InList(s, list, k, before);
        if k > 0 { ReachedLater(s, list, k, before); }
      }
      if k: nat :| ReachedAt(s, list[1..], k, next) {
        InList(s, list[1..], k, next);
        ReachedLater(s, list, k + 1, before);
      }
    }
  }

  lemma NoneReached(s: State, before: nat)
    ensures forall k :: !ReachedAt(s, [], k, before)
  {
  }

  lemma InList(s: State, list: seq<Criterion>, k: nat, before: nat)
    requires ReachedAt(s, list, k, before)
    ensures k < |list|
  {
  }

  /** A SUMM achievement is complete if and only if some wrapped running total reaches the
      threshold of its criterion.  More progress makes it incomplete only by an overflow: every
      total that reached its threshold before no longer fits a uint32. */
  lemma SummLostIff(env: Env, s: State, t: State, a: Achievement)
    requires env.store.Valid() && a.summ && !a.counter && Grows(s, t) && IsCompletedAchievement(env, s, a)
    ensures var list := env.store.CriteriaByAchievement(TestId(a));
      && (!IsCompletedAchievement(env, t, a) <==> forall k: nat :: !ReachedAt(t, list, k, 0))
      && (!IsCompletedAchievement(env, t, a) ==>
            forall k: nat :: ReachedAt(s, list, k, 0) ==> RunningTotal(t, list, k) >= UINT32_SIZE)
  {
    var list := env.store.CriteriaByAchievement(TestId(a));
    SummTest(env, s, a);
    SummTest(env, t, a);
    hide IsCompletedAchievement, Counter;
    forall k: nat | ReachedAt(s, list, k, 0) && !ReachedAt(t, list, k, 0)
      ensures RunningTotal(t, list, k) >= UINT32_SIZE
    {
      TotalMonotone(s, t, list[..k + 1]);
    }
  }

  lemma SummTest(env: Env, s: State, a: Achievement)
    requires env.store.Valid() && a.summ && !a.counter
    ensures var list := env.store.CriteriaByAchievement(TestId(a));
      IsCompletedAchievement(env, s, a) <==> exists k: nat :: ReachedAt(s, list, k, 0)
  {
    SummExact(s, env.store.CriteriaByAchievement(TestId(a)), 0);
    hide SummReached, ReachedAt;
    if env.store.CriteriaByAchievement(TestId(a)) == [] { NoneReached(s, 0); }
  }
}
