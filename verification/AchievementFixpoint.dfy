/** What one call into the engine keeps.  Every property is stated for one achievement or one
    criterion at a time, so that it survives the re-entrant calls made while the caller still
    has work to do: a call keeps whatever held before it, and adds its own share. */
module AchievementFixpoint {
  import opened AchievementStore
  import opened AchievementEngine

  // ----- the properties -----

  /** A complete achievement has been entered. */
  ghost predicate Settled(env: Env, s: State, a: Achievement)
    requires env.store.Valid()
  {
    IsCompletedAchievement(env, s, a) ==> a.id in s.completed
  }

  /** An entered achievement is complete. */
  ghost predicate Sound(env: Env, s: State, a: Achievement)
    requires env.store.Valid()
  {
    a.id in s.completed ==> IsCompletedAchievement(env, s, a)
  }

  ghost function Total(s: State, list: seq<Criterion>): nat {
    if list == [] then 0 else Counter(s, list[0]) + Total(s, list[1..])
  }

  /** The sum a SUMM achievement is judged by fits a uint32. */
  ghost predicate Fits(env: Env, s: State, a: Achievement)
    requires env.store.Valid()
  {
    a.summ && !a.counter ==> Total(s, env.store.CriteriaByAchievement(TestId(a))) < UINT32_SIZE
  }

  /** The criteria that a nested update of type `t` may raise for this player. */
  ghost predicate Eligible(env: Env, c: Criterion, t: nat)
    requires env.store.Valid()
  {
    && env.store.HasCriterion(c) && c.requiredType == t
    && FactionAllows(env, env.store.Owner(c)) && !c.ExplicitTimer()
  }

  /** A meta criterion whose linked achievement is held counts it. */
  ghost predicate LinkCounted(env: Env, s: State, c: Criterion) {
    c.value in s.completed ==> Counter(s, c) >= 1
  }

  /** A points criterion has seen the current points; one that is satisfied by any progress
      (REQ_COUNT) only needs to have started. */
  ghost predicate PointsCounted(env: Env, s: State, c: Criterion)
    requires env.store.Valid() && env.store.HasCriterion(c)
  {
    var a := env.store.Owner(c);
    Counter(s, c) >= Min(s.points, MaxCounter(c, a)) || (a.reqCount && Counter(s, c) != 0)
  }

  /** Stored counters respect the maxima; they come from counters that did. */
  ghost predicate RowsBounded(env: Env, s: State)
    requires env.store.Valid()
  {
    forall id :: id in s.progressRows && id in env.store.criteria ==>
      s.progressRows[id].counter <= MaxCounter(env.store.criteria[id], env.store.Owner(env.store.criteria[id]))
  }

  /** Every counter, in memory or stored, is at most its maximum. */
  ghost predicate Bounded(env: Env, s: State)
    requires env.store.Valid()
  {
    && (forall c :: env.store.HasCriterion(c) ==> Counter(s, c) <= MaxCounter(c, env.store.Owner(c)))
    && RowsBounded(env, s)
  }

  /** The sum of the points of a set of achievements. */
  ghost function SumPoints(store: Store, ids: set<nat>): nat
    requires ids <= store.achievements.Keys
  {
    if ids == {} then 0
    else var id :| id in ids; store.achievements[id].points + SumPoints(store, ids - {id})
  }

  /** `points` is the uint32 sum over the held achievements. */
  ghost predicate PointsAreSum(env: Env, s: State) {
    && s.completed.Keys <= env.store.achievements.Keys
    && s.points == SumPoints(env.store, s.completed.Keys) % UINT32_SIZE
  }

  /** A counter not marked changed agrees with its stored row, and has one unless it is 0. */
  ghost predicate CountersStored(s: State) {
    forall id :: id in s.progress && !s.progress[id].changed ==>
      && (s.progress[id].counter != 0 ==> id in s.progressRows)
      && (id in s.progressRows ==> s.progressRows[id] == ProgressRow(s.progress[id].counter, s.progress[id].date))
  }

  /** A stored row exists exactly for a held achievement that is not marked changed. */
  ghost predicate RowsMatch(s: State) {
    && (forall id :: id in s.rows <==> id in s.completed && !s.completed[id].changed)
    && (forall id :: id in s.rows ==> s.rows[id] == s.completed[id].date)
    && CountersStored(s)
  }

  /** Every running timer has a progress record, which is what its expiry asserts. */
  ghost predicate TimersHaveRecords(s: State) {
    s.failTimes.Keys <= s.progress.Keys
  }

  /** Held achievements and running timers belong to the store. */
  ghost predicate InStore(env: Env, s: State) {
    s.completed.Keys <= env.store.achievements.Keys && s.failTimes.Keys <= env.store.criteria.Keys
  }

  ghost predicate Grows(s: State, t: State) {
    && (forall id :: id in s.progress ==> id in t.progress && s.progress[id].counter <= t.progress[id].counter)
    && (forall id :: id in s.completed ==> id in t.completed && t.completed[id] == s.completed[id])
  }

  /** No achievement that can be complete borrows the criteria of a plain counter: such criteria
      never report. */
  ghost predicate ReferencesReport(store: Store) {
    forall a :: store.Has(a) && !a.counter && a.refAchievement in store.achievements && a.refAchievement != 0 ==>
      var owner := store.achievements[a.refAchievement];
      !owner.counter || owner.summ
  }

  ghost predicate KeepsAchievements(env: Env, s: State, t: State)
    requires env.store.Valid()
  {
    && (ReferencesReport(env.store) ==> forall a :: env.store.Has(a) && Settled(env, s, a) ==> Settled(env, t, a))
    && (forall a :: env.store.Has(a) && Sound(env, s, a) && Fits(env, t, a) ==> Sound(env, t, a))
  }

  ghost predicate KeepsCriteria(env: Env, s: State, t: State)
    requires env.store.Valid()
  {
    && (forall c :: Eligible(env, c, TYPE_COMPLETE_ACHIEVEMENT) && LinkCounted(env, s, c) ==> LinkCounted(env, t, c))
    && (forall c :: Eligible(env, c, TYPE_EARN_ACHIEVEMENT_POINTS) && PointsCounted(env, s, c) ==>
        PointsCounted(env, t, c))
  }

  ghost predicate KeepsTotals(env: Env, s: State, t: State)
    requires env.store.Valid()
  {
    && (Bounded(env, s) ==> Bounded(env, t))
    && (InStore(env, s) ==> InStore(env, t))
    && (PointsAreSum(env, s) ==> PointsAreSum(env, t))
    && (RowsMatch(s) ==> RowsMatch(t))
    && (TimersHaveRecords(s) ==> TimersHaveRecords(t))
  }

  ghost predicate Keeps(env: Env, s: State, t: State)
    requires env.store.Valid()
  {
    Grows(s, t) && KeepsAchievements(env, s, t) && KeepsCriteria(env, s, t) && KeepsTotals(env, s, t)
  }

  // ----- the two loops of IsCompletedAchievement -----

  lemma {:induction false} EnoughMonotone(env: Env, env': Env, s: State, t: State, a: Achievement, list: seq<Criterion>,
                                          n: nat, m: nat, all: bool, all': bool)
    requires forall c :: c in list && IsCompletedCriteria(env, s, c, a) ==> IsCompletedCriteria(env', t, c, a)
    requires n <= m && (all ==> all')
    requires EnoughCompleted(env, s, a, list, n, all)
    ensures EnoughCompleted(env', t, a, list, m, all')
  {
    if list != [] {
      var before := IsCompletedCriteria(env, s, list[0], a);
      var after := IsCompletedCriteria(env', t, list[0], a);
      assert list[0] in list;
      var n' := if before then n + 1 else n;
      var m' := if after then m + 1 else m;
      if !(0 < TestCount(a) <= n') {
        EnoughMonotone(env, env', s, t, a, list[1..], n', m', all && before, all' && after);
      }
    }
  }

  lemma {:induction false} TotalMonotone(s: State, t: State, list: seq<Criterion>)
    requires Grows(s, t)
    ensures Total(s, list) <= Total(t, list)
  {
    if list != [] { TotalMonotone(s, t, list[1..]); }
  }

  lemma {:induction false} SummMonotone(s: State, t: State, list: seq<Criterion>, n: nat, m: nat)
    requires Grows(s, t) && n <= m && m + Total(t, list) < UINT32_SIZE
    requires SummReached(s, list, n)
    ensures SummReached(t, list, m)
  {
    hide Grows;
    TotalMonotone(s, t, list[1..]);
    GrowsAt(s, t, list[0]);
    var n', m' := n + Counter(s, list[0]), m + Counter(t, list[0]);
    assert n' % UINT32_SIZE == n' && m' % UINT32_SIZE == m';
    if SummReached(s, list[1..], n') {
      SummMonotone(s, t, list[1..], n', m');
    }
  }

  lemma GrowsAt(s: State, t: State, c: Criterion)
    requires Grows(s, t)
    ensures Counter(s, c) <= Counter(t, c)
    ensures c.id in s.progress ==> c.id in t.progress
  {
  }

  lemma {:induction false} SummFrame(s: State, t: State, list: seq<Criterion>, n: nat)
    requires forall c :: c in list ==> (c.id in s.progress <==> c.id in t.progress) && Counter(s, c) == Counter(t, c)
    ensures SummReached(s, list, n) == SummReached(t, list, n)
  {
    if list != [] {
      assert list[0] in list;
      var n' := if list[0].id in s.progress then (n + s.progress[list[0].id].counter) % UINT32_SIZE else n;
      SummFrame(s, t, list[1..], n');
    }
  }

  /** More progress never makes a complete achievement incomplete, as long as its sum fits. */
  lemma CompletionMonotone(env: Env, s: State, t: State, a: Achievement)
    requires env.store.Valid() && Grows(s, t) && Fits(env, t, a)
    requires IsCompletedAchievement(env, s, a)
    ensures IsCompletedAchievement(env, t, a)
  {
    var list := env.store.CriteriaByAchievement(TestId(a));
    if a.summ {
      SummMonotone(s, t, list, 0, 0);
    } else {
      EnoughMonotone(env, env, s, t, a, list, 0, 0, true, true);
    }
  }

  lemma FitsMonotone(env: Env, s: State, t: State, a: Achievement)
    requires env.store.Valid() && Grows(s, t) && Fits(env, t, a)
    ensures Fits(env, s, a)
  {
    TotalMonotone(s, t, env.store.CriteriaByAchievement(TestId(a)));
  }

  /** Completion depends only on the records the achievement is judged by. */
  lemma CompletionFrame(env: Env, s: State, t: State, a: Achievement)
    requires env.store.Valid()
    requires forall c :: env.store.HasCriterion(c) && c.referred == TestId(a) ==>
      && (c.id in s.progress <==> c.id in t.progress) && Counter(s, c) == Counter(t, c)
    ensures IsCompletedAchievement(env, s, a) == IsCompletedAchievement(env, t, a)
  {
    var list := env.store.CriteriaByAchievement(TestId(a));
    if a.summ {
      SummFrame(s, t, list, 0);
    } else {
      if EnoughCompleted(env, s, a, list, 0, true) { EnoughMonotone(env, env, s, t, a, list, 0, 0, true, true); }
      if EnoughCompleted(env, t, a, list, 0, true) { EnoughMonotone(env, env, t, s, a, list, 0, 0, true, true); }
    }
  }

  // ----- Keeps is a preorder -----

  lemma KeepsReflexive(env: Env, s: State)
    requires env.store.Valid()
    ensures Keeps(env, s, s)
  {
  }

  lemma KeepsTotalsTransitive(env: Env, s: State, t: State, u: State)
    requires env.store.Valid() && KeepsTotals(env, s, t) && KeepsTotals(env, t, u)
    ensures KeepsTotals(env, s, u)
  {
    hide Bounded, PointsAreSum, RowsMatch, TimersHaveRecords;
  }

  lemma KeepsCriteriaTransitive(env: Env, s: State, t: State, u: State)
    requires env.store.Valid() && KeepsCriteria(env, s, t) && KeepsCriteria(env, t, u)
    ensures KeepsCriteria(env, s, u)
  {
    hide LinkCounted, PointsCounted, Eligible;
  }

  lemma KeepsAchievementsTransitive(env: Env, s: State, t: State, u: State)
    requires env.store.Valid() && KeepsAchievements(env, s, t) && KeepsAchievements(env, t, u) && Grows(t, u)
    ensures KeepsAchievements(env, s, u)
  {
    hide Settled, Sound;
    forall a | env.store.Has(a) && Sound(env, s, a) && Fits(env, u, a)
      ensures Sound(env, u, a)
    {
      FitsMonotone(env, t, u, a);
    }
  }

  lemma KeepsTransitive(env: Env, s: State, t: State, u: State)
    requires env.store.Valid() && Keeps(env, s, t) && Keeps(env, t, u)
    ensures Keeps(env, s, u)
  {
    hide KeepsAchievements, KeepsCriteria, KeepsTotals;
    KeepsAchievementsTransitive(env, s, t, u);
    KeepsCriteriaTransitive(env, s, t, u);
    KeepsTotalsTransitive(env, s, t, u);
  }

  lemma KeepsSettled(env: Env, s: State, t: State, a: Achievement)
    requires env.store.Valid() && ReferencesReport(env.store) && Keeps(env, s, t) && env.store.Has(a)
    requires Settled(env, s, a)
    ensures Settled(env, t, a)
  {
  }

  lemma KeepsCounted(env: Env, s: State, t: State, c: Criterion)
    requires env.store.Valid() && Keeps(env, s, t)
    ensures Counter(s, c) <= Counter(t, c)
    ensures Eligible(env, c, TYPE_COMPLETE_ACHIEVEMENT) && LinkCounted(env, s, c) ==> LinkCounted(env, t, c)
    ensures Eligible(env, c, TYPE_EARN_ACHIEVEMENT_POINTS) && PointsCounted(env, s, c) ==> PointsCounted(env, t, c)
    ensures Bounded(env, s) ==> Bounded(env, t)
  {
    hide Bounded, LinkCounted, PointsCounted;
  }

  // ----- writing one counter -----

  lemma RecordGrows(env: Env, s: State, c: Criterion, value: nat)
    requires Counter(s, c) <= value
    ensures Grows(s, Record(env, s, c, value))
  {
  }

  lemma RecordOthers(env: Env, s: State, c: Criterion, value: nat)
    requires env.store.Valid() && env.store.HasCriterion(c)
    ensures forall c' :: env.store.HasCriterion(c') && c' != c ==>
      Counter(Record(env, s, c, value), c') == Counter(s, c')
  {
    forall c' | env.store.HasCriterion(c') && c' != c
      ensures Counter(Record(env, s, c, value), c') == Counter(s, c')
    {
      assert c'.id != c.id;
    }
  }

  lemma RecordLeaves(env: Env, s: State, c: Criterion, value: nat)
    ensures PointsAreSum(env, s) == PointsAreSum(env, Record(env, s, c, value))
    ensures RowsMatch(s) ==> RowsMatch(Record(env, s, c, value))
  {
  }

  lemma RecordTotals(env: Env, s: State, c: Criterion, value: nat)
    requires env.store.Valid() && env.store.HasCriterion(c)
    requires value <= MaxCounter(c, env.store.Owner(c))
    ensures KeepsTotals(env, s, Record(env, s, c, value))
  {
    hide PointsAreSum, RowsMatch;
    var t := Record(env, s, c, value);
    RecordOthers(env, s, c, value);
    RecordLeaves(env, s, c, value);
  }

  lemma RecordCriteria(env: Env, s: State, c: Criterion, value: nat)
    requires env.store.Valid() && env.store.HasCriterion(c)
    requires Counter(s, c) < value
    ensures KeepsCriteria(env, s, Record(env, s, c, value))
  {
    var t := Record(env, s, c, value);
    RecordOthers(env, s, c, value);
    forall c' | Eligible(env, c', TYPE_EARN_ACHIEVEMENT_POINTS) && PointsCounted(env, s, c')
      ensures PointsCounted(env, t, c')
    {
      assert Counter(s, c') <= Counter(t, c');
    }
  }

  lemma RecordSound(env: Env, s: State, c: Criterion, value: nat, a: Achievement)
    requires env.store.Valid() && env.store.HasCriterion(c) && env.store.Has(a)
    requires Counter(s, c) < value
    requires Sound(env, s, a) && Fits(env, Record(env, s, c, value), a)
    ensures Sound(env, Record(env, s, c, value), a)
  {
    if a.id in s.completed { CompletionMonotone(env, s, Record(env, s, c, value), a); }
  }

  /** An achievement newly completed by one raised counter is judged by that criterion, and
      unless it is a SUMM achievement that criterion itself is now complete for it. */
  lemma RecordUnsettles(env: Env, s: State, c: Criterion, value: nat, a: Achievement)
    requires env.store.Valid() && env.store.HasCriterion(c) && env.store.Has(a)
    requires Counter(s, c) < value
    requires Settled(env, s, a) && !Settled(env, Record(env, s, c, value), a)
    ensures TestId(a) == c.referred
    ensures a.summ || IsCompletedCriteria(env, Record(env, s, c, value), c, a)
  {
    var t := Record(env, s, c, value);
    if TestId(a) != c.referred {
      CompletionFrame(env, t, s, a);
    } else if !a.summ && !IsCompletedCriteria(env, t, c, a) {
      var list := env.store.CriteriaByAchievement(TestId(a));
      forall c' | c' in list && IsCompletedCriteria(env, t, c', a)
        ensures IsCompletedCriteria(env, s, c', a)
      {
        assert c' != c;
      }
      EnoughMonotone(env, env, t, s, a, list, 0, 0, true, true);
    }
  }

  // ----- entering one achievement -----

  lemma {:induction false} SumPointsRemove(store: Store, ids: set<nat>, id: nat)
    requires ids <= store.achievements.Keys && id in ids
    ensures SumPoints(store, ids) == store.achievements[id].points + SumPoints(store, ids - {id})
  {
    var pick :| pick in ids
      && SumPoints(store, ids) == store.achievements[pick].points + SumPoints(store, ids - {pick});
    if pick != id {
      SumPointsRemove(store, ids - {pick}, id);
      SumPointsRemove(store, ids - {id}, pick);
      assert ids - {pick} - {id} == ids - {id} - {pick};
    }
  }

  lemma ModuloAdd(a: nat, b: nat)
    ensures (a % UINT32_SIZE + b) % UINT32_SIZE == (a + b) % UINT32_SIZE
  {
    assert a == a / UINT32_SIZE * UINT32_SIZE + a % UINT32_SIZE;
  }

  lemma EnterPoints(env: Env, s: State, a: Achievement)
    requires env.store.Valid() && env.store.Has(a) && a.id !in s.completed
    requires PointsAreSum(env, s)
    ensures PointsAreSum(env, Enter(env, s, a))
  {
    var t := Enter(env, s, a);
    assert t.completed.Keys == s.completed.Keys + {a.id};
    SumPointsRemove(env.store, t.completed.Keys, a.id);
    assert t.completed.Keys - {a.id} == s.completed.Keys;
    ModuloAdd(SumPoints(env.store, s.completed.Keys), a.points);
  }

  lemma EnterTotals(env: Env, s: State, a: Achievement)
    requires env.store.Valid() && env.store.Has(a) && a.id !in s.completed
    ensures KeepsTotals(env, s, Enter(env, s, a))
  {
    hide PointsAreSum;
    if PointsAreSum(env, s) { EnterPoints(env, s, a); }
  }

  lemma EnterAchievements(env: Env, s: State, a: Achievement)
    requires env.store.Valid() && env.store.Has(a) && a.id !in s.completed
    requires IsCompletedAchievement(env, s, a)
    ensures Grows(s, Enter(env, s, a)) && KeepsAchievements(env, s, Enter(env, s, a))
  {
    var t := Enter(env, s, a);
    forall b | env.store.Has(b)
      ensures Settled(env, s, b) ==> Settled(env, t, b)
      ensures Sound(env, s, b) ==> Sound(env, t, b)
    {
      CompletionFrame(env, s, t, b);
      assert b.id == a.id ==> b == a;
    }
  }
}
