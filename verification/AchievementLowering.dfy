/** Lowered counters: achievements that are no longer complete are taken back, and what held
    for all achievements and criteria before holds again afterwards. */
module AchievementLowering {
  import opened AchievementStore
  import opened AchievementEngine
  import opened AchievementFixpoint
  import opened AchievementCascade

  ghost function CapTotal(store: Store, list: seq<Criterion>): nat
    requires store.Valid() && forall c :: c in list ==> store.HasCriterion(c)
  {
    if list == [] then 0
    else MaxCounter(list[0], store.Owner(list[0])) + CapTotal(store, list[1..])
  }

  /** Even the largest counters a SUMM achievement can add up fit a uint32. */
  ghost predicate CapsFit(store: Store)
    requires store.Valid()
  {
    forall a :: store.Has(a) && a.summ && !a.counter ==>
      CapTotal(store, store.CriteriaByAchievement(TestId(a))) < UINT32_SIZE
  }

  lemma {:induction false} TotalBelowCaps(env: Env, s: State, list: seq<Criterion>)
    requires env.store.Valid() && Bounded(env, s) && forall c :: c in list ==> env.store.HasCriterion(c)
    ensures Total(s, list) <= CapTotal(env.store, list)
  {
    if list != [] {
      assert env.store.HasCriterion(list[0]);
      TotalBelowCaps(env, s, list[1..]);
    }
  }

  lemma CapsGiveFits(env: Env, s: State, a: Achievement)
    requires env.store.Valid() && env.store.Has(a) && Bounded(env, s) && CapsFit(env.store)
    ensures Fits(env, s, a)
  {
    TotalBelowCaps(env, s, env.store.CriteriaByAchievement(TestId(a)));
  }

  /** What every finished event restores: the held achievements are exactly the complete ones,
      except that a realm-first achievement may be held after the realm's place was taken. */
  ghost predicate Good(env: Env, s: State)
    requires env.store.Valid()
  {
    && InStore(env, s) && Bounded(env, s) && AllCounted(env, s)
    && (forall a :: env.store.Has(a) ==> Settled(env, s, a))
    && (forall a :: env.store.Has(a) && !a.realmFirst ==> Sound(env, s, a))
  }

  /** A step that keeps everything keeps this, too. */
  lemma KeepsGood(env: Env, s: State, t: State)
    requires env.store.Valid() && CapsFit(env.store) && ReferencesReport(env.store) && Good(env, s) && Keeps(env, s, t)
    ensures Good(env, t)
  {
    hide PointsAreSum, RowsMatch, TimersHaveRecords, IsCompletedAchievement, LinkCounted, PointsCounted;
    assert Bounded(env, t) && InStore(env, t);
    forall a | env.store.Has(a) && !a.realmFirst
      ensures Sound(env, t, a)
    {
      CapsGiveFits(env, t, a);
      assert Sound(env, s, a);
    }
    forall a | env.store.Has(a)
      ensures Settled(env, t, a)
    {
      assert Settled(env, s, a);
    }
  }

  /** What a recheck leaves held: of the listed achievements only complete ones, and no
      complete achievement is lost. */
  lemma {:induction false} RecheckExact(env: Env, s: State, list: seq<Achievement>)
    requires env.store.Valid() && forall a :: a in list ==> env.store.Has(a)
    ensures var t := Recheck(env, s, list);
      && t.progress == s.progress && t.points == s.points && t.failTimes == s.failTimes
      && t.progressRows == s.progressRows
      && t.completed.Keys <= s.completed.Keys
      && (forall a :: a in list && !a.counter && a.id in t.completed ==> IsCompletedAchievement(env, s, a))
      && (forall a :: env.store.Has(a) && a.id in s.completed && IsCompletedAchievement(env, s, a) ==>
          a.id in t.completed)
    decreases |list|
  {
    hide IsCompletedAchievement;
    if list != [] {
      var a := list[0];
      assert env.store.Has(a);
      var s1 := if a.id in s.completed && !IsCompletedAchievement(env, s, a) then IncompletedAchievement(s, a) else s;
      forall b | env.store.Has(b)
        ensures IsCompletedAchievement(env, s1, b) == IsCompletedAchievement(env, s, b)
      {
        CompletionFrame(env, s, s1, b);
      }
      RecheckExact(env, s1, list[1..]);
      assert forall b :: b in list ==> b == a || b in list[1..];
    }
  }

  lemma {:induction false} RecheckRows(env: Env, s: State, list: seq<Achievement>)
    requires env.store.Valid() && RowsMatch(s)
    ensures RowsMatch(Recheck(env, s, list))
    decreases |list|
  {
    hide IsCompletedAchievement;
    if list != [] {
      var a := list[0];
      var s1 := if a.id in s.completed && !IsCompletedAchievement(env, s, a) then IncompletedAchievement(s, a) else s;
      RecheckRows(env, s1, list[1..]);
    }
  }

  lemma AfterLowerExact(env: Env, s: State, owner: Achievement)
    requires env.store.Valid() && env.store.Has(owner)
    ensures var t := AfterLower(env, s, owner);
      && t.progress == s.progress && t.points == s.points && t.failTimes == s.failTimes
      && t.progressRows == s.progressRows
      && t.completed.Keys <= s.completed.Keys
      && (RowsMatch(s) ==> RowsMatch(t))
      && (forall a :: env.store.Has(a) && TestId(a) == owner.id && !a.counter && a.id in t.completed ==>
          IsCompletedAchievement(env, s, a))
      && (forall a :: env.store.Has(a) && a.id in s.completed && IsCompletedAchievement(env, s, a) ==>
          a.id in t.completed)
  {
    hide RowsMatch, IsCompletedAchievement;
    var s1 := Recheck(env, s, [owner]);
    RecheckExact(env, s, [owner]);
    var refs := env.store.References(owner.id);
    RecheckExact(env, s1, refs);
    forall a | env.store.Has(a)
      ensures IsCompletedAchievement(env, s1, a) == IsCompletedAchievement(env, s, a)
      ensures TestId(a) == owner.id ==> a == owner || a in refs
    {
      CompletionFrame(env, s, s1, a);
    }
    assert owner in [owner];
    if RowsMatch(s) {
      RecheckRows(env, s, [owner]);
      RecheckRows(env, s1, refs);
    }
  }

  /** Lowering the counter of an ordinary criterion keeps the held achievements exact. */
  lemma LoweredGood(env: Env, s: State, c: Criterion, value: nat)
    requires env.store.Valid() && env.store.HasCriterion(c) && ReferencesReport(env.store) && CapsFit(env.store)
    requires Good(env, s) && c.id in s.progress && value < Counter(s, c)
    requires c.requiredType != TYPE_COMPLETE_ACHIEVEMENT && c.requiredType != TYPE_EARN_ACHIEVEMENT_POINTS
    ensures Good(env, AfterChange(env, Record(env, s, c, value), c, Counter(s, c), value))
  {
    hide AllCounted, Bounded, InStore, IsCompletedAchievement, AfterChange;
    var t := AfterChange(env, Record(env, s, c, value), c, Counter(s, c), value);
    LoweredCounted(env, s, c, value);
    forall a | env.store.Has(a)
      ensures Settled(env, t, a)
      ensures !a.realmFirst ==> Sound(env, t, a)
    {
      LoweredAchievement(env, s, c, value, a);
    }
  }

  /** What lowering leaves alone: points, the other counters, and the held set's upper bound. */
  lemma LoweredLeaves(env: Env, s: State, c: Criterion, value: nat)
    requires env.store.Valid() && env.store.HasCriterion(c) && value < Counter(s, c)
    ensures var t := AfterChange(env, Record(env, s, c, value), c, Counter(s, c), value);
      && t.points == s.points && t.completed.Keys <= s.completed.Keys && t.failTimes.Keys == s.failTimes.Keys
      && t.progress == Record(env, s, c, value).progress && t.progressRows == s.progressRows
      && (RowsMatch(s) ==> RowsMatch(t))
  {
    hide RowsMatch, AfterLower;
    var r := Record(env, s, c, value);
    RecordLeaves(env, s, c, value);
    AfterLowerExact(env, r, env.store.Owner(c));
  }

  lemma LoweredCounted(env: Env, s: State, c: Criterion, value: nat)
    requires env.store.Valid() && env.store.HasCriterion(c) && value < Counter(s, c)
    requires InStore(env, s) && Bounded(env, s) && AllCounted(env, s)
    requires c.requiredType != TYPE_COMPLETE_ACHIEVEMENT && c.requiredType != TYPE_EARN_ACHIEVEMENT_POINTS
    ensures var t := AfterChange(env, Record(env, s, c, value), c, Counter(s, c), value);
      InStore(env, t) && Bounded(env, t) && AllCounted(env, t)
  {
    LoweredLeaves(env, s, c, value);
    RecordOthers(env, s, c, value);
    var t := AfterChange(env, Record(env, s, c, value), c, Counter(s, c), value);
    hide AfterChange;
    assert forall c' :: env.store.HasCriterion(c') && c' != c ==> Counter(t, c') == Counter(s, c');
  }

  /** The rechecks after a lowered counter, for one achievement. */
  lemma LoweredRechecks(env: Env, s: State, c: Criterion, value: nat, a: Achievement)
    requires env.store.Valid() && env.store.HasCriterion(c) && ReferencesReport(env.store)
    requires value < Counter(s, c) && env.store.Has(a) && !a.counter
    ensures var r := Record(env, s, c, value); var t := AfterChange(env, r, c, Counter(s, c), value);
      && (TestId(a) == c.referred && a.id in t.completed ==> IsCompletedAchievement(env, r, a))
      && (a.id in s.completed && IsCompletedAchievement(env, r, a) ==> a.id in t.completed)
  {
    hide IsCompletedAchievement, AfterLower, RowsMatch;
    var owner := env.store.Owner(c);
    var r := Record(env, s, c, value);
    AfterLowerExact(env, r, owner);
    if owner.counter && !owner.summ { PlainCounterJudgesItself(env, owner); }
  }

  lemma LoweredAchievement(env: Env, s: State, c: Criterion, value: nat, a: Achievement)
    requires env.store.Valid() && env.store.HasCriterion(c) && ReferencesReport(env.store) && CapsFit(env.store)
    requires Bounded(env, s) && c.id in s.progress && value < Counter(s, c)
    requires env.store.Has(a) && Settled(env, s, a) && (!a.realmFirst ==> Sound(env, s, a))
    ensures var t := AfterChange(env, Record(env, s, c, value), c, Counter(s, c), value);
      Settled(env, t, a) && (!a.realmFirst ==> Sound(env, t, a))
  {
    var r := Record(env, s, c, value);
    var t := AfterChange(env, r, c, Counter(s, c), value);
    hide AfterChange, CapsFit, Bounded;
    CapsGiveFits(env, s, a);
    LoweredLeaves(env, s, c, value);
    CompletionFrame(env, r, t, a);
    if !a.counter { LoweredRechecks(env, s, c, value, a); }
    if TestId(a) != c.referred { CompletionFrame(env, r, s, a); }
    if IsCompletedAchievement(env, r, a) { CompletionMonotone(env, r, s, a); }
  }
}
