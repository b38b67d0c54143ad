/** The re-entrant calls, proved along the recursion of the engine itself: raising a counter,
    completing achievements, and the nested updates that completion starts. */
module AchievementCascade {
  import opened AchievementStore
  import opened AchievementEngine
  import opened AchievementFixpoint

  /** No decision sets a counter outright. */
  ghost predicate NeverSets(u: Update) {
    u.OtherUpdate? ==> forall id :: id in u.decisions && u.decisions[id].Change? ==>
        u.decisions[id].ptype != ProgressSet
  }

  /** The two types that read the manager's own state have no tabulated decisions. */
  predicate WellFormed(u: Update) {
    u.OtherUpdate? ==> u.requiredType != TYPE_COMPLETE_ACHIEVEMENT && u.requiredType != TYPE_EARN_ACHIEVEMENT_POINTS
  }

  /** This call would lower an existing counter. */
  predicate Lowers(env: Env, s: State, c: Criterion, change: nat, ptype: ProgressType)
    requires env.store.Valid() && env.store.HasCriterion(c)
  {
    var max := MaxCounter(c, env.store.Owner(c));
    c.id in s.progress && NewValue(s.progress[c.id].counter, Min(change, max), max, ptype) < s.progress[c.id].counter
  }

  /** Every link and points criterion is up to date. */
  ghost predicate AllCounted(env: Env, s: State)
    requires env.store.Valid()
  {
    && (forall c :: Eligible(env, c, TYPE_COMPLETE_ACHIEVEMENT) ==> LinkCounted(env, s, c))
    && (forall c :: Eligible(env, c, TYPE_EARN_ACHIEVEMENT_POINTS) ==> PointsCounted(env, s, c))
  }

  /** Entering a complete achievement and then bringing every link and points criterion up to
      date keeps everything. */
  lemma EnteredKeeps(env: Env, s: State, a: Achievement, t: State)
    requires env.store.Valid() && env.store.Has(a) && a.id !in s.completed && IsCompletedAchievement(env, s, a)
    requires Keeps(env, Enter(env, s, a), t) && AllCounted(env, t)
    ensures Keeps(env, s, t)
  {
    hide KeepsTotals, KeepsAchievements, IsCompletedCriteria, FactionAllows, PointsCounted, LinkCounted;
    EnterTotals(env, s, a);
    KeepsTotalsTransitive(env, s, Enter(env, s, a), t);
    EnterAchievements(env, s, a);
    KeepsAchievementsTransitive(env, s, Enter(env, s, a), t);
  }

  lemma CompleteIsNoCounter(env: Env, s: State, a: Achievement)
    requires env.store.Valid() && IsCompletedAchievement(env, s, a)
    ensures !a.counter
  {
  }

  lemma {:induction false} CompletedAchievementKeeps(env: Env, s: State, a: Achievement)
    requires env.store.Valid() && env.store.Has(a)
    requires IsCompletedAchievement(env, s, a)
    ensures var t := CompletedAchievement(env, s, a); Keeps(env, s, t) && a.id in t.completed
    decreases 0, Open(env, s), 1, 0
  {
    hide Keeps, Open, IsCompletedAchievement, AllCounted, NestedUpdates;
    CompleteIsNoCounter(env, s, a);
    KeepsReflexive(env, s);
    if a.id !in s.completed {
      var s1 := Enter(env, s, a);
      OpenDrops(env, s, s1, a.id);
      NestedUpdatesKeep(env, s1);
      EnteredKeeps(env, s, a, NestedUpdates(env, s1));
    }
  }

  lemma {:induction false} NestedUpdatesKeep(env: Env, s: State)
    requires env.store.Valid()
    ensures var t := NestedUpdates(env, s); Keeps(env, s, t) && AllCounted(env, t)
    decreases 0, Open(env, s), 8, 0
  {
    hide Keeps, Open, LinkCounted, PointsCounted, FactionAllows, UpdateList;
    var links := env.store.CriteriaByType(TYPE_COMPLETE_ACHIEVEMENT);
    var s1 := UpdateList(env, s, links, CompleteAchievementUpdate);
    UpdateListKeeps(env, s, links, CompleteAchievementUpdate);
    OpenShrinks(env, s, s1);
    var earners := env.store.CriteriaByType(TYPE_EARN_ACHIEVEMENT_POINTS);
    var t := UpdateList(env, s1, earners, EarnPointsUpdate);
    UpdateListKeeps(env, s1, earners, EarnPointsUpdate);
    KeepsTransitive(env, s, s1, t);
    forall c | Eligible(env, c, TYPE_COMPLETE_ACHIEVEMENT)
      ensures LinkCounted(env, t, c)
    {
      assert c in links;
      KeepsCounted(env, s1, t, c);
    }
    assert forall c :: Eligible(env, c, TYPE_EARN_ACHIEVEMENT_POINTS) ==> c in earners;
  }

  lemma {:induction false} CheckReferencesKeeps(env: Env, s: State, list: seq<Achievement>)
    requires env.store.Valid()
    requires forall a :: a in list ==> env.store.Has(a)
    ensures var t := CheckReferences(env, s, list);
      Keeps(env, s, t) && (ReferencesReport(env.store) ==> forall a :: a in list ==> Settled(env, t, a))
    decreases 0, Open(env, s), 2, |list|
  {
    hide Keeps, Open, IsCompletedAchievement, CompletedAchievement;
    KeepsReflexive(env, s);
    if list != [] {
      var a := list[0];
      var s1 := if IsCompletedAchievement(env, s, a) then CompletedAchievement(env, s, a) else s;
      if IsCompletedAchievement(env, s, a) { CompletedAchievementKeeps(env, s, a); }
      OpenShrinks(env, s, s1);
      var t := CheckReferences(env, s1, list[1..]);
      CheckReferencesKeeps(env, s1, list[1..]);
      KeepsTransitive(env, s, s1, t);
      if ReferencesReport(env.store) { KeepsSettled(env, s1, t, a); }
      assert forall b :: b in list ==> b == a || b in list[1..];
    }
  }

  lemma {:induction false} CompletedCriteriaForKeeps(env: Env, s: State, a: Achievement)
    requires env.store.Valid() && env.store.Has(a)
    ensures var t := CompletedCriteriaFor(env, s, a); Keeps(env, s, t) && (!a.counter ==> Settled(env, t, a))
    decreases 0, Open(env, s), 2, 0
  {
    hide Keeps, Open, IsCompletedAchievement, CompletedAchievement;
    KeepsReflexive(env, s);
    if !a.counter && a.id !in s.completed && IsCompletedAchievement(env, s, a) {
      CompletedAchievementKeeps(env, s, a);
    }
  }

  /** The SUMM recheck of the criterion's own achievement. */
  lemma {:induction false} SummRecheckKeeps(env: Env, s: State, a: Achievement)
    requires env.store.Valid() && env.store.Has(a)
    ensures var t := if a.summ && IsCompletedAchievement(env, s, a) then CompletedAchievement(env, s, a) else s;
      Keeps(env, s, t) && (a.summ ==> Settled(env, t, a))
    decreases 0, Open(env, s), 2, 0
  {
    hide Keeps, Open, IsCompletedAchievement, CompletedAchievement;
    KeepsReflexive(env, s);
    if a.summ && IsCompletedAchievement(env, s, a) { CompletedAchievementKeeps(env, s, a); }
  }

  lemma {:induction false} AfterRaiseKeeps(env: Env, s: State, c: Criterion)
    requires env.store.Valid() && env.store.HasCriterion(c)
    ensures var t := AfterRaise(env, s, c);
      && Keeps(env, s, t)
      && (ReferencesReport(env.store) ==> forall a ::
            env.store.Has(a) && !a.counter && TestId(a) == c.referred
            && (a.summ || IsCompletedCriteria(env, s, c, a)) ==>
              Settled(env, t, a))
    decreases 0, Open(env, s), 3, 0
  {
    hide Keeps, Open, IsCompletedAchievement, CompletedCriteriaFor, CompletedAchievement, CheckReferences;
    KeepsReflexive(env, s);
    var a := env.store.Owner(c);
    var done := IsCompletedCriteria(env, s, c, a);
    var s1 := if done then CompletedCriteriaFor(env, s, a) else s;
    if done { CompletedCriteriaForKeeps(env, s, a); }
    OpenShrinks(env, s, s1);
    var s2 := if a.summ && IsCompletedAchievement(env, s1, a) then CompletedAchievement(env, s1, a) else s1;
    SummRecheckKeeps(env, s1, a);
    OpenShrinks(env, s1, s2);
    var t := CheckReferences(env, s2, env.store.References(a.id));
    CheckReferencesKeeps(env, s2, env.store.References(a.id));
    KeepsTransitive(env, s, s1, s2);
    KeepsTransitive(env, s, s2, t);
    if ReferencesReport(env.store) && !a.counter && (a.summ || done) {
      if !a.summ { KeepsSettled(env, s1, s2, a); }
      KeepsSettled(env, s2, t, a);
    }
    forall b |
      ReferencesReport(env.store) && env.store.Has(b) && !b.counter && TestId(b) == c.referred
      && (b.summ || IsCompletedCriteria(env, s, c, b))
      ensures Settled(env, t, b)
    {
      assert b.refAchievement == 0 ==> b == a;
      assert b.refAchievement != 0 ==> b in env.store.References(a.id);
    }
  }

  /** Once the cascade from a raised counter has kept everything and settled the achievements
      that counter may have completed, the whole step has kept everything. */
  lemma RecordedKeeps(env: Env, s: State, c: Criterion, value: nat, t: State)
    requires env.store.Valid() && env.store.HasCriterion(c)
    requires Counter(s, c) < value <= MaxCounter(c, env.store.Owner(c))
    requires Keeps(env, Record(env, s, c, value), t)
    requires ReferencesReport(env.store) ==> forall a ::
      env.store.Has(a) && !a.counter && TestId(a) == c.referred
      && (a.summ || IsCompletedCriteria(env, Record(env, s, c, value), c, a)) ==>
        Settled(env, t, a)
    ensures Keeps(env, s, t)
  {
    hide KeepsTotals, KeepsCriteria, KeepsAchievements, IsCompletedCriteria, Record;
    assert Grows(s, t) by { RecordGrows(env, s, c, value); }
    RecordTotals(env, s, c, value);
    KeepsTotalsTransitive(env, s, Record(env, s, c, value), t);
    RecordCriteria(env, s, c, value);
    KeepsCriteriaTransitive(env, s, Record(env, s, c, value), t);
    RecordedAchievements(env, s, c, value, t);
  }

  lemma RecordedAchievements(env: Env, s: State, c: Criterion, value: nat, t: State)
    requires env.store.Valid() && env.store.HasCriterion(c)
    requires Counter(s, c) < value
    requires Grows(Record(env, s, c, value), t) && KeepsAchievements(env, Record(env, s, c, value), t)
    requires ReferencesReport(env.store) ==> forall a ::
      env.store.Has(a) && !a.counter && TestId(a) == c.referred
      && (a.summ || IsCompletedCriteria(env, Record(env, s, c, value), c, a)) ==>
        Settled(env, t, a)
    ensures KeepsAchievements(env, s, t)
  {
    var r := Record(env, s, c, value);
    forall a | ReferencesReport(env.store) && env.store.Has(a) && Settled(env, s, a)
      ensures Settled(env, t, a)
    {
      if !Settled(env, r, a) { RecordUnsettles(env, s, c, value, a); }
    }
    forall a | env.store.Has(a) && Sound(env, s, a) && Fits(env, t, a)
      ensures Sound(env, t, a)
    {
      FitsMonotone(env, r, t, a);
      RecordSound(env, s, c, value, a);
    }
  }

  /** A raised counter keeps everything, and so does the rest of the step after its record. */
  lemma {:induction false} RaiseKeeps(env: Env, s: State, c: Criterion, value: nat)
    requires env.store.Valid() && env.store.HasCriterion(c)
    requires Counter(s, c) < value <= MaxCounter(c, env.store.Owner(c))
    ensures var r := Record(env, s, c, value); var t := AfterChange(env, r, c, Counter(s, c), value);
      Keeps(env, s, t) && Keeps(env, r, t)
    decreases 0, Open(env, s), 4, 0
  {
    hide Keeps, Open, IsCompletedAchievement, IsCompletedCriteria, AfterRaise;
    var r := Record(env, s, c, value);
    var owner := env.store.Owner(c);
    OpenShrinks(env, s, r);
    KeepsReflexive(env, r);
    if !(owner.counter && !owner.summ) {
      AfterRaiseKeeps(env, r, c);
    } else if ReferencesReport(env.store) {
      PlainCounterJudgesItself(env, owner);
    }
    RecordedKeeps(env, s, c, value, AfterChange(env, r, c, Counter(s, c), value));
  }

  lemma PlainCounterJudgesItself(env: Env, owner: Achievement)
    requires env.store.Valid() && ReferencesReport(env.store) && env.store.Has(owner)
    requires owner.counter && !owner.summ
    ensures forall a :: env.store.Has(a) && TestId(a) == owner.id ==> a.counter
  {
  }

  lemma {:induction false} SetCriteriaProgressKeeps(env: Env, s: State, c: Criterion, change: nat, ptype: ProgressType)
    requires env.store.Valid() && env.store.HasCriterion(c)
    requires ptype == ProgressSet ==> !Lowers(env, s, c, change, ptype)
    requires ptype == ProgressAccumulate ==> Counter(s, c) <= MaxCounter(c, env.store.Owner(c))
    ensures var t := SetCriteriaProgress(env, s, c, change, ptype);
      && Keeps(env, s, t)
      && (ptype == ProgressHighest && !c.ExplicitTimer() ==>
          Counter(t, c) >= Min(change, MaxCounter(c, env.store.Owner(c))))
      && (ptype == ProgressHighest && change == s.points && Eligible(env, c, TYPE_EARN_ACHIEVEMENT_POINTS) ==>
            PointsCounted(env, t, c))
    decreases 0, Open(env, s), 5, 0
  {
    hide Keeps, Open, IsCompletedAchievement, LinkCounted, AfterChange;
    KeepsReflexive(env, s);
    var max := MaxCounter(c, env.store.Owner(c));
    var value := Min(change, max);
    var t := SetCriteriaProgress(env, s, c, change, ptype);
    if c.id !in s.progress {
      if value != 0 && !c.ExplicitTimer() {
        RaiseKeeps(env, s, c, value);
        KeepsCounted(env, Record(env, s, c, value), t, c);
      }
    } else {
      var before := s.progress[c.id].counter;
      var after := NewValue(before, value, max, ptype);
      if before < after {
        RaiseKeeps(env, s, c, after);
        KeepsCounted(env, Record(env, s, c, after), t, c);
      }
    }
  }

  lemma {:induction false} UpdateOneKeeps(env: Env, s: State, c: Criterion, u: Update)
    requires env.store.Valid() && env.store.HasCriterion(c)
    requires c.requiredType == u.Type() && NeverSets(u) && (u.OtherUpdate? ==> Bounded(env, s))
    ensures var t := UpdateOne(env, s, c, u);
      && Keeps(env, s, t)
      && (u.CompleteAchievementUpdate? && Eligible(env, c, TYPE_COMPLETE_ACHIEVEMENT) ==> LinkCounted(env, t, c))
      && (u.EarnPointsUpdate? && Eligible(env, c, TYPE_EARN_ACHIEVEMENT_POINTS) ==> PointsCounted(env, t, c))
    decreases 0, Open(env, s), 6, 0
  {
    hide Keeps, Open, IsCompletedAchievement, SetCriteriaProgress;
    KeepsReflexive(env, s);
    var a := env.store.Owner(c);
    if FactionAllows(env, a) && !IsCompletedCriteria(env, s, c, a) {
      match Decide(s, c, u)
      case Skip =>
      case Change(value, ptype) => SetCriteriaProgressKeeps(env, s, c, value, ptype);
    }
  }

  lemma {:induction false} UpdateListKeeps(env: Env, s: State, list: seq<Criterion>, u: Update)
    requires env.store.Valid()
    requires forall c :: c in list ==> env.store.HasCriterion(c) && c.requiredType == u.Type()
    requires NeverSets(u) && (u.OtherUpdate? ==> Bounded(env, s))
    ensures var t := UpdateList(env, s, list, u);
      && Keeps(env, s, t)
      && (u.CompleteAchievementUpdate? ==>
            forall c :: c in list && Eligible(env, c, TYPE_COMPLETE_ACHIEVEMENT) ==> LinkCounted(env, t, c))
      && (u.EarnPointsUpdate? ==>
            forall c :: c in list && Eligible(env, c, TYPE_EARN_ACHIEVEMENT_POINTS) ==> PointsCounted(env, t, c))
    decreases if u.OtherUpdate? then 1 else 0, if u.OtherUpdate? then |list| else Open(env, s), 7, |list|
  {
    hide Keeps, Open, IsCompletedAchievement, LinkCounted, PointsCounted, Bounded, UpdateOne;
    KeepsReflexive(env, s);
    if list != [] {
      var c := list[0];
      var s1 := UpdateOne(env, s, c, u);
      UpdateOneKeeps(env, s, c, u);
      KeepsCounted(env, s, s1, c);
      if !u.OtherUpdate? { OpenShrinks(env, s, s1); }
      var t := UpdateList(env, s1, list[1..], u);
      UpdateListKeeps(env, s1, list[1..], u);
      KeepsTransitive(env, s, s1, t);
      KeepsCounted(env, s1, t, c);
      assert forall b :: b in list ==> b == c || b in list[1..];
    }
  }
}
