/** Why a meta or points criterion counts: only because its achievement is held, and only as far as
    the points of the held achievements go. */
module AchievementCause {
  import opened AchievementStore
  import opened AchievementEngine
  import opened AchievementFixpoint
  import opened AchievementCascade
  import opened AchievementLowering
  import opened AchievementPersistence
  import opened AchievementRestart
  import opened AchievementRuns

  ghost function HeldPoints(env: Env, s: State): nat
    requires s.completed.Keys <= env.store.achievements.Keys
  {
    SumPoints(env.store, s.completed.Keys)
  }

  /** Points are the sum, a started meta criterion has its achievement held, and no points
      criterion is ahead of the points. */
  ghost predicate LinksTrue(env: Env, s: State) {
    && PointsAreSum(env, s)
    && (forall c :: env.store.HasCriterion(c) && c.requiredType == TYPE_COMPLETE_ACHIEVEMENT && Counter(s, c) >= 1 ==>
        c.value in s.completed)
    && (forall c :: env.store.HasCriterion(c) && c.requiredType == TYPE_EARN_ACHIEVEMENT_POINTS ==>
        Counter(s, c) <= HeldPoints(env, s))
  }

  /** A value for criterion `c` that its cause bears out. */
  ghost predicate Founded(env: Env, s: State, c: Criterion, value: nat) {
    && s.completed.Keys <= env.store.achievements.Keys
    && (c.requiredType == TYPE_COMPLETE_ACHIEVEMENT && value >= 1 ==> c.value in s.completed)
    && (c.requiredType == TYPE_EARN_ACHIEVEMENT_POINTS ==> value <= HeldPoints(env, s))
  }

  lemma RecordTrue(env: Env, s: State, c: Criterion, value: nat)
    requires env.store.Valid() && env.store.HasCriterion(c) && LinksTrue(env, s) && Founded(env, s, c, value)
    ensures LinksTrue(env, Record(env, s, c, value))
  {
    RecordOthers(env, s, c, value);
    RecordLeaves(env, s, c, value);
    hide PointsAreSum;
    var t := Record(env, s, c, value);
    assert t.completed == s.completed && Counter(t, c) == value;
    hide Record;
  }

  lemma EnterTrue(env: Env, s: State, a: Achievement)
    requires env.store.Valid() && env.store.Has(a) && a.id !in s.completed && LinksTrue(env, s)
    ensures LinksTrue(env, Enter(env, s, a))
  {
    EnterPoints(env, s, a);
    var t := Enter(env, s, a);
    assert t.completed.Keys == s.completed.Keys + {a.id};
    SumPointsRemove(env.store, t.completed.Keys, a.id);
    assert t.completed.Keys - {a.id} == s.completed.Keys;
    assert forall c: Criterion :: Counter(t, c) == Counter(s, c);
  }

  // ----- the calls -----

  lemma {:induction false} CompletedTrue(env: Env, s: State, a: Achievement)
    requires env.store.Valid() && env.store.Has(a) && LinksTrue(env, s)
    ensures LinksTrue(env, CompletedAchievement(env, s, a))
    decreases 0, Open(env, s), 1, 0
  {
    hide LinksTrue, Open, NestedUpdates;
    if !(a.counter || a.id in s.completed) {
      OpenDrops(env, s, Enter(env, s, a), a.id);
      EnterTrue(env, s, a);
      NestedTrue(env, Enter(env, s, a));
    }
  }

  lemma {:induction false} NestedTrue(env: Env, s: State)
    requires env.store.Valid() && LinksTrue(env, s)
    ensures LinksTrue(env, NestedUpdates(env, s))
    decreases 0, Open(env, s), 8, 0
  {
    hide LinksTrue, Open, UpdateList;
    var links := env.store.CriteriaByType(TYPE_COMPLETE_ACHIEVEMENT);
    var s1 := UpdateList(env, s, links, CompleteAchievementUpdate);
    ListTrue(env, s, links, CompleteAchievementUpdate);
    OpenShrinks(env, s, s1);
    ListTrue(env, s1, env.store.CriteriaByType(TYPE_EARN_ACHIEVEMENT_POINTS), EarnPointsUpdate);
  }

  lemma {:induction false} ListTrue(env: Env, s: State, list: seq<Criterion>, u: Update)
    requires env.store.Valid() && LinksTrue(env, s) && !u.OtherUpdate?
    requires forall c :: c in list ==> env.store.HasCriterion(c) && c.requiredType == u.Type()
    ensures LinksTrue(env, UpdateList(env, s, list, u))
    decreases 0, Open(env, s), 7, |list|
  {
    hide LinksTrue, Open, UpdateOne;
    if list != [] {
      var c := list[0];
      assert c in list && forall d :: d in list[1..] ==> d in list;
      var s1 := UpdateOne(env, s, c, u);
      OneTrue(env, s, c, u);
      OpenShrinks(env, s, s1);
      ListTrue(env, s1, list[1..], u);
    }
  }

  lemma {:induction false} OneTrue(env: Env, s: State, c: Criterion, u: Update)
    requires env.store.Valid() && LinksTrue(env, s) && !u.OtherUpdate?
    requires env.store.HasCriterion(c) && c.requiredType == u.Type()
    ensures LinksTrue(env, UpdateOne(env, s, c, u))
    decreases 0, Open(env, s), 6, 0
  {
    DecisionFounded(env, s, c, u);
    hide LinksTrue, Open, SetCriteriaProgress, Founded, IsCompletedCriteria, FactionAllows;
    if Decide(s, c, u).Change? { SetTrue(env, s, c, Decide(s, c, u).value, ProgressHighest); }
  }

  lemma DecisionFounded(env: Env, s: State, c: Criterion, u: Update)
    requires env.store.Valid() && LinksTrue(env, s) && !u.OtherUpdate? && c.requiredType == u.Type()
    ensures Decide(s, c, u).Change? ==>
      Decide(s, c, u).ptype == ProgressHighest && Founded(env, s, c, Decide(s, c, u).value)
  {
  }

  lemma CounterFounded(env: Env, s: State, c: Criterion)
    requires env.store.Valid() && LinksTrue(env, s) && env.store.HasCriterion(c)
    ensures Founded(env, s, c, Counter(s, c))
  {
  }

  lemma FoundedBelow(env: Env, s: State, c: Criterion, x: nat, y: nat)
    requires Founded(env, s, c, x) && y <= x
    ensures Founded(env, s, c, y)
  {
  }

  lemma OrdinaryFounded(env: Env, s: State, c: Criterion, value: nat)
    requires LinksTrue(env, s)
    requires c.requiredType != TYPE_COMPLETE_ACHIEVEMENT && c.requiredType != TYPE_EARN_ACHIEVEMENT_POINTS
    ensures Founded(env, s, c, value)
  {
  }

  /** A call that does not lower its counter, with a founded value where it matters. */
  lemma {:induction false} SetTrue(env: Env, s: State, c: Criterion, change: nat, ptype: ProgressType)
    requires env.store.Valid() && LinksTrue(env, s) && env.store.HasCriterion(c)
    requires ptype == ProgressHighest || !Lowers(env, s, c, change, ptype)
    requires if ptype == ProgressHighest then Founded(env, s, c, change)
             else c.requiredType != TYPE_COMPLETE_ACHIEVEMENT && c.requiredType != TYPE_EARN_ACHIEVEMENT_POINTS
    ensures LinksTrue(env, SetCriteriaProgress(env, s, c, change, ptype))
    decreases 0, Open(env, s), 5, 0
  {
    hide LinksTrue, Open, AfterChange, Founded;
    var max := MaxCounter(c, env.store.Owner(c));
    var value := Min(change, max);
    var after := if c.id in s.progress then NewValue(s.progress[c.id].counter, value, max, ptype) else value;
    if ptype == ProgressHighest {
      CounterFounded(env, s, c);
      FoundedBelow(env, s, c, change, value);
    } else {
      OrdinaryFounded(env, s, c, after);
    }
    if c.id in s.progress || (value != 0 && !c.ExplicitTimer()) {
      if after != Counter(s, c) {
        var r := Record(env, s, c, after);
        RecordTrue(env, s, c, after);
        OpenShrinks(env, s, r);
        ChangeTrue(env, r, c, Counter(s, c), after);
      }
    }
  }

  lemma {:induction false} ChangeTrue(env: Env, s: State, c: Criterion, before: nat, after: nat)
    requires env.store.Valid() && LinksTrue(env, s) && env.store.HasCriterion(c) && before < after
    ensures LinksTrue(env, AfterChange(env, s, c, before, after))
    decreases 0, Open(env, s), 4, 0
  {
    hide LinksTrue, Open, AfterRaise;
    RaiseTrue(env, s, c);
  }

  lemma {:induction false} RaiseTrue(env: Env, s: State, c: Criterion)
    requires env.store.Valid() && LinksTrue(env, s) && env.store.HasCriterion(c)
    ensures LinksTrue(env, AfterRaise(env, s, c))
    decreases 0, Open(env, s), 3, 0
  {
    hide LinksTrue, Open, IsCompletedAchievement, CompletedCriteriaFor, CompletedAchievement, CheckReferences;
    var a := env.store.Owner(c);
    var s1 := if IsCompletedCriteria(env, s, c, a) then CompletedCriteriaFor(env, s, a) else s;
    CriteriaForTrue(env, s, a);
    OpenShrinks(env, s, s1);
    var s2 := if a.summ && IsCompletedAchievement(env, s1, a) then CompletedAchievement(env, s1, a) else s1;
    CompletedTrue(env, s1, a);
    OpenShrinks(env, s1, s2);
    ReferencesTrue(env, s2, env.store.References(a.id));
  }

  lemma {:induction false} CriteriaForTrue(env: Env, s: State, a: Achievement)
    requires env.store.Valid() && env.store.Has(a) && LinksTrue(env, s)
    ensures LinksTrue(env, CompletedCriteriaFor(env, s, a))
    decreases 0, Open(env, s), 2, 0
  {
    hide LinksTrue, Open, IsCompletedAchievement, CompletedAchievement;
    CompletedTrue(env, s, a);
  }

  lemma {:induction false} ReferencesTrue(env: Env, s: State, list: seq<Achievement>)
    requires env.store.Valid() && LinksTrue(env, s) && forall a :: a in list ==> env.store.Has(a)
    ensures LinksTrue(env, CheckReferences(env, s, list))
    decreases 0, Open(env, s), 2, |list|
  {
    hide LinksTrue, Open, IsCompletedAchievement, CompletedAchievement;
    if list != [] {
      var a := list[0];
      assert a in list;
      var s1 := if IsCompletedAchievement(env, s, a) then CompletedAchievement(env, s, a) else s;
      CompletedTrue(env, s, a);
      OpenShrinks(env, s, s1);
      ReferencesTrue(env, s1, list[1..]);
    }
  }

  // ----- updates and runs -----

  lemma {:induction false} OtherTrue(env: Env, s: State, list: seq<Criterion>, u: Update)
    requires env.store.Valid() && LinksTrue(env, s) && Consistent(env, s, false)
    requires u.OtherUpdate? && WellFormed(u) && NeverSets(u)
    requires forall c :: c in list ==> env.store.HasCriterion(c) && c.requiredType == u.requiredType
    ensures LinksTrue(env, UpdateList(env, s, list, u))
    decreases |list|
  {
    hide LinksTrue, Consistent, SetCriteriaProgress, NeverSets;
    if list != [] {
      var c := list[0];
      assert c in list && forall d :: d in list[1..] ==> d in list;
      var d := Decide(s, c, u);
      if d.Change? {
        NoLowering(env, s, c, u);
        OrdinaryFounded(env, s, c, d.value);
        SetTrue(env, s, c, d.value, d.ptype);
        SetConsistent(env, false, s, c, d.value, d.ptype);
      }
      OtherTrue(env, UpdateOne(env, s, c, u), list[1..], u);
    }
  }

  lemma NoLowering(env: Env, s: State, c: Criterion, u: Update)
    requires env.store.Valid() && env.store.HasCriterion(c) && Consistent(env, s, false)
    requires u.OtherUpdate? && NeverSets(u) && Decide(s, c, u).Change?
    ensures !Lowers(env, s, c, Decide(s, c, u).value, Decide(s, c, u).ptype)
  {
    var a := env.store.Owner(c);
    assert Counter(s, c) <= MaxCounter(c, a);
    if c.id in s.progress {
      AccumulateSaturates(s.progress[c.id].counter, Min(Decide(s, c, u).value, MaxCounter(c, a)), MaxCounter(c, a));
    }
  }

  lemma {:induction false} RaisingFaithful(store: Store, horde: bool, events: seq<Event>)
    requires store.Valid() && forall i :: 0 <= i < |events| ==> Raising(events[i])
    ensures Faithful(store, horde, events)
  {
    hide Run;
    if events != [] { RaisingFaithful(store, horde, events[..|events| - 1]); }
  }

  lemma SaveTrue(env: Env, s: State)
    requires env.store.Valid() && LinksTrue(env, s) && Consistent(env, s, false)
    ensures LinksTrue(env, SaveToDB(env.store, s))
  {
    var t := SaveToDB(env.store, s);
    SaveKeepsCounters(env, s);
    assert t.completed.Keys == s.completed.Keys && t.points == s.points;
    hide SaveToDB, Consistent;
  }

  lemma StepTrue(env: Env, s: State, e: Event)
    requires env.store.Valid() && env == At(env.store, env.horde, e) && Raising(e)
    requires LinksTrue(env, s) && Consistent(env, s, false)
    ensures LinksTrue(env, Step(env.store, env.horde, s, e))
  {
    hide LinksTrue, Consistent, UpdateList, NeverSets, SaveToDB;
    match e.action
    case UpdateAction(u) =>
      if u.OtherUpdate? {
        OtherTrue(env, s, env.store.CriteriaByType(u.Type()), u);
      } else {
        ListTrue(env, s, env.store.CriteriaByType(u.Type()), u);
      }
    case SaveAction => SaveTrue(env, s);
  }

  lemma {:induction false} RunTrue(store: Store, horde: bool, events: seq<Event>, env: Env)
    requires store.Valid() && env.store == store && forall i :: 0 <= i < |events| ==> Raising(events[i])
    ensures LinksTrue(env, Run(store, horde, events))
  {
    hide Step, Consistent, Raising;
    if events == [] {
      EmptyPoints(env);
    } else {
      var e := events[|events| - 1];
      var before := events[..|events| - 1];
      RunTrue(store, horde, before, At(store, horde, e));
      RaisingFaithful(store, horde, before);
      RunConsistent(store, horde, before, At(store, horde, e));
      WeakerConsistent(At(store, horde, e), Run(store, horde, before), NeverReset(before));
      StepTrue(At(store, horde, e), Run(store, horde, before), e);
    }
  }

  /** Over every run of updates without outright sets: a meta criterion of the player counts if and
      only if its achievement is held, and a points criterion counts the points of the held
      achievements up to its goal, as long as they fit a uint32. */
  lemma MetaExact(store: Store, horde: bool, events: seq<Event>, env: Env, c: Criterion)
    requires store.Valid() && ReferencesReport(store)
    requires RealmGrows(events) && forall i :: 0 <= i < |events| ==> Raising(events[i])
    requires env.store == store && env.horde == horde
    requires events != [] ==> events[|events| - 1].realmTaken <= env.realmTaken
    ensures var s := Run(store, horde, events);
      && s.completed.Keys <= store.achievements.Keys
      && (Eligible(env, c, 8) ==> (Counter(s, c) >= 1 <==> c.value in s.completed))
      && (Eligible(env, c, 115) && !store.Owner(c).reqCount && SumPoints(store, s.completed.Keys) < UINT32_SIZE ==>
            Counter(s, c) == Min(SumPoints(store, s.completed.Keys),
                if store.Owner(c).counter then UINT32_MAX else 9000))
  {
    hide Run, LinksTrue, Covered, Eligible;
    RunTrue(store, horde, events, env);
    RunCovered(store, horde, events, env);
    MetaLink(env, Run(store, horde, events), c);
    MetaPoints(env, Run(store, horde, events), c);
  }

  lemma MetaLink(env: Env, s: State, c: Criterion)
    requires env.store.Valid() && LinksTrue(env, s) && Covered(env, s)
    ensures s.completed.Keys <= env.store.achievements.Keys
    ensures Eligible(env, c, 8) ==> (Counter(s, c) >= 1 <==> c.value in s.completed)
  {
    hide IsCompletedAchievement, FactionAllows;
    if Eligible(env, c, 8) { assert LinkCounted(env, s, c); }
  }

  lemma MetaPoints(env: Env, s: State, c: Criterion)
    requires env.store.Valid() && LinksTrue(env, s) && Covered(env, s)
    ensures Eligible(env, c, 115) && !env.store.Owner(c).reqCount && HeldPoints(env, s) < UINT32_SIZE ==>
      Counter(s, c) == Min(HeldPoints(env, s), if env.store.Owner(c).counter then UINT32_MAX else 9000)
  {
    hide IsCompletedAchievement, FactionAllows;
    if Eligible(env, c, 115) {
      assert PointsCounted(env, s, c) && Counter(s, c) <= MaxCounter(c, env.store.Owner(c));
    }
  }
}
