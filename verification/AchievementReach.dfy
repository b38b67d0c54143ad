/** Which achievements a call can enter at all: only those that the raised criterion is looked up
    for, or that a nested update reaches.  Everything else stays as it was, as do timers without a
    record. */
module AchievementReach {
  import opened AchievementStore
  import opened AchievementEngine
  import opened AchievementFixpoint
  import opened AchievementPersistence
  import opened AchievementLowering
  import opened AchievementRestart
  import opened AchievementRuns

  /** A change of this criterion is passed on: its achievement is no plain counter. */
  predicate Reports(store: Store, c: Criterion)
    requires store.Valid() && store.HasCriterion(c)
  {
    var owner := store.Owner(c);
    !owner.counter || owner.summ
  }

  /** A change of `c` is never checked against achievement `id`. */
  predicate Aside(store: Store, c: Criterion, id: nat)
    requires store.Valid() && store.HasCriterion(c)
  {
    Reports(store, c) ==>
      c.referred != id && (id in store.achievements ==>
          store.achievements[id].refAchievement != c.referred || c.referred == 0)
  }

  predicate Nested(c: Criterion) {
    c.requiredType == TYPE_COMPLETE_ACHIEVEMENT || c.requiredType == TYPE_EARN_ACHIEVEMENT_POINTS
  }

  ghost predicate Asides(store: Store, ids: set<nat>, c: Criterion)
    requires store.Valid()
  {
    store.HasCriterion(c) && forall id :: id in ids ==> Aside(store, c, id)
  }

  /** Writing `c` touches neither the achievements `ids` nor the counters `fixed`. */
  ghost predicate Spares(store: Store, ids: set<nat>, fixed: set<nat>, c: Criterion)
    requires store.Valid()
  {
    Asides(store, ids, c) && c.id !in fixed
  }

  /** Nor do the nested updates. */
  ghost predicate Secluded(store: Store, ids: set<nat>, fixed: set<nat>)
    requires store.Valid()
  {
    forall c :: store.HasCriterion(c) && Nested(c) ==> Spares(store, ids, fixed, c)
  }

  /** No record is lost, no explicit timer gets one, and a timer without a record runs on. */
  ghost predicate TimersStay(store: Store, s: State, t: State) {
    && s.progress.Keys <= t.progress.Keys && s.failTimes.Keys <= t.failTimes.Keys
    && (forall id :: id in store.criteria && store.criteria[id].ExplicitTimer() && id in t.progress ==>
        id in s.progress)
    && (forall id :: id in t.failTimes && id !in t.progress ==> id in s.failTimes && t.failTimes[id] == s.failTimes[id])
  }

  /** Record and timer of criterion `id` are the same. */
  predicate SameCounter(s: State, t: State, id: nat) {
    && (id in t.progress <==> id in s.progress) && (id in s.progress ==> t.progress[id] == s.progress[id])
    && (id in t.failTimes <==> id in s.failTimes) && (id in s.failTimes ==> t.failTimes[id] == s.failTimes[id])
  }

  /** An entry of `t` was there before, or is new: dated now and not yet saved. */
  predicate Dated(env: Env, s: State, t: State) {
    forall id :: id in t.completed ==>
      (id in s.completed && t.completed[id] == s.completed[id]) || t.completed[id] == Completion(env.now, true)
  }

  ghost predicate Leaves(env: Env, ids: set<nat>, fixed: set<nat>, s: State, t: State) {
    && TimersStay(env.store, s, t) && Dated(env, s, t)
    && (forall id :: id in ids ==> (id in t.completed <==> id in s.completed))
    && (forall id :: id in fixed ==> SameCounter(s, t, id))
  }

  lemma LeavesTwice(env: Env, ids: set<nat>, fixed: set<nat>, s: State, t: State, u: State)
    ensures Leaves(env, ids, fixed, s, s)
    ensures Leaves(env, ids, fixed, s, t) && Leaves(env, ids, fixed, t, u) ==> Leaves(env, ids, fixed, s, u)
  {
  }

  // ----- the calls -----

  lemma RecordLeavesTimers(env: Env, ids: set<nat>, fixed: set<nat>, s: State, c: Criterion, value: nat)
    requires env.store.HasCriterion(c) && c.id !in fixed && (c.id in s.progress || !c.ExplicitTimer())
    ensures Leaves(env, ids, fixed, s, Record(env, s, c, value))
  {
  }

  lemma EnterLeaves(env: Env, ids: set<nat>, fixed: set<nat>, s: State, a: Achievement)
    requires a.id !in ids
    ensures Leaves(env, ids, fixed, s, Enter(env, s, a))
  {
  }

  lemma {:induction false} CompletedLeaves(env: Env, ids: set<nat>, fixed: set<nat>, s: State, a: Achievement)
    requires env.store.Valid() && Secluded(env.store, ids, fixed) && env.store.Has(a) && a.id !in ids
    ensures Leaves(env, ids, fixed, s, CompletedAchievement(env, s, a))
    decreases 0, Open(env, s), 1, 0
  {
    hide Leaves, Open, Secluded, NestedUpdates;
    LeavesTwice(env, ids, fixed, s, s, s);
    if !(a.counter || a.id in s.completed) {
      var s1 := Enter(env, s, a);
      OpenDrops(env, s, s1, a.id);
      EnterLeaves(env, ids, fixed, s, a);
      NestedLeave(env, ids, fixed, s1);
      LeavesTwice(env, ids, fixed, s, s1, NestedUpdates(env, s1));
    }
  }

  lemma {:induction false} NestedLeave(env: Env, ids: set<nat>, fixed: set<nat>, s: State)
    requires env.store.Valid() && Secluded(env.store, ids, fixed)
    ensures Leaves(env, ids, fixed, s, NestedUpdates(env, s))
    decreases 0, Open(env, s), 8, 0
  {
    hide Leaves, Open, UpdateList;
    var links, earners := env.store.CriteriaByType(TYPE_COMPLETE_ACHIEVEMENT),
        env.store.CriteriaByType(TYPE_EARN_ACHIEVEMENT_POINTS);
    var s1 := UpdateList(env, s, links, CompleteAchievementUpdate);
    ListLeaves(env, ids, fixed, s, links, CompleteAchievementUpdate);
    OpenShrinks(env, s, s1);
    ListLeaves(env, ids, fixed, s1, earners, EarnPointsUpdate);
    LeavesTwice(env, ids, fixed, s, s1, NestedUpdates(env, s));
  }

  lemma {:induction false} ListLeaves(env: Env, ids: set<nat>, fixed: set<nat>, s: State, list: seq<Criterion>,
      u: Update)
    requires env.store.Valid() && Secluded(env.store, ids, fixed)
    requires forall c :: c in list ==> env.store.HasCriterion(c) && Spares(env.store, ids, fixed, c)
    ensures Leaves(env, ids, fixed, s, UpdateList(env, s, list, u))
    decreases if u.OtherUpdate? then 1 else 0, if u.OtherUpdate? then |list| else Open(env, s), 7, |list|
  {
    hide Leaves, Open, Secluded, Spares, SetCriteriaProgress;
    LeavesTwice(env, ids, fixed, s, s, s);
    if list != [] {
      var c := list[0];
      assert c in list && forall d :: d in list[1..] ==> d in list;
      var s1 := UpdateOne(env, s, c, u);
      OneLeaves(env, ids, fixed, s, c, u);
      if !u.OtherUpdate? { OpenShrinks(env, s, s1); }
      ListLeaves(env, ids, fixed, s1, list[1..], u);
      LeavesTwice(env, ids, fixed, s, s1, UpdateList(env, s, list, u));
    }
  }

  lemma {:induction false} OneLeaves(env: Env, ids: set<nat>, fixed: set<nat>, s: State, c: Criterion, u: Update)
    requires env.store.Valid() && Secluded(env.store, ids, fixed)
    requires Spares(env.store, ids, fixed, c)
    ensures Leaves(env, ids, fixed, s, UpdateOne(env, s, c, u))
    decreases 0, Open(env, s), 6, 0
  {
    hide Leaves, Open, Secluded, Aside, SetCriteriaProgress;
    LeavesTwice(env, ids, fixed, s, s, s);
    var a := env.store.Owner(c);
    if FactionAllows(env, a) && !IsCompletedCriteria(env, s, c, a) && Decide(s, c, u).Change? {
      SetLeaves(env, ids, fixed, s, c, Decide(s, c, u).value, Decide(s, c, u).ptype);
    }
  }

  /** A criterion that is never checked against `ids` leaves them as they are. */
  lemma {:induction false} SetLeaves(env: Env, ids: set<nat>, fixed: set<nat>, s: State, c: Criterion, change: nat,
      ptype: ProgressType)
    requires env.store.Valid() && Secluded(env.store, ids, fixed)
    requires Spares(env.store, ids, fixed, c)
    ensures Leaves(env, ids, fixed, s, SetCriteriaProgress(env, s, c, change, ptype))
    decreases 0, Open(env, s), 5, 0
  {
    hide Leaves, Open, Secluded, Aside, AfterChange;
    LeavesTwice(env, ids, fixed, s, s, s);
    var t := SetCriteriaProgress(env, s, c, change, ptype);
    if t != s {
      var max := MaxCounter(c, env.store.Owner(c));
      var value := Min(change, max);
      var after := if c.id in s.progress then NewValue(s.progress[c.id].counter, value, max, ptype) else value;
      var r := Record(env, s, c, after);
      RecordLeavesTimers(env, ids, fixed, s, c, after);
      OpenShrinks(env, s, r);
      ChangeLeaves(env, ids, fixed, r, c, Counter(s, c), after);
      LeavesTwice(env, ids, fixed, s, r, t);
    }
  }

  lemma {:induction false} ChangeLeaves(env: Env, ids: set<nat>, fixed: set<nat>, s: State, c: Criterion, before: nat,
      after: nat)
    requires env.store.Valid() && Secluded(env.store, ids, fixed) && before != after
    requires Asides(env.store, ids, c)
    ensures Leaves(env, ids, fixed, s, AfterChange(env, s, c, before, after))
    decreases 0, Open(env, s), 4, 0
  {
    hide Leaves, Open, Secluded, AfterRaise, AfterLower;
    LeavesTwice(env, ids, fixed, s, s, s);
    if Reports(env.store, c) {
      if before < after { RaiseLeaves(env, ids, fixed, s, c); } else { LowerLeaves(env, ids, fixed, s, c); }
    }
  }

  lemma {:induction false} RaiseLeaves(env: Env, ids: set<nat>, fixed: set<nat>, s: State, c: Criterion)
    requires env.store.Valid() && Secluded(env.store, ids, fixed)
    requires Asides(env.store, ids, c) && Reports(env.store, c)
    ensures Leaves(env, ids, fixed, s, AfterRaise(env, s, c))
    decreases 0, Open(env, s), 3, 0
  {
    hide Leaves, Open, Secluded, IsCompletedAchievement, CompletedCriteriaFor, CompletedAchievement, CheckReferences;
    var a := env.store.Owner(c);
    var s1 := if IsCompletedCriteria(env, s, c, a) then CompletedCriteriaFor(env, s, a) else s;
    CriteriaForLeaves(env, ids, fixed, s, a);
    OpenShrinks(env, s, s1);
    var s2 := if a.summ && IsCompletedAchievement(env, s1, a) then CompletedAchievement(env, s1, a) else s1;
    CompletedLeaves(env, ids, fixed, s1, a);
    OpenShrinks(env, s1, s2);
    ReferencesLeave(env, ids, fixed, s2, env.store.References(a.id));
    LeavesTwice(env, ids, fixed, s, s, s);
    LeavesTwice(env, ids, fixed, s1, s1, s1);
    LeavesTwice(env, ids, fixed, s, s1, s2);
    LeavesTwice(env, ids, fixed, s, s2, AfterRaise(env, s, c));
  }

  lemma {:induction false} CriteriaForLeaves(env: Env, ids: set<nat>, fixed: set<nat>, s: State, a: Achievement)
    requires env.store.Valid() && Secluded(env.store, ids, fixed) && env.store.Has(a) && a.id !in ids
    ensures Leaves(env, ids, fixed, s, CompletedCriteriaFor(env, s, a))
    decreases 0, Open(env, s), 2, 0
  {
    hide Leaves, Open, Secluded, IsCompletedAchievement, CompletedAchievement;
    LeavesTwice(env, ids, fixed, s, s, s);
    CompletedLeaves(env, ids, fixed, s, a);
  }

  lemma {:induction false} ReferencesLeave(env: Env, ids: set<nat>, fixed: set<nat>, s: State, list: seq<Achievement>)
    requires env.store.Valid() && Secluded(env.store, ids, fixed)
    requires forall a :: a in list ==> env.store.Has(a) && a.id !in ids
    ensures Leaves(env, ids, fixed, s, CheckReferences(env, s, list))
    decreases 0, Open(env, s), 2, |list|
  {
    hide Leaves, Open, Secluded, IsCompletedAchievement, CompletedAchievement;
    LeavesTwice(env, ids, fixed, s, s, s);
    if list != [] {
      var a := list[0];
      assert a in list;
      var s1 := if IsCompletedAchievement(env, s, a) then CompletedAchievement(env, s, a) else s;
      CompletedLeaves(env, ids, fixed, s, a);
      OpenShrinks(env, s, s1);
      ReferencesLeave(env, ids, fixed, s1, list[1..]);
      LeavesTwice(env, ids, fixed, s, s1, CheckReferences(env, s, list));
    }
  }

  lemma LowerLeaves(env: Env, ids: set<nat>, fixed: set<nat>, s: State, c: Criterion)
    requires env.store.Valid() && Asides(env.store, ids, c) && Reports(env.store, c)
    ensures Leaves(env, ids, fixed, s, AfterLower(env, s, env.store.Owner(c)))
  {
    hide Leaves;
    var owner := env.store.Owner(c);
    var s1 := Recheck(env, s, [owner]);
    RecheckLeaves(env, ids, fixed, s, [owner]);
    RecheckLeaves(env, ids, fixed, s1, env.store.References(owner.id));
    LeavesTwice(env, ids, fixed, s, s1, AfterLower(env, s, owner));
  }

  lemma {:induction false} RecheckLeaves(env: Env, ids: set<nat>, fixed: set<nat>, s: State, list: seq<Achievement>)
    requires env.store.Valid() && forall a :: a in list ==> a.id !in ids
    ensures Leaves(env, ids, fixed, s, Recheck(env, s, list))
    decreases |list|
  {
    hide IsCompletedAchievement;
    if list != [] {
      var a := list[0];
      assert a in list;
      var s1 := if a.id in s.completed && !IsCompletedAchievement(env, s, a) then IncompletedAchievement(s, a) else s;
      RecheckLeaves(env, ids, fixed, s1, list[1..]);
    }
  }

  // ----- achievements that no run enters -----

  /** No criterion of the store is ever checked against `id`. */
  ghost predicate Unwatched(store: Store, id: nat)
    requires store.Valid()
  {
    forall c :: store.HasCriterion(c) ==> Spares(store, {id}, {}, c)
  }

  lemma UpdateUnwatched(env: Env, s: State, u: Update, id: nat)
    requires env.store.Valid() && Unwatched(env.store, id)
    ensures id in UpdateAchievementCriteria(env, s, u).completed <==> id in s.completed
  {
    hide UpdateList, Spares;
    ListLeaves(env, {id}, {}, s, env.store.CriteriaByType(u.Type()), u);
  }

  lemma SetUnwatched(env: Env, s: State, c: Criterion, value: nat, id: nat)
    requires env.store.Valid() && env.store.HasCriterion(c) && Unwatched(env.store, id)
    ensures id in SetCriteriaProgress(env, s, c, value, ProgressSet).completed <==> id in s.completed
  {
    hide SetCriteriaProgress, Spares;
    SetLeaves(env, {id}, {}, s, c, value, ProgressSet);
  }

  lemma {:induction false} RefillUnwatched(env: Env, s: State, updates: seq<Update>, id: nat)
    requires env.store.Valid() && Unwatched(env.store, id)
    ensures id in Refill(env, s, updates).completed <==> id in s.completed
    decreases |updates|
  {
    hide UpdateAchievementCriteria, Unwatched;
    if updates != [] {
      UpdateUnwatched(env, s, updates[0], id);
      RefillUnwatched(env, UpdateAchievementCriteria(env, s, updates[0]), updates[1..], id);
    }
  }

  lemma RestartUnwatched(env: Env, s: State, completions: seq<CompletionRow>, counters: seq<CounterRow>, id: nat)
    requires env.store.Valid() && Consistent(env, s, false) && id !in s.completed
    requires Lists(completions, s.rows) && ListsCounters(counters, s.progressRows)
    ensures id !in LoadFromDB(env, s, completions, counters).completed
  {
    assert s.rows.Keys <= s.completed.Keys && RowsBounded(env, s) && InStore(env, s);
    hide LoadFromDB, Lists, ListsCounters, Consistent;
    RestartRestores(env, s, completions, counters);
  }

  lemma StepUnwatched(store: Store, horde: bool, s: State, e: Event, id: nat)
    requires store.Valid() && Unwatched(store, id) && Consistent(At(store, horde, e), s, false) && id !in s.completed
    requires e.action.RestartAction? ==>
      Lists(e.action.completions, s.rows) && ListsCounters(e.action.counters, s.progressRows)
    ensures id !in Step(store, horde, s, e).completed
  {
    var at := At(store, horde, e);
    hide UpdateAchievementCriteria, SetCriteriaProgress, StartList, LoadFromDB, Refill, Consistent, Lists,
        ListsCounters, Unwatched;
    match e.action {
      case UpdateAction(u) => UpdateUnwatched(at, s, u, id);
      case SetAction(c, value) => if c in store.criteria { SetUnwatched(at, s, store.criteria[c], value, id); }
      case SaveAction =>
      case StartAction(t, miscId, startTime, grouped) =>
        StartLeavesHeld(at, s, store.CriteriaByType(t), miscId, startTime, grouped);
      case FailAction =>
      case ResetAction(refill) => RefillUnwatched(at, ResetState(s), refill, id);
      case RestartAction(completions, counters) => RestartUnwatched(at, s, completions, counters, id);
    }
  }

  /** In no run whatever is an achievement held that no criterion is checked against. */
  lemma {:induction false} UnwatchedNeverHeld(store: Store, horde: bool, events: seq<Event>, id: nat)
    requires store.Valid() && Unwatched(store, id) && Faithful(store, horde, events)
    ensures id !in Run(store, horde, events).completed
  {
    hide Step, Consistent, Unwatched;
    if events != [] {
      var e := events[|events| - 1];
      var before := events[..|events| - 1];
      UnwatchedNeverHeld(store, horde, before, id);
      RunConsistent(store, horde, before, At(store, horde, e));
      WeakerConsistent(At(store, horde, e), Run(store, horde, before), NeverReset(before));
      StepUnwatched(store, horde, Run(store, horde, before), e, id);
    }
  }

  // ----- borrowers of a plain counter -----

  /** `a` can be complete, but is judged by the criteria of a plain counter. */
  predicate BorrowsCounter(store: Store, a: Achievement)
    requires store.Valid()
  {
    && store.Has(a) && !a.counter && a.refAchievement != 0 && a.refAchievement in store.achievements
    && var lender := store.achievements[a.refAchievement];
       lender.counter && !lender.summ
  }

  /** Only a criterion of its own is ever checked against such an achievement. */
  lemma BorrowerWatched(store: Store, a: Achievement, c: Criterion)
    requires store.Valid() && BorrowsCounter(store, a) && store.HasCriterion(c)
    ensures Spares(store, {a.id}, {}, c) <==> c.referred != a.id
  {
    assert Spares(store, {a.id}, {}, c) <==> Aside(store, c, a.id);
  }

  /** Without a criterion of its own it is never held, complete or not, in any run of updates,
      counter changes, timers, saves, resets and restarts. */
  lemma BorrowerNeverHeld(store: Store, horde: bool, events: seq<Event>, a: Achievement)
    requires store.Valid() && BorrowsCounter(store, a) && Faithful(store, horde, events)
    requires forall c :: store.HasCriterion(c) ==> c.referred != a.id
    ensures a.id !in Run(store, horde, events).completed
  {
    forall c | store.HasCriterion(c) ensures Spares(store, {a.id}, {}, c) { BorrowerWatched(store, a, c); }
    UnwatchedNeverHeld(store, horde, events, a.id);
  }

  /** The counter of `c` after SetCriteriaProgress has written it. */
  function Target(env: Env, s: State, c: Criterion, change: nat, ptype: ProgressType): nat
    requires env.store.Valid() && env.store.HasCriterion(c)
  {
    var max := MaxCounter(c, env.store.Owner(c));
    if c.id in s.progress then NewValue(s.progress[c.id].counter, Min(change, max), max, ptype)
    else if c.ExplicitTimer() then 0
    else Min(change, max)
  }

  /** With ordinary criteria of its own it is entered exactly by raising one of them at a moment
      when it is complete, if that criterion is completed, too, or the achievement is a SUMM one;
      and it is taken back exactly by lowering one of them when it is no longer complete. */
  lemma BorrowerExact(env: Env, s: State, c: Criterion, change: nat, ptype: ProgressType, a: Achievement)
    requires env.store.Valid() && BorrowsCounter(env.store, a) && env.store.HasCriterion(c)
    requires forall d :: env.store.HasCriterion(d) && d.referred == a.id ==> !Nested(d)
    ensures var t := SetCriteriaProgress(env, s, c, change, ptype);
      var before, after := Counter(s, c), Target(env, s, c, change, ptype);
      var done := a.summ || IsCompletedCriteria(env, Record(env, s, c, after), c, a);
      a.id in t.completed <==>
        if c.referred != a.id || after == before then a.id in s.completed
        else if after > before then a.id in s.completed || (IsCompletedAchievement(env, s, a) && done)
        else a.id in s.completed && IsCompletedAchievement(env, s, a)
  {
    forall d | env.store.HasCriterion(d) && d.referred != a.id ensures Spares(env.store, {a.id}, {}, d) {
      BorrowerWatched(env.store, a, d);
    }
    assert Secluded(env.store, {a.id}, {}) by { hide Spares; }
    hide Spares, Secluded, IsCompletedAchievement;
    var before, after := Counter(s, c), Target(env, s, c, change, ptype);
    if c.referred != a.id {
      SetLeaves(env, {a.id}, {}, s, c, change, ptype);
    } else if after != before {
      var r := Record(env, s, c, after);
      assert SetCriteriaProgress(env, s, c, change, ptype) == AfterChange(env, r, c, before, after);
      CompletionFrame(env, r, s, a);
      hide SetCriteriaProgress;
      if before < after { OwnRaise(env, r, c, a); } else { OwnLower(env, r, a); }
    }
  }

  lemma OwnRaise(env: Env, s: State, c: Criterion, a: Achievement)
    requires env.store.Valid() && BorrowsCounter(env.store, a) && Secluded(env.store, {a.id}, {})
    requires env.store.HasCriterion(c) && c.referred == a.id
    ensures a.id in AfterRaise(env, s, c).completed <==>
      a.id in s.completed || (IsCompletedAchievement(env, s, a) && (a.summ || IsCompletedCriteria(env, s, c, a)))
  {
    hide Secluded, IsCompletedAchievement, IsCompletedCriteria, CheckReferences, CompletedAchievement;
    var s1 := if IsCompletedCriteria(env, s, c, a) then CompletedCriteriaFor(env, s, a) else s;
    var s2 := if a.summ && IsCompletedAchievement(env, s1, a) then CompletedAchievement(env, s1, a) else s1;
    ReferencesLeave(env, {a.id}, {}, s2, env.store.References(a.id));
  }

  lemma OwnLower(env: Env, s: State, a: Achievement)
    requires env.store.Valid() && BorrowsCounter(env.store, a)
    ensures a.id in AfterLower(env, s, a).completed <==> a.id in s.completed && IsCompletedAchievement(env, s, a)
  {
    hide IsCompletedAchievement;
    var s1 := Recheck(env, s, [a]);
    RecheckExact(env, s, [a]);
    assert a in [a];
    RecheckLeaves(env, {a.id}, {}, s1, env.store.References(a.id));
  }

  // ----- timers after a reset -----

  lemma {:induction false} RefillLeaves(env: Env, s: State, updates: seq<Update>)
    requires env.store.Valid()
    ensures Leaves(env, {}, {}, s, Refill(env, s, updates))
    decreases |updates|
  {
    hide Leaves, UpdateList;
    LeavesTwice(env, {}, {}, s, s, s);
    if updates != [] {
      var s1 := UpdateAchievementCriteria(env, s, updates[0]);
      ListLeaves(env, {}, {}, s, env.store.CriteriaByType(updates[0].Type()), updates[0]);
      RefillLeaves(env, s1, updates[1..]);
      LeavesTwice(env, {}, {}, s, s1, Refill(env, s, updates));
    }
  }

  /** After a reset with whatever refill: an explicit timer that was running has no record, and
      so its expiry violates the assertion.  The assertion holds at a given time exactly if no
      timer that the refill has not started again has expired by then. */
  lemma ResetTimers(env: Env, s: State, refill: seq<Update>, later: Env)
    requires env.store.Valid() && InStore(env, s) && later.store == env.store
    ensures var t := Refill(env, ResetState(s), refill);
      && (TimersHaveRecords(t) <==> s.failTimes.Keys <= t.progress.Keys)
      && (FailureAssertHolds(later, t) <==>
            forall id :: id in s.failTimes && id !in t.progress ==> later.now < s.failTimes[id])
      && (forall id :: id in s.failTimes && env.store.criteria[id].ExplicitTimer() ==>
            id !in t.progress && (s.failTimes[id] <= later.now ==> !FailureAssertHolds(later, t)))
  {
    var t := Refill(env, ResetState(s), refill);
    RefillLeaves(env, ResetState(s), refill);
    hide Refill;
    forall id | id in s.failTimes && id !in t.progress && s.failTimes[id] <= later.now
      ensures Failed(later, t, id)
    {
    }
  }
}
