/** The AchievementMgr object: its four mutable fields, the two tables it writes, and the
    mutually recursive methods, each tied to the engine function of the same name. */
module AchievementManager {
  import opened AchievementStore
  import opened AchievementEngine
  import opened AchievementPersistence
  import opened AchievementRestart

  class AchievementMgr {
    const store: Store
    const horde: bool
    var criteriaProgress: map<nat, Progress>
    var completedAchievements: map<nat, Completion>
    var criteriaFailTimes: map<nat, int>
    var achievementPoints: nat
    var achievementTable: map<nat, int>
    var progressTable: map<nat, ProgressRow>

    function View(): State
      reads this
    {
      State(criteriaProgress, completedAchievements, criteriaFailTimes, achievementPoints, achievementTable,
          progressTable)
    }

    ghost predicate Fits(env: Env) {
      store.Valid() && env.store == store && env.horde == horde
    }

    constructor (store: Store, horde: bool)
      ensures this.store == store && this.horde == horde && View() == EMPTY
    {
      this.store := store;
      this.horde := horde;
      criteriaProgress, completedAchievements, criteriaFailTimes := map[], map[], map[];
      achievementPoints, achievementTable, progressTable := 0, map[], map[];
    }

    method SummReached(list: seq<Criterion>) returns (r: bool)
      ensures r == AchievementEngine.SummReached(View(), list, 0)
    {
      var count: nat := 0;
      for i := 0 to |list|
        invariant AchievementEngine.SummReached(View(), list[i..], count)
               == AchievementEngine.SummReached(View(), list, 0)
      {
        assert list[i..][1..] == list[i + 1..];
        if list[i].id in criteriaProgress {
          count := (count + criteriaProgress[list[i].id].counter) % UINT32_SIZE;
          if count >= list[i].count { return true; }
        }
      }
      return false;
    }

    method EnoughCompleted(env: Env, a: Achievement, list: seq<Criterion>) returns (r: bool)
      ensures r == AchievementEngine.EnoughCompleted(env, View(), a, list, 0, true)
    {
      var count, completedAll := 0, true;
      for i := 0 to |list|
        invariant AchievementEngine.EnoughCompleted(env, View(), a, list[i..], count, completedAll)
               == AchievementEngine.EnoughCompleted(env, View(), a, list, 0, true)
      {
        assert list[i..][1..] == list[i + 1..];
        if IsCompletedCriteria(env, View(), list[i], a) {
          count := count + 1;
        } else {
          completedAll := false;
        }
        if TestCount(a) > 0 && TestCount(a) <= count { return true; }
      }
      return completedAll && TestCount(a) == 0;
    }

    method IsCompletedAchievement(env: Env, a: Achievement) returns (r: bool)
      requires Fits(env)
      ensures r == AchievementEngine.IsCompletedAchievement(env, View(), a)
    {
      if a.counter { return false; }
      var list := store.CriteriaByAchievement(TestId(a));
      if list == [] { return false; }
      if a.summ {
        r := SummReached(list);
      } else {
        r := EnoughCompleted(env, a, list);
      }
    }

    method SetCriteriaProgress(env: Env, c: Criterion, changeValue: nat, ptype: ProgressType)
      requires Fits(env) && store.HasCriterion(c)
      modifies this
      ensures View() == AchievementEngine.SetCriteriaProgress(env, old(View()), c, changeValue, ptype)
      decreases 0, Open(env, View()), 5, 0
    {
      hide AchievementEngine.AfterRaise, AchievementEngine.AfterLower, Open;
      var a := store.Owner(c);
      var maxValue := MaxCounter(c, a);
      var change := Min(changeValue, maxValue);
      var oldValue, newValue := 0, change;
      if c.id !in criteriaProgress {
        if change == 0 || c.ExplicitTimer() { return; }
        criteriaProgress := criteriaProgress[c.id := Progress(newValue, env.now, true, false)];
        if c.timeLimit != 0 { criteriaFailTimes := criteriaFailTimes[c.id := env.now + c.timeLimit]; }
      } else {
        var progress := criteriaProgress[c.id];
        oldValue := progress.counter;
        newValue := NewValue(oldValue, change, maxValue, ptype);
        if newValue == oldValue { return; }
        criteriaProgress := criteriaProgress[c.id := progress.(counter := newValue, changed := true)];
      }
      assert View() == Record(env, old(View()), c, newValue);
      OpenShrinks(env, old(View()), View());
      if a.counter && !a.summ { return; }
      if oldValue < newValue {
        AfterRaise(env, c);
      } else {
        AfterLower(env, a);
      }
    }

    method AfterRaise(env: Env, c: Criterion)
      requires Fits(env) && store.HasCriterion(c)
      modifies this
      ensures View() == AchievementEngine.AfterRaise(env, old(View()), c)
      decreases 0, Open(env, View()), 3, 0
    {
      hide AchievementEngine.CheckReferences, AchievementEngine.CompletedAchievement,
          AchievementEngine.CompletedCriteriaFor,
           AchievementEngine.IsCompletedAchievement, Open;
      var a := store.Owner(c);
      ghost var s := View();
      if IsCompletedCriteria(env, View(), c, a) { CompletedCriteriaFor(env, a); }
      ghost var s1 := View();
      OpenShrinks(env, s, s1);
      if a.summ {
        var done := IsCompletedAchievement(env, a);
        if done { CompletedAchievement(env, a); }
      }
      OpenShrinks(env, s1, View());
      CheckReferences(env, store.References(a.id));
    }

    method CheckReferences(env: Env, list: seq<Achievement>)
      requires Fits(env) && forall a :: a in list ==> store.Has(a)
      modifies this
      ensures View() == AchievementEngine.CheckReferences(env, old(View()), list)
      decreases 0, Open(env, View()), 2, |list|
    {
      hide AchievementEngine.CompletedAchievement, AchievementEngine.IsCompletedAchievement, Open;
      for i := 0 to |list|
        invariant Open(env, View()) <= Open(env, old(View()))
        invariant AchievementEngine.CheckReferences(env, View(), list[i..])
               == AchievementEngine.CheckReferences(env, old(View()), list)
      {
        assert list[i..][1..] == list[i + 1..];
        ghost var s := View();
        var done := IsCompletedAchievement(env, list[i]);
        if done { CompletedAchievement(env, list[i]); }
        OpenShrinks(env, s, View());
      }
    }

    method CompletedCriteriaFor(env: Env, a: Achievement)
      requires Fits(env) && store.Has(a)
      modifies this
      ensures View() == AchievementEngine.CompletedCriteriaFor(env, old(View()), a)
      decreases 0, Open(env, View()), 2, 0
    {
      hide AchievementEngine.CompletedAchievement, AchievementEngine.IsCompletedAchievement, Open;
      if a.counter || a.id in completedAchievements { return; }
      var done := IsCompletedAchievement(env, a);
      if done { CompletedAchievement(env, a); }
    }

    method CompletedAchievement(env: Env, a: Achievement)
      requires Fits(env) && store.Has(a)
      modifies this
      ensures View() == AchievementEngine.CompletedAchievement(env, old(View()), a)
      decreases 0, Open(env, View()), 1, 0
    {
      hide AchievementEngine.UpdateList, Open;
      if a.counter || a.id in completedAchievements { return; }
      ghost var s := View();
      completedAchievements := completedAchievements[a.id := Completion(env.now, true)];
      achievementPoints := (achievementPoints + a.points) % UINT32_SIZE;
      assert View() == Enter(env, s, a);
      OpenDrops(env, s, View(), a.id);
      ghost var s1 := View();
      UpdateAchievementCriteria(env, CompleteAchievementUpdate);
      OpenShrinks(env, s1, View());
      UpdateAchievementCriteria(env, EarnPointsUpdate);
    }

    method UpdateAchievementCriteria(env: Env, u: Update)
      requires Fits(env)
      modifies this
      ensures View() == AchievementEngine.UpdateAchievementCriteria(env, old(View()), u)
      decreases if u.OtherUpdate? then 1 else 0, if u.OtherUpdate? then 0 else Open(env, View()), 7, 0
    {
      hide AchievementEngine.SetCriteriaProgress, Open;
      var list := store.CriteriaByType(u.Type());
      for i := 0 to |list|
        invariant !u.OtherUpdate? ==> Open(env, View()) <= Open(env, old(View()))
        invariant UpdateList(env, View(), list[i..], u) == UpdateList(env, old(View()), list, u)
      {
        var c := list[i];
        assert list[i..][1..] == list[i + 1..];
        ghost var s := View();
        var a := store.Owner(c);
        if FactionAllows(env, a) && !IsCompletedCriteria(env, View(), c, a) {
          match Decide(View(), c, u) {
            case Skip =>
            case Change(change, progressType) => SetCriteriaProgress(env, c, change, progressType);
          }
        }
        assert View() == UpdateOne(env, s, c, u);
        if !u.OtherUpdate? { OpenShrinks(env, s, View()); }
      }
    }

    method AfterLower(env: Env, a: Achievement)
      requires Fits(env) && store.Has(a)
      modifies this
      ensures View() == AchievementEngine.AfterLower(env, old(View()), a)
    {
      Recheck(env, [a]);
      Recheck(env, store.References(a.id));
    }

    method Recheck(env: Env, list: seq<Achievement>)
      requires Fits(env)
      modifies this
      ensures View() == AchievementEngine.Recheck(env, old(View()), list)
    {
      hide AchievementEngine.IsCompletedAchievement;
      for i := 0 to |list|
        invariant AchievementEngine.Recheck(env, View(), list[i..]) == AchievementEngine.Recheck(env, old(View()), list)
      {
        assert list[i..][1..] == list[i + 1..];
        if list[i].id in completedAchievements {
          var done := IsCompletedAchievement(env, list[i]);
          if !done { IncompletedAchievement(list[i]); }
        }
      }
    }

    method IncompletedAchievement(a: Achievement)
      modifies this
      ensures View() == AchievementEngine.IncompletedAchievement(old(View()), a)
    {
      if a.counter || a.id !in completedAchievements { return; }
      if !completedAchievements[a.id].changed { achievementTable := achievementTable - {a.id}; }
      completedAchievements := completedAchievements - {a.id};
    }

    /** LoadFromDB, the achievement rows. */
    method LoadCompleted(result: seq<CompletionRow>)
      requires store.Valid()
      modifies this
      ensures View() == AchievementPersistence.LoadCompleted(store, old(View()), result)
    {
      for i := 0 to |result|
        invariant AchievementPersistence.LoadCompleted(store, View(), result[i..])
               == AchievementPersistence.LoadCompleted(store, old(View()), result)
      {
        assert result[i..][1..] == result[i + 1..];
        if result[i].id in store.achievements {
          completedAchievements := completedAchievements[result[i].id := Completion(result[i].date, false)];
          achievementPoints := (achievementPoints + store.achievements[result[i].id].points) % UINT32_SIZE;
        }
      }
    }

    /** LoadFromDB, one counter row. */
    method LoadCounter(env: Env, row: CounterRow)
      requires Fits(env)
      modifies `criteriaProgress, `criteriaFailTimes, `progressTable
      ensures View() == AchievementRestart.LoadCounter(env, old(View()), row)
    {
      hide AchievementEngine.IsCompletedCriteria;
      if row.id !in store.criteria {
        progressTable := progressTable - {row.id};
        return;
      }
      var c := store.criteria[row.id];
      var a := store.Owner(c);
      var progress := Progress(row.counter, row.date, false, false);
      criteriaProgress := criteriaProgress[row.id := progress];
      if c.timeLimit != 0 {
        if !IsCompletedCriteria(env, View(), c, a) {
          var failTime := progress.date + c.timeLimit;
          criteriaFailTimes := criteriaFailTimes[row.id := failTime];
          if failTime <= env.now {
            progress := progress.(failed := true);
          }
        }
      }
      var max := MaxCounter(c, a);
      if max != 0 {
        if progress.counter > max {
          progress := progress.(counter := max, changed := true);
        }
      }
      criteriaProgress := criteriaProgress[row.id := progress];
    }

    method LoadFromDB(env: Env, completions: seq<CompletionRow>, counters: seq<CounterRow>)
      requires Fits(env)
      modifies this
      ensures View() == LoadCounters(env, AchievementPersistence.LoadCompleted(store, old(View()), completions),
          counters)
    {
      hide AchievementPersistence.LoadCompleted, AchievementRestart.LoadCounter;
      LoadCompleted(completions);
      ghost var loaded := View();
      for i := 0 to |counters|
        invariant LoadCounters(env, View(), counters[i..]) == LoadCounters(env, loaded, counters)
      {
        assert counters[i..][1..] == counters[i + 1..];
        LoadCounter(env, counters[i]);
      }
    }

    /** Everything but the timers is cleared, then all types are updated. */
    method Reset(env: Env, updates: seq<Update>)
      requires Fits(env)
      modifies this
      ensures View() == Refill(env, ResetState(old(View())), updates)
    {
      hide UpdateList, Open;
      completedAchievements := map[];
      criteriaProgress := map[];
      achievementTable, progressTable := map[], map[];
      achievementPoints := 0;
      ghost var s := View();
      for i := 0 to |updates|
        invariant Refill(env, View(), updates[i..]) == Refill(env, s, updates)
      {
        assert updates[i..][1..] == updates[i + 1..];
        UpdateAchievementCriteria(env, updates[i]);
      }
    }

    method SaveToDB()
      modifies this
      ensures View() == AchievementPersistence.SaveToDB(store, old(View()))
    {
      ghost var s := View();
      SaveCompleted();
      SaveIndependent(store, s, View());
      SaveProgress();
      hide HasRow, RowOf;
    }

    method SaveCompleted()
      modifies `completedAchievements, `achievementTable
      ensures completedAchievements == AchievementPersistence.SaveToDB(store, old(View())).completed
      ensures achievementTable == AchievementPersistence.SaveToDB(store, old(View())).rows
    {
      ghost var held, table := completedAchievements, achievementTable;
      var todo := completedAchievements.Keys;
      while todo != {}
        invariant todo <= held.Keys && completedAchievements.Keys == held.Keys
        invariant forall id :: id in held ==>
          completedAchievements[id] == if id in todo then held[id] else held[id].(changed := false)
        invariant forall id :: id in achievementTable <==>
            id in table || (id in held && held[id].changed && id !in todo)
        invariant forall id :: id in achievementTable ==>
          achievementTable[id] == if id in held && held[id].changed && id !in todo then held[id].date else table[id]
        decreases todo
      {
        var id :| id in todo;
        todo := todo - {id};
        var data := completedAchievements[id];
        if data.changed {
          completedAchievements := completedAchievements[id := data.(changed := false)];
          achievementTable := (achievementTable - {id})[id := data.date];
        }
      }
    }

    method SaveProgress()
      modifies `criteriaProgress, `progressTable
      ensures criteriaProgress == AchievementPersistence.SaveToDB(store, old(View())).progress
      ensures progressTable == AchievementPersistence.SaveToDB(store, old(View())).progressRows
    {
      ghost var s := View();
      var todo := criteriaProgress.Keys;
      while todo != {}
        invariant todo <= s.progress.Keys && criteriaProgress.Keys == s.progress.Keys
        invariant forall id :: id in s.progress ==>
          criteriaProgress[id] == if id in todo then s.progress[id] else s.progress[id].(changed := false)
        invariant forall id :: id in progressTable <==>
            if id in todo then id in s.progressRows else HasRow(store, s, id)
        invariant forall id :: id in progressTable ==>
          progressTable[id] == if id in todo then s.progressRows[id] else RowOf(store, s, id)
        decreases todo
      {
        hide HasRow, RowOf;
        var id :| id in todo;
        todo := todo - {id};
        SaveOneProgress(id, s);
      }
      assert forall id :: HasRow(store, s, id) ==> id in s.progress || id in s.progressRows;
      hide HasRow, RowOf;
    }

    /** One turn of that loop; `s` is the state before it. */
    method SaveOneProgress(id: nat, ghost s: State)
      requires id in criteriaProgress && id in s.progress && criteriaProgress[id] == s.progress[id]
      requires id in progressTable <==> id in s.progressRows
      requires id in progressTable ==> progressTable[id] == s.progressRows[id]
      modifies `criteriaProgress, `progressTable
      ensures criteriaProgress == old(criteriaProgress)[id := s.progress[id].(changed := false)]
      ensures progressTable ==
        if HasRow(store, s, id) then old(progressTable)[id := RowOf(store, s, id)] else old(progressTable) - {id}
    {
      var progress := criteriaProgress[id];
      if progress.changed {
        criteriaProgress := criteriaProgress[id := progress.(changed := false)];
        progressTable := progressTable - {id};
        if NeedSave(store, id, progress) {
          progressTable := progressTable[id := ProgressRow(progress.counter, progress.date)];
        }
      }
    }

    method StartTimer(env: Env, c: Criterion, miscId: nat, startTime: int, grouped: bool)
      requires Fits(env) && store.HasCriterion(c)
      modifies `criteriaProgress, `criteriaFailTimes
      ensures View() == StartOne(env, old(View()), c, miscId, startTime, grouped)
    {
      if c.timedMiscId != miscId || !c.ExplicitTimer() {
        return;
      }
      if !FactionAllows(env, store.Owner(c)) || IsCompletedCriteria(env, View(), c, store.Owner(c)) {
        return;
      }
      if c.requiredType == TYPE_COMPLETE_QUEST && grouped {
        return;
      }
      if startTime != 0 && startTime + c.timeLimit < env.now {
        return;
      }
      var date := if startTime != 0 then startTime else env.now;
      criteriaProgress := criteriaProgress[c.id := Progress(0, date, true, false)];
      criteriaFailTimes := criteriaFailTimes[c.id := date + c.timeLimit];
    }

    method StartTimedAchievementCriteria(env: Env, requiredType: nat, miscId: nat, startTime: int, grouped: bool)
      requires Fits(env)
      modifies this
      ensures View() == StartList(env, old(View()), store.CriteriaByType(requiredType), miscId, startTime, grouped)
    {
      hide StartOne;
      var list := store.CriteriaByType(requiredType);
      for i := 0 to |list|
        invariant StartList(env, View(), list[i..], miscId, startTime, grouped)
               == StartList(env, old(View()), list, miscId, startTime, grouped)
      {
        assert list[i..][1..] == list[i + 1..];
        StartTimer(env, list[i], miscId, startTime, grouped);
      }
    }

    /** The timers of known criteria are checked; the record of every failed one must be there. */
    method DoFailedTimedAchievementCriterias(env: Env)
      requires Fits(env) && FailureAssertHolds(env, View())
      requires criteriaFailTimes.Keys <= store.criteria.Keys
      modifies this
      ensures View() == FailTimers(env, old(View()))
    {
      hide Failed;
      ghost var s := View();
      var todo := criteriaFailTimes.Keys;
      FailAll(env, s);
      while todo != {}
        invariant todo <= s.failTimes.Keys
        invariant View() == FailPart(env, s, todo)
        decreases todo
      {
        var id :| id in todo;
        FailStep(env, s, todo, id);
        CheckTimer(env, id);
        todo := todo - {id};
      }
    }

    /** One turn of that loop. */
    method CheckTimer(env: Env, id: nat)
      requires Fits(env) && id in criteriaFailTimes && id in store.criteria
      requires Failed(env, View(), id) ==> id in criteriaProgress
      modifies this
      ensures View() == FailOne(env, old(View()), id)
    {
      if criteriaFailTimes[id] <= env.now {
        var criteria := store.criteria[id];
        if !IsCompletedCriteria(env, View(), criteria, store.Owner(criteria)) {
          assert id in criteriaProgress;
          criteriaProgress := criteriaProgress - {id};
        }
        criteriaFailTimes := criteriaFailTimes - {id};
      }
    }
  }

  // ----- the loops over maps: what is done when `todo` is left -----

  lemma SaveIndependent(store: Store, s: State, t: State)
    requires t.progress == s.progress && t.progressRows == s.progressRows
    ensures SaveToDB(store, t).progress == SaveToDB(store, s).progress
    ensures SaveToDB(store, t).progressRows == SaveToDB(store, s).progressRows
  {
    assert forall id :: HasRow(store, s, id) == HasRow(store, t, id);
    assert forall id :: HasRow(store, s, id) ==> RowOf(store, s, id) == RowOf(store, t, id);
    hide HasRow, RowOf;
  }

  function FailOne(env: Env, s: State, id: nat): State
    requires env.store.Valid()
  {
    s.(progress := if Failed(env, s, id) then s.progress - {id} else s.progress,
       failTimes := if id in s.failTimes && s.failTimes[id] <= env.now then s.failTimes - {id} else s.failTimes)
  }

  ghost function FailPart(env: Env, s: State, todo: set<nat>): State
    requires env.store.Valid()
  {
    s.(progress := map id | id in s.progress && (id in todo || !Failed(env, s, id)) :: s.progress[id],
       failTimes := map id | id in s.failTimes && (id in todo || s.failTimes[id] > env.now) :: s.failTimes[id])
  }

  lemma FailStep(env: Env, s: State, todo: set<nat>, id: nat)
    requires env.store.Valid() && FailureAssertHolds(env, s) && id in todo && todo <= s.failTimes.Keys
    ensures var part := FailPart(env, s, todo);
      && id in part.failTimes
      && (Failed(env, part, id) ==> id in part.progress)
      && FailOne(env, part, id) == FailPart(env, s, todo - {id})
  {
    var part, next := FailPart(env, s, todo), FailPart(env, s, todo - {id});
    assert Failed(env, part, id) == Failed(env, s, id);
    hide Failed;
    assert FailOne(env, part, id).progress == next.progress;
    assert FailOne(env, part, id).failTimes == next.failTimes;
  }

  lemma FailAll(env: Env, s: State)
    requires env.store.Valid()
    ensures FailPart(env, s, s.failTimes.Keys) == s
    ensures FailPart(env, s, {}) == FailTimers(env, s)
  {
    assert forall id :: Failed(env, s, id) ==> id in s.failTimes;
    hide Failed;
    var part := FailPart(env, s, s.failTimes.Keys);
    assert part.progress == s.progress && part.failTimes == s.failTimes;
  }
}
