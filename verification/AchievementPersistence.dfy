/** Saving, loading, resetting and the timers of an AchievementMgr. */
module AchievementPersistence {
  import opened AchievementStore
  import opened AchievementEngine
  import opened AchievementFixpoint

  // ----- SaveToDB and LoadFromDB -----

  /** A counter row is written when there is something to remember or a timer to continue. */
  predicate NeedSave(store: Store, id: nat, p: Progress) {
    p.counter != 0 || (id in store.criteria && store.criteria[id].timeLimit > 0)
  }

  /** Is there a counter row for `id` after a save? */
  predicate HasRow(store: Store, s: State, id: nat) {
    if id in s.progress && s.progress[id].changed then NeedSave(store, id, s.progress[id]) else id in s.progressRows
  }

  function RowOf(store: Store, s: State, id: nat): ProgressRow
    requires HasRow(store, s, id)
  {
    if id in s.progress && s.progress[id].changed then ProgressRow(s.progress[id].counter, s.progress[id].date)
    else s.progressRows[id]
  }

  function SaveToDB(store: Store, s: State): State {
    s.(completed := map id | id in s.completed :: s.completed[id].(changed := false),
       rows := map id | id in s.rows.Keys + s.completed.Keys && (id in s.rows || s.completed[id].changed) ::
                 if id in s.completed && s.completed[id].changed then s.completed[id].date else s.rows[id],
       progress := map id | id in s.progress :: s.progress[id].(changed := false),
       progressRows :=
         map id | id in s.progressRows.Keys + s.progress.Keys && HasRow(store, s, id) :: RowOf(store, s, id))
  }

  datatype CompletionRow = CompletionRow(id: nat, date: int)

  /** The achievement part of LoadFromDB: rows of unknown achievements are skipped. */
  function LoadCompleted(store: Store, s: State, result: seq<CompletionRow>): State
    requires store.Valid()
    decreases |result|
  {
    if result == [] then s
    else
      var row := result[0];
      var s1 :=
        if row.id !in store.achievements then s
        else s.(completed := s.completed[row.id := Completion(row.date, false)],
                points := (s.points + store.achievements[row.id].points) % UINT32_SIZE);
      LoadCompleted(store, s1, result[1..])
  }

  /** A query result lists the rows of a table, each once, in any order. */
  ghost predicate Lists(result: seq<CompletionRow>, rows: map<nat, int>) {
    && (forall i :: 0 <= i < |result| ==> result[i].id in rows && rows[result[i].id] == result[i].date)
    && (forall id :: id in rows ==> exists i :: 0 <= i < |result| && result[i].id == id)
    && (forall i, j :: 0 <= i < j < |result| ==> result[i].id != result[j].id)
  }

  ghost function RowIds(result: seq<CompletionRow>): set<nat> {
    set i | 0 <= i < |result| :: result[i].id
  }

  /** Loading the listed rows on top of disjoint ones adds exactly them and their points. */
  lemma {:induction false} LoadAdds(env: Env, s: State, result: seq<CompletionRow>)
    requires env.store.Valid() && PointsAreSum(env, s)
    requires forall i :: 0 <= i < |result| ==> result[i].id in env.store.achievements && result[i].id !in s.completed
    requires forall i, j :: 0 <= i < j < |result| ==> result[i].id != result[j].id
    ensures var t := LoadCompleted(env.store, s, result);
      && PointsAreSum(env, t)
      && t.completed.Keys == s.completed.Keys + RowIds(result)
      && (forall id :: id in s.completed ==> t.completed[id] == s.completed[id])
      && (forall i :: 0 <= i < |result| ==> t.completed[result[i].id] == Completion(result[i].date, false))
    decreases |result|
  {
    if result != [] {
      var row := result[0];
      var a := env.store.achievements[row.id];
      var s1 := s.(completed := s.completed[row.id := Completion(row.date, false)],
                   points := (s.points + a.points) % UINT32_SIZE);
      EnterPoints(env, s, a);
      assert s1.completed.Keys == Enter(env, s, a).completed.Keys;
      LoadAdds(env, s1, result[1..]);
      assert RowIds(result) == {row.id} + RowIds(result[1..]);
      var t := LoadCompleted(env.store, s, result);
      assert t.completed[row.id] == s1.completed[row.id];
      forall i | 0 <= i < |result|
        ensures t.completed[result[i].id] == Completion(result[i].date, false)
      {
        if i > 0 { assert result[1..][i - 1] == result[i]; }
      }
    }
  }

  /** Loading a whole table into an empty manager restores exactly its rows. */
  lemma LoadRestores(env: Env, rows: map<nat, int>, result: seq<CompletionRow>)
    requires env.store.Valid() && rows.Keys <= env.store.achievements.Keys && Lists(result, rows)
    ensures var t := LoadCompleted(env.store, EMPTY, result);
      && PointsAreSum(env, t)
      && t.completed.Keys == rows.Keys
      && forall id :: id in rows ==> t.completed[id] == Completion(rows[id], false)
  {
    assert PointsAreSum(env, EMPTY);
    hide PointsAreSum, LoadCompleted;
    LoadAdds(env, EMPTY, result);
    assert RowIds(result) == rows.Keys;
  }

  /** A manager loaded from what was saved holds the same achievements with the same dates, and
      its points are the sum over them whatever they were before. */
  lemma SaveThenLoad(env: Env, s: State, result: seq<CompletionRow>)
    requires env.store.Valid() && InStore(env, s) && RowsMatch(s)
    requires Lists(result, SaveToDB(env.store, s).rows)
    ensures LoadCompleted(env.store, EMPTY, result).completed == SaveToDB(env.store, s).completed
    ensures PointsAreSum(env, LoadCompleted(env.store, EMPTY, result))
  {
    hide PointsAreSum, LoadCompleted, Lists;
    SavedRows(env.store, s);
    LoadRestores(env, SaveToDB(env.store, s).rows, result);
  }

  lemma SavedRows(store: Store, s: State)
    requires RowsMatch(s)
    ensures var t := SaveToDB(store, s);
      && t.rows.Keys == t.completed.Keys == s.completed.Keys
      && forall id :: id in t.rows ==> t.completed[id] == Completion(t.rows[id], false)
  {
  }

  /** Saving stores every held achievement and marks it saved. */
  lemma SaveMatches(store: Store, s: State)
    requires RowsMatch(s)
    ensures RowsMatch(SaveToDB(store, s))
    ensures forall id :: id in s.completed ==> id in SaveToDB(store, s).rows
  {
    var t := SaveToDB(store, s);
    assert t.completed.Keys == s.completed.Keys;
  }

  // ----- timers -----

  /** One turn of StartTimedAchievementCriteria. */
  function StartOne(env: Env, s: State, c: Criterion, miscId: nat, startTime: int, grouped: bool): State
    requires env.store.Valid() && env.store.HasCriterion(c)
  {
    var a := env.store.Owner(c);
    if c.timedMiscId != miscId || !c.ExplicitTimer() || !FactionAllows(env, a) || IsCompletedCriteria(env, s, c, a)
       || (c.requiredType == TYPE_COMPLETE_QUEST && grouped)
       || (startTime != 0 && startTime + c.timeLimit < env.now)
    then s
    else
      var date := if startTime != 0 then startTime else env.now;
      s.(progress := s.progress[c.id := Progress(0, date, true, false)],
         failTimes := s.failTimes[c.id := date + c.timeLimit])
  }

  function StartList(env: Env, s: State, list: seq<Criterion>, miscId: nat, startTime: int, grouped: bool): State
    requires env.store.Valid() && forall c :: c in list ==> env.store.HasCriterion(c)
    decreases |list|
  {
    if list == [] then s
    else StartList(env, StartOne(env, s, list[0], miscId, startTime, grouped), list[1..], miscId, startTime, grouped)
  }

  /** The timer `id` has run out without its criterion being completed. */
  predicate Failed(env: Env, s: State, id: nat)
    requires env.store.Valid()
  {
    && id in s.failTimes && s.failTimes[id] <= env.now && id in env.store.criteria
    && !IsCompletedCriteria(env, s, env.store.criteria[id], env.store.Owner(env.store.criteria[id]))
  }

  /** What DoFailedTimedAchievementCriterias asserts before it erases a record. */
  ghost predicate FailureAssertHolds(env: Env, s: State)
    requires env.store.Valid()
  {
    forall id :: Failed(env, s, id) ==> id in s.progress
  }

  /** DoFailedTimedAchievementCriterias. */
  function FailTimers(env: Env, s: State): State
    requires env.store.Valid()
  {
    s.(progress := map id | id in s.progress && !Failed(env, s, id) :: s.progress[id],
       failTimes := map id | id in s.failTimes && s.failTimes[id] > env.now :: s.failTimes[id])
  }

  // ----- Reset -----

  /** Reset up to the point where it refills the data; the timer map is not touched. */
  function ResetState(s: State): State {
    s.(completed := map[], progress := map[], points := 0, rows := map[], progressRows := map[])
  }

  /** CheckAllAchievementCriteria: the updates of all types, one after the other. */
  function Refill(env: Env, s: State, updates: seq<Update>): State
    requires env.store.Valid()
    decreases |updates|
  {
    if updates == [] then s else Refill(env, UpdateAchievementCriteria(env, s, updates[0]), updates[1..])
  }

  // ----- points and taking achievements back -----

  /** Taking an achievement back does not subtract its points: the total stays the sum over
      the held achievements exactly when it was worth nothing. */
  lemma PointsAfterLoss(env: Env, s: State, a: Achievement)
    requires env.store.Valid() && env.store.Has(a) && !a.counter && a.id in s.completed && PointsAreSum(env, s)
    ensures PointsAreSum(env, IncompletedAchievement(s, a)) <==> a.points == 0
  {
    SumPointsRemove(env.store, s.completed.Keys, a.id);
    var t := IncompletedAchievement(s, a);
    assert t.completed.Keys == s.completed.Keys - {a.id};
  }

  // ----- the arithmetic of one counter -----

  /** PROGRESS_ACCUMULATE adds and stops at the maximum, with uint32 subtraction and addition,
      exactly when the old counter does not exceed the maximum. */
  lemma AccumulateSaturates(before: nat, change: nat, max: nat)
    requires before < UINT32_SIZE && change <= max < UINT32_SIZE
    ensures NewValue(before, change, max, ProgressAccumulate) == Min(before + change, max) <==> before <= max
  {
    if before > max {
      assert (max - before) % UINT32_SIZE == UINT32_SIZE + max - before;
    }
  }
}
