/** Coming back after a logout: LoadFromDB on a new manager over the saved tables. */
module AchievementRestart {
  import opened AchievementStore
  import opened AchievementEngine
  import opened AchievementFixpoint
  import opened AchievementPersistence

  datatype CounterRow = CounterRow(id: nat, counter: nat, date: int)

  /** One row of the counter query: unknown criteria are deleted from the table, a timer that is
      not completed continues, and a counter above its maximum is cut. */
  function LoadCounter(env: Env, s: State, row: CounterRow): State
    requires env.store.Valid()
  {
    if row.id !in env.store.criteria then s.(progressRows := s.progressRows - {row.id})
    else
      var c := env.store.criteria[row.id];
      var a := env.store.Owner(c);
      var s1 := s.(progress := s.progress[row.id := Progress(row.counter, row.date, false, false)]);
      var s2 :=
        if c.timeLimit != 0 && !IsCompletedCriteria(env, s1, c, a) then
          s1.(failTimes := s1.failTimes[row.id := row.date + c.timeLimit],
              progress :=
                s1.progress[row.id := Progress(row.counter, row.date, false, row.date + c.timeLimit <= env.now)])
        else s1;
      var max := MaxCounter(c, a);
      if max != 0 && row.counter > max then
        s2.(progress := s2.progress[row.id := s2.progress[row.id].(counter := max, changed := true)])
      else s2
  }

  function LoadCounters(env: Env, s: State, result: seq<CounterRow>): State
    requires env.store.Valid()
    decreases |result|
  {
    if result == [] then s else LoadCounters(env, LoadCounter(env, s, result[0]), result[1..])
  }

  /** A new manager over the tables of `s`. */
  function LoadFromDB(env: Env, s: State, completions: seq<CompletionRow>, counters: seq<CounterRow>): State
    requires env.store.Valid()
  {
    var s1 := LoadCompleted(env.store, EMPTY.(rows := s.rows, progressRows := s.progressRows), completions);
    LoadCounters(env, s1, counters)
  }

  /** A query result lists the counter rows, each once, in any order. */
  ghost predicate ListsCounters(result: seq<CounterRow>, rows: map<nat, ProgressRow>) {
    && (forall i :: 0 <= i < |result| ==>
        result[i].id in rows && rows[result[i].id] == ProgressRow(result[i].counter, result[i].date))
    && (forall id :: id in rows ==> exists i :: 0 <= i < |result| && result[i].id == id)
    && (forall i, j :: 0 <= i < j < |result| ==> result[i].id != result[j].id)
  }

  ghost predicate RowFits(env: Env, row: CounterRow)
    requires env.store.Valid()
  {
    row.id in env.store.criteria ==>
        row.counter <= MaxCounter(env.store.criteria[row.id], env.store.Owner(env.store.criteria[row.id]))
  }

  /** A row for a criterion of the store. */
  ghost predicate Known(env: Env, result: seq<CounterRow>, id: nat) {
    id in env.store.criteria && exists i :: 0 <= i < |result| && result[i].id == id
  }

  /** A loaded record: counter and date of its row, saved, failed exactly when its time is over
      and it is not completed. */
  ghost predicate Restored(env: Env, s: State, row: CounterRow)
    requires env.store.Valid()
  {
    && row.id in s.progress
    && s.progress[row.id].counter == row.counter && s.progress[row.id].date == row.date && !s.progress[row.id].changed
    && row.id in env.store.criteria
    && var c := env.store.criteria[row.id];
       var open := c.timeLimit != 0 && !IsCompletedCriteria(env, s, c, env.store.Owner(c));
       (row.id in s.failTimes <==> open)
       && (open ==> s.failTimes[row.id] == row.date + c.timeLimit)
       && (s.progress[row.id].failed <==> open && row.date + c.timeLimit <= env.now)
  }

  /** Only the record and the timer of the row's own criterion are touched. */
  lemma LoadCounterFrame(env: Env, s: State, row: CounterRow)
    requires env.store.Valid() && RowFits(env, row) && row.id in env.store.criteria
    ensures var t := LoadCounter(env, s, row);
      && t == s.(progress := t.progress, failTimes := t.failTimes)
      && row.id in t.progress && t.progress == s.progress[row.id := t.progress[row.id]]
      && (t.failTimes == s.failTimes
          || (row.id in t.failTimes && t.failTimes == s.failTimes[row.id := t.failTimes[row.id]]))
  {
    hide IsCompletedCriteria;
  }

  lemma LoadCounterRestores(env: Env, s: State, row: CounterRow)
    requires env.store.Valid() && RowFits(env, row) && row.id !in s.failTimes && row.id in env.store.criteria
    ensures Restored(env, LoadCounter(env, s, row), row)
  {
  }

  lemma LoadCounterEffect(env: Env, s: State, row: CounterRow)
    requires env.store.Valid() && RowFits(env, row) && row.id !in s.failTimes
    ensures var t := LoadCounter(env, s, row);
      && t.completed == s.completed && t.points == s.points && t.rows == s.rows
      && t.progressRows.Keys <= s.progressRows.Keys
      && (forall id :: id in t.progressRows ==> t.progressRows[id] == s.progressRows[id])
      && (row.id in env.store.criteria ==> Restored(env, t, row))
      && (forall id :: id != row.id ==>
          (id in t.progress <==> id in s.progress) && (id in t.failTimes <==> id in s.failTimes))
      && (forall id :: id != row.id && id in s.progress ==> t.progress[id] == s.progress[id])
      && (forall id :: id != row.id && id in s.failTimes ==> t.failTimes[id] == s.failTimes[id])
      && (row.id !in env.store.criteria ==> t.progress == s.progress && t.failTimes == s.failTimes)
      && (forall id :: id in s.progressRows && id in env.store.criteria ==> id in t.progressRows)
  {
    if row.id in env.store.criteria {
      LoadCounterFrame(env, s, row);
      LoadCounterRestores(env, s, row);
      hide LoadCounter, Restored, RowFits;
    }
  }

  lemma KnownLater(env: Env, result: seq<CounterRow>, id: nat)
    requires result != []
    requires Known(env, result[1..], id) || (id == result[0].id && id in env.store.criteria)
    ensures Known(env, result, id)
  {
    if Known(env, result[1..], id) {
      var i :| 0 <= i < |result[1..]| && result[1..][i].id == id;
      assert result[i + 1].id == id;
    }
  }

  lemma NotLater(env: Env, result: seq<CounterRow>)
    requires result != [] && forall i, j :: 0 <= i < j < |result| ==> result[i].id != result[j].id
    ensures !Known(env, result[1..], result[0].id)
  {
    forall i | 0 <= i < |result[1..]| ensures result[1..][i].id != result[0].id {
      assert result[1..][i] == result[i + 1];
    }
  }

  lemma KnownRow(env: Env, s: State, row: CounterRow)
    requires env.store.Valid() && Restored(env, s, row)
    ensures row.id in s.progress
  {
  }

  lemma RestoredStays(env: Env, s: State, t: State, row: CounterRow)
    requires env.store.Valid() && Restored(env, s, row)
    requires row.id in t.progress && t.progress[row.id] == s.progress[row.id]
    requires row.id in t.failTimes <==> row.id in s.failTimes
    requires row.id in s.failTimes ==> t.failTimes[row.id] == s.failTimes[row.id]
    ensures Restored(env, t, row)
  {
  }

  /** Restoring the rows one by one restores each of them. */
  lemma {:induction false} LoadCountersRestores(env: Env, s: State, result: seq<CounterRow>)
    requires env.store.Valid()
    requires forall i :: 0 <= i < |result| ==>
        RowFits(env, result[i]) && result[i].id !in s.progress && result[i].id !in s.failTimes
    requires forall i, j :: 0 <= i < j < |result| ==> result[i].id != result[j].id
    ensures var t := LoadCounters(env, s, result);
      && t.completed == s.completed && t.points == s.points && t.rows == s.rows
      && t.progressRows.Keys <= s.progressRows.Keys
      && (forall id :: id in t.progressRows ==> t.progressRows[id] == s.progressRows[id])
      && (forall i :: 0 <= i < |result| && result[i].id in env.store.criteria ==> Restored(env, t, result[i]))
      && (forall id :: id in s.progress ==> id in t.progress && t.progress[id] == s.progress[id])
      && (forall id :: id in s.failTimes ==> id in t.failTimes && t.failTimes[id] == s.failTimes[id])
      && (forall id :: id in t.progress && id !in s.progress ==> Known(env, result, id))
      && (forall id :: id in t.failTimes && id !in s.failTimes ==> Known(env, result, id))
      && (forall id :: id in s.progressRows && id in env.store.criteria ==> id in t.progressRows)
    decreases |result|
  {
    hide LoadCounter, Restored, RowFits, Known;
    if result != [] {
      var s1 := LoadCounter(env, s, result[0]);
      LoadCounterEffect(env, s, result[0]);
      forall i | 0 <= i < |result[1..]|
        ensures RowFits(env, result[1..][i]) && result[1..][i].id !in s1.progress && result[1..][i].id !in s1.failTimes
      {
        assert result[1..][i] == result[i + 1];
      }
      LoadCountersRestores(env, s1, result[1..]);
      var t := LoadCounters(env, s, result);
      if result[0].id in env.store.criteria {
        KnownRow(env, s1, result[0]);
        NotLater(env, result);
        RestoredStays(env, s1, t, result[0]);
      }
      forall id | Known(env, result[1..], id) || (id == result[0].id && id in env.store.criteria)
        ensures Known(env, result, id)
      {
        KnownLater(env, result, id);
      }
      forall i | 0 <= i < |result| && result[i].id in env.store.criteria ensures Restored(env, t, result[i]) {
        if i > 0 { assert result[1..][i - 1] == result[i]; }
      }
    }
  }

  lemma CompletionsLoaded(env: Env, s: State, completions: seq<CompletionRow>)
    requires env.store.Valid() && s.rows.Keys <= env.store.achievements.Keys && Lists(completions, s.rows)
    ensures var t := LoadCompleted(env.store, EMPTY.(rows := s.rows, progressRows := s.progressRows), completions);
      && t.progress == map[] && t.failTimes == map[] && t.rows == s.rows && t.progressRows == s.progressRows
      && t.completed == (map id | id in s.rows :: Completion(s.rows[id], false))
      && PointsAreSum(env, t)
  {
    hide PointsAreSum;
    LoadTables(env.store, EMPTY, s.rows, s.progressRows, completions);
    LoadRestores(env, s.rows, completions);
    LoadLeaves(env.store, EMPTY, completions);
    SamePoints(env, LoadCompleted(env.store, EMPTY, completions), s.rows, s.progressRows);
  }

  lemma SamePoints(env: Env, s: State, rows: map<nat, int>, progressRows: map<nat, ProgressRow>)
    ensures PointsAreSum(env, s) == PointsAreSum(env, s.(rows := rows, progressRows := progressRows))
  {
  }

  /** Loading achievements neither reads nor writes the tables. */
  lemma {:induction false} LoadTables(store: Store, s: State, rows: map<nat, int>, progressRows: map<nat,
                                      ProgressRow>, result: seq<CompletionRow>)
    requires store.Valid()
    ensures LoadCompleted(store, s.(rows := rows, progressRows := progressRows), result)
            == LoadCompleted(store, s, result).(rows := rows, progressRows := progressRows)
    decreases |result|
  {
    if result != [] {
      var row := result[0];
      var s1 :=
        if row.id !in store.achievements then s
        else s.(completed := s.completed[row.id := Completion(row.date, false)],
                points := (s.points + store.achievements[row.id].points) % UINT32_SIZE);
      LoadTables(store, s1, rows, progressRows, result[1..]);
    }
  }

  lemma {:induction false} LoadLeaves(store: Store, s: State, result: seq<CompletionRow>)
    requires store.Valid()
    ensures var t := LoadCompleted(store, s, result); t.progress == s.progress && t.failTimes == s.failTimes
    decreases |result|
  {
    if result != [] {
      var row := result[0];
      var s1 :=
        if row.id !in store.achievements then s
        else s.(completed := s.completed[row.id := Completion(row.date, false)],
                points := (s.points + store.achievements[row.id].points) % UINT32_SIZE);
      LoadLeaves(store, s1, result[1..]);
    }
  }

  /** What a new manager holds: exactly the stored achievements and the stored counters of known
      criteria, in bounds, with the timers of the open ones. */
  lemma RestartRestores(env: Env, s: State, completions: seq<CompletionRow>, counters: seq<CounterRow>)
    requires env.store.Valid() && s.rows.Keys <= env.store.achievements.Keys && RowsBounded(env, s)
    requires Lists(completions, s.rows) && ListsCounters(counters, s.progressRows)
    ensures var t := LoadFromDB(env, s, completions, counters);
      && t.completed == (map id | id in s.rows :: Completion(s.rows[id], false)) && t.rows == s.rows
      && (forall id :: id in t.progressRows ==> id in s.progressRows && t.progressRows[id] == s.progressRows[id])
      && (forall i :: 0 <= i < |counters| && counters[i].id in env.store.criteria ==> Restored(env, t, counters[i]))
      && (forall id :: id in t.progress ==> Known(env, counters, id))
      && (forall id :: id in t.failTimes ==> Known(env, counters, id))
      && (forall id :: id in s.progressRows && id in env.store.criteria ==> id in t.progressRows)
      && PointsAreSum(env, t)
  {
    hide PointsAreSum, LoadCompleted, LoadCounters, Restored, Lists;
    CompletionsLoaded(env, s, completions);
    var s1 := LoadCompleted(env.store, EMPTY.(rows := s.rows, progressRows := s.progressRows), completions);
    LoadCountersRestores(env, s1, counters);
    SamePointsLoaded(env, s1, LoadCounters(env, s1, counters));
  }

  lemma SamePointsLoaded(env: Env, s: State, t: State)
    requires t.completed == s.completed && t.points == s.points
    ensures PointsAreSum(env, s) == PointsAreSum(env, t)
  {
  }

  /** Hence a new manager is consistent again: counters in bounds, rows in step, a record for
      every timer. */
  lemma RestartConsistent(env: Env, s: State, completions: seq<CompletionRow>, counters: seq<CounterRow>)
    requires env.store.Valid() && s.rows.Keys <= env.store.achievements.Keys && RowsBounded(env, s)
    requires Lists(completions, s.rows) && ListsCounters(counters, s.progressRows)
    ensures var t := LoadFromDB(env, s, completions, counters);
      && InStore(env, t) && Bounded(env, t) && RowsMatch(t) && RowsBounded(env, t) && TimersHaveRecords(t)
  {
    hide PointsAreSum, LoadFromDB, Lists;
    RestartRestores(env, s, completions, counters);
    var t := LoadFromDB(env, s, completions, counters);
    forall id | Known(env, counters, id)
      ensures id in t.progress && id in s.progressRows && id in t.progressRows
      ensures !t.progress[id].changed && t.progressRows[id] == ProgressRow(t.progress[id].counter, t.progress[id].date)
    {
      var i :| 0 <= i < |counters| && counters[i].id == id;
      assert Restored(env, t, counters[i]);
    }
    forall c | env.store.HasCriterion(c) ensures Counter(t, c) <= MaxCounter(c, env.store.Owner(c)) {
      if c.id in t.progress { assert Known(env, counters, c.id); }
    }
  }

  /** Save and come back: every achievement with its date, every nonzero counter with its date. */
  lemma SaveThenRestart(env: Env, s: State, completions: seq<CompletionRow>, counters: seq<CounterRow>)
    requires env.store.Valid() && InStore(env, s) && Bounded(env, s) && RowsMatch(s)
    requires var saved := SaveToDB(env.store, s);
      Lists(completions, saved.rows) && ListsCounters(counters, saved.progressRows)
    ensures var t := LoadFromDB(env, SaveToDB(env.store, s), completions, counters);
      && t.completed == SaveToDB(env.store, s).completed
      && (forall c :: env.store.HasCriterion(c) && Counter(s, c) != 0 ==>
        Counter(t, c) == Counter(s, c) && c.id in t.progress && t.progress[c.id].date == s.progress[c.id].date)
  {
    hide PointsAreSum, LoadFromDB, Lists;
    var saved := SaveToDB(env.store, s);
    SavedRows(env.store, s);
    SaveKeepsCounters(env, s);
    RestartRestores(env, saved, completions, counters);
    var t := LoadFromDB(env, saved, completions, counters);
    forall c | env.store.HasCriterion(c) && Counter(s, c) != 0
      ensures c.id in t.progress && t.progress[c.id].counter == Counter(s, c)
      ensures t.progress[c.id].date == s.progress[c.id].date
    {
      assert c.id in saved.progressRows;
      assert saved.progressRows[c.id] == ProgressRow(s.progress[c.id].counter, s.progress[c.id].date);
      var i :| 0 <= i < |counters| && counters[i].id == c.id;
      assert Restored(env, t, counters[i]);
    }
  }

  lemma SaveKeepsCounters(env: Env, s: State)
    requires env.store.Valid() && Bounded(env, s)
    ensures Bounded(env, SaveToDB(env.store, s))
    ensures forall c: Criterion :: Counter(SaveToDB(env.store, s), c) == Counter(s, c)
  {
    var t := SaveToDB(env.store, s);
    forall id | id in t.progressRows && id in env.store.criteria
      ensures t.progressRows[id].counter <= MaxCounter(env.store.criteria[id], env.store.Owner(env.store.criteria[id]))
    {
      if id in s.progress && s.progress[id].changed {
        assert env.store.HasCriterion(env.store.criteria[id]);
        assert t.progressRows[id].counter == Counter(s, env.store.criteria[id]);
      }
    }
  }
}
