/** What comes back from the tables: after a save, after a reset, and from rows that nobody wrote. */
module AchievementTables {
  import opened AchievementStore
  import opened AchievementEngine
  import opened AchievementFixpoint
  import opened AchievementPersistence
  import opened AchievementRestart
  import opened AchievementCompletion
  import opened AchievementUpdates

  /** Save and come back, criterion by criterion: a record is lost exactly if it is 0 and either
      changed and without a time limit, or unchanged and not stored.  Every other record comes back
      with its counter and date, and the timer of one that is not satisfied runs from that date. */
  lemma RecordComesBack(env: Env, s: State, completions: seq<CompletionRow>, counters: seq<CounterRow>, c: Criterion)
    requires env.store.Valid() && InStore(env, s) && Bounded(env, s) && RowsMatch(s)
    requires var saved := SaveToDB(env.store, s);
      Lists(completions, saved.rows) && ListsCounters(counters, saved.progressRows)
    requires env.store.HasCriterion(c) && c.id in s.progress
    ensures var t := LoadFromDB(env, SaveToDB(env.store, s), completions, counters);
      var a := env.store.Owner(c); var was := s.progress[c.id];
      if was.counter == 0 && (if was.changed then c.timeLimit == 0
          else c.id !in s.progressRows) then c.id !in t.progress && c.id !in t.failTimes
      else
        && c.id in t.progress && t.progress[c.id].counter == was.counter && t.progress[c.id].date == was.date
        && (c.id in t.failTimes <==> c.timeLimit != 0 && (a.counter || !Satisfied(env, t, a, c)))
        && (c.id in t.failTimes ==> t.failTimes[c.id] == was.date + c.timeLimit)
  {
    hide PointsAreSum, LoadFromDB, Lists, Restored, Known, Satisfied, IsCompletedCriteria;
    var saved := SaveToDB(env.store, s);
    SavedRows(env.store, s);
    SaveKeepsCounters(env, s);
    RestartRestores(env, saved, completions, counters);
    var t := LoadFromDB(env, saved, completions, counters);
    if c.id in saved.progressRows {
      var i :| 0 <= i < |counters| && counters[i].id == c.id;
      RestoredMeans(env, t, counters[i], c);
    } else {
      NotKnown(env, saved.progressRows, counters, c.id);
    }
  }

  lemma NotKnown(env: Env, rows: map<nat, ProgressRow>, counters: seq<CounterRow>, id: nat)
    requires ListsCounters(counters, rows) && id !in rows
    ensures !Known(env, counters, id)
  {
  }

  lemma RestoredMeans(env: Env, t: State, row: CounterRow, c: Criterion)
    requires env.store.Valid() && env.store.HasCriterion(c) && row.id == c.id && Restored(env, t, row)
    ensures var a := env.store.Owner(c);
      && c.id in t.progress && t.progress[c.id].counter == row.counter && t.progress[c.id].date == row.date
      && (c.id in t.failTimes <==> c.timeLimit != 0 && (a.counter || !Satisfied(env, t, a, c)))
      && (c.id in t.failTimes ==> t.failTimes[c.id] == row.date + c.timeLimit)
  {
  }

  /** A counter row is loaded as it stands, cut to the largest counter if it is above that, and
      then marked to be written again. */
  lemma RowIsCut(env: Env, s: State, row: CounterRow)
    requires env.store.Valid() && row.id in env.store.criteria
    ensures var c := env.store.criteria[row.id]; var cap := Cap(c, env.store.Owner(c));
      var t := LoadCounter(env, s, row);
      && row.id in t.progress && t.progress[row.id].date == row.date
      && t.progress[row.id].counter == (if cap != 0 then Smaller(row.counter, cap) else row.counter)
      && (t.progress[row.id].changed <==> cap != 0 && row.counter > cap)
  {
    hide IsCompletedCriteria;
  }

  // ----- rows of unknown criteria -----

  lemma {:induction false} UnknownGo(env: Env, s: State, counters: seq<CounterRow>)
    requires env.store.Valid()
    ensures var t := LoadCounters(env, s, counters);
      && t.progressRows.Keys <= s.progressRows.Keys
      && forall i :: 0 <= i < |counters| && counters[i].id !in env.store.criteria ==> counters[i].id !in t.progressRows
    decreases |counters|
  {
    if counters != [] {
      var s1 := LoadCounter(env, s, counters[0]);
      OneRowGoes(env, s, counters[0]);
      UnknownGo(env, s1, counters[1..]);
      var t := LoadCounters(env, s1, counters[1..]);
      forall i | 0 <= i < |counters| && counters[i].id !in env.store.criteria
        ensures counters[i].id !in t.progressRows
      {
        if i > 0 { assert counters[1..][i - 1] == counters[i]; }
      }
    }
  }

  lemma OneRowGoes(env: Env, s: State, row: CounterRow)
    requires env.store.Valid()
    ensures var t := LoadCounter(env, s, row);
      && t.progressRows.Keys <= s.progressRows.Keys && (row.id !in env.store.criteria ==> row.id !in t.progressRows)
  {
    hide IsCompletedCriteria;
  }

  /** A start deletes the rows of unknown criteria and no others. */
  lemma UnknownRowsGo(env: Env, s: State, completions: seq<CompletionRow>, counters: seq<CounterRow>, id: nat)
    requires env.store.Valid() && s.rows.Keys <= env.store.achievements.Keys && RowsBounded(env, s)
    requires Lists(completions, s.rows) && ListsCounters(counters, s.progressRows)
    ensures var t := LoadFromDB(env, s, completions, counters);
      && (id in t.progressRows <==> id in s.progressRows && id in env.store.criteria)
      && (id in t.progressRows ==> t.progressRows[id] == s.progressRows[id])
  {
    hide PointsAreSum, LoadCompleted, LoadCounters, Restored, Lists, Known;
    RestartRestores(env, s, completions, counters);
    var s1 := LoadCompleted(env.store, EMPTY.(rows := s.rows, progressRows := s.progressRows), completions);
    UnknownGo(env, s1, counters);
    if id in s.progressRows && id !in env.store.criteria {
      var i :| 0 <= i < |counters| && counters[i].id == id;
      assert counters[i].id !in env.store.criteria;
    }
  }

  // ----- after a reset -----

  /** A reset leaves nothing in the tables either: a restart right after it starts from nothing. */
  lemma ResetForgets(env: Env, s: State, completions: seq<CompletionRow>, counters: seq<CounterRow>)
    requires env.store.Valid()
    requires Lists(completions, ResetState(s).rows) && ListsCounters(counters, ResetState(s).progressRows)
    ensures LoadFromDB(env, ResetState(s), completions, counters) == EMPTY
  {
    if completions != [] { NotListed(completions); }
    if counters != [] { NoCounters(counters); }
  }

  lemma NotListed(completions: seq<CompletionRow>)
    requires completions != []
    ensures !Lists(completions, map[])
  {
    var first := completions[0];
  }

  lemma NoCounters(counters: seq<CounterRow>)
    requires counters != []
    ensures !ListsCounters(counters, map[])
  {
    var first := counters[0];
  }
}
