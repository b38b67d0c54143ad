/** Whole runs of one player's AchievementMgr: any sequence of updates, counter resets, saves,
    timer events, full resets and restarts from the tables, each at its own time. */
module AchievementRuns {
  import opened AchievementStore
  import opened AchievementEngine
  import opened AchievementFixpoint
  import opened AchievementCascade
  import opened AchievementLowering
  import opened AchievementPersistence
  import opened AchievementRestart

  datatype Action =
    | UpdateAction(update: Update)
    | SetAction(criterion: nat, value: nat)
    | SaveAction
    | StartAction(requiredType: nat, miscId: nat, startTime: int, grouped: bool)
    | FailAction
    | ResetAction(refill: seq<Update>)
    | RestartAction(completions: seq<CompletionRow>, counters: seq<CounterRow>)

  datatype Event = Event(now: int, realmTaken: set<nat>, action: Action)

  function At(store: Store, horde: bool, e: Event): Env {
    Env(store, horde, e.now, e.realmTaken)
  }

  function Step(store: Store, horde: bool, s: State, e: Event): State
    requires store.Valid()
  {
    var env := At(store, horde, e);
    match e.action
    case UpdateAction(u) => UpdateAchievementCriteria(env, s, u)
    case SetAction(id, value) =>
      if id in store.criteria then SetCriteriaProgress(env, s, store.criteria[id], value, ProgressSet) else s
    case SaveAction => SaveToDB(store, s)
    case StartAction(t, miscId, startTime, grouped) =>
      StartList(env, s, store.CriteriaByType(t), miscId, startTime, grouped)
    case FailAction => FailTimers(env, s)
    case ResetAction(refill) => Refill(env, ResetState(s), refill)
    case RestartAction(completions, counters) => LoadFromDB(env, s, completions, counters)
  }

  function Run(store: Store, horde: bool, events: seq<Event>): State
    requires store.Valid()
  {
    if events == [] then EMPTY
    else Step(store, horde, Run(store, horde, events[..|events| - 1]), events[|events| - 1])
  }

  // ----- what holds in every run -----

  /** The queries of a restart list the tables as they are. */
  ghost predicate Faithful(store: Store, horde: bool, events: seq<Event>)
    requires store.Valid()
  {
    events == [] || (
      var e, before := events[|events| - 1], events[..|events| - 1];
      Faithful(store, horde, before)
      && (e.action.RestartAction? ==>
        Lists(e.action.completions, Run(store, horde, before).rows)
        && ListsCounters(e.action.counters, Run(store, horde, before).progressRows)))
  }

  /** Counters stay in bounds, stored rows match, held ids exist; `timed`: timers have records. */
  ghost predicate Consistent(env: Env, s: State, timed: bool)
    requires env.store.Valid()
  {
    InStore(env, s) && Bounded(env, s) && RowsMatch(s) && (timed ==> TimersHaveRecords(s))
  }

  /** Writing one counter in any way keeps the state consistent. */
  lemma SetConsistent(env: Env, timed: bool, s: State, c: Criterion, change: nat, ptype: ProgressType)
    requires env.store.Valid() && env.store.HasCriterion(c) && Consistent(env, s, timed)
    ensures Consistent(env, SetCriteriaProgress(env, s, c, change, ptype), timed)
  {
    hide RowsMatch, TimersHaveRecords;
    if ptype == ProgressSet && Lowers(env, s, c, change, ptype) {
      var value := Min(change, MaxCounter(c, env.store.Owner(c)));
      assert SetCriteriaProgress(env, s, c, change, ptype)
          == AfterChange(env, Record(env, s, c, value), c, Counter(s, c), value);
      LoweredConsistent(env, timed, s, c, value);
    } else {
      SetCriteriaProgressKeeps(env, s, c, change, ptype);
    }
  }

  lemma LoweredConsistent(env: Env, timed: bool, s: State, c: Criterion, value: nat)
    requires env.store.Valid() && env.store.HasCriterion(c) && Consistent(env, s, timed) && value < Counter(s, c)
    ensures Consistent(env, AfterChange(env, Record(env, s, c, value), c, Counter(s, c), value), timed)
  {
    hide AfterChange, RowsMatch;
    LoweredLeaves(env, s, c, value);
    var t := AfterChange(env, Record(env, s, c, value), c, Counter(s, c), value);
    forall d | env.store.HasCriterion(d) ensures Counter(t, d) <= Counter(s, d) { assert d.id == c.id ==> d == c; }
  }

  lemma {:induction false} ListConsistent(env: Env, timed: bool, s: State, list: seq<Criterion>, u: Update)
    requires env.store.Valid() && u.OtherUpdate? && Consistent(env, s, timed)
    requires forall c :: c in list ==> env.store.HasCriterion(c)
    ensures Consistent(env, UpdateList(env, s, list, u), timed)
    decreases |list|
  {
    hide Consistent, SetCriteriaProgress;
    if list != [] {
      var c := list[0];
      var a := env.store.Owner(c);
      if FactionAllows(env, a) && !IsCompletedCriteria(env, s, c, a) && Decide(s, c, u).Change? {
        SetConsistent(env, timed, s, c, Decide(s, c, u).value, Decide(s, c, u).ptype);
      }
      ListConsistent(env, timed, UpdateOne(env, s, c, u), list[1..], u);
    }
  }

  lemma UpdateConsistent(env: Env, timed: bool, s: State, u: Update)
    requires env.store.Valid() && Consistent(env, s, timed)
    ensures Consistent(env, UpdateAchievementCriteria(env, s, u), timed)
  {
    var list := env.store.CriteriaByType(u.Type());
    if u.OtherUpdate? {
      ListConsistent(env, timed, s, list, u);
    } else {
      UpdateListKeeps(env, s, list, u);
    }
  }

  lemma SaveConsistent(env: Env, timed: bool, s: State)
    requires env.store.Valid() && Consistent(env, s, timed)
    ensures Consistent(env, SaveToDB(env.store, s), timed)
  {
    hide RowsMatch, Bounded;
    SaveMatches(env.store, s);
    SaveKeepsCounters(env, s);
  }

  lemma {:induction false} StartConsistent(env: Env, timed: bool, s: State, list: seq<Criterion>, miscId: nat,
                                           startTime: int, grouped: bool)
    requires env.store.Valid() && Consistent(env, s, timed)
    requires forall c :: c in list ==> env.store.HasCriterion(c)
    ensures Consistent(env, StartList(env, s, list, miscId, startTime, grouped), timed)
    decreases |list|
  {
    hide Consistent, StartOne;
    if list != [] {
      StartOneConsistent(env, timed, s, list[0], miscId, startTime, grouped);
      var s1 := StartOne(env, s, list[0], miscId, startTime, grouped);
      StartConsistent(env, timed, s1, list[1..], miscId, startTime, grouped);
    }
  }

  lemma StartOneConsistent(env: Env, timed: bool, s: State, c: Criterion, miscId: nat, startTime: int, grouped: bool)
    requires env.store.Valid() && Consistent(env, s, timed) && env.store.HasCriterion(c)
    ensures Consistent(env, StartOne(env, s, c, miscId, startTime, grouped), timed)
  {
    var t := StartOne(env, s, c, miscId, startTime, grouped);
    assert t.completed == s.completed && t.rows == s.rows && t.progressRows == s.progressRows;
    assert forall c' :: Counter(t, c') <= Counter(s, c');
    hide StartOne, FactionAllows;
  }

  lemma FailConsistent(env: Env, timed: bool, s: State)
    requires env.store.Valid() && Consistent(env, s, timed)
    ensures Consistent(env, FailTimers(env, s), timed)
  {
    var t := FailTimers(env, s);
    assert t.completed == s.completed && t.rows == s.rows;
    assert forall c :: Counter(t, c) <= Counter(s, c);
  }

  lemma ResetConsistent(env: Env, timed: bool, s: State, refill: seq<Update>)
    requires env.store.Valid() && Consistent(env, s, timed)
    ensures Consistent(env, Refill(env, ResetState(s), refill), false)
  {
    hide Refill;
    ResetIsConsistent(env, s, timed);
    RefillConsistent(env, ResetState(s), refill);
  }

  lemma {:induction false} RefillConsistent(env: Env, s: State, updates: seq<Update>)
    requires env.store.Valid() && Consistent(env, s, false)
    ensures Consistent(env, Refill(env, s, updates), false)
    decreases |updates|
  {
    hide Consistent, UpdateAchievementCriteria;
    if updates != [] {
      UpdateConsistent(env, false, s, updates[0]);
      RefillConsistent(env, UpdateAchievementCriteria(env, s, updates[0]), updates[1..]);
    }
  }

  ghost predicate NeverReset(events: seq<Event>) {
    forall i :: 0 <= i < |events| ==> !events[i].action.ResetAction?
  }

  /** After any run whatever: counters and stored counters are bounded, and the table of
      achievements has a row exactly for the held achievements not marked changed.  Without a full
      reset every timer has its record, so that its expiry finds what it asserts. */
  lemma {:induction false} RunConsistent(store: Store, horde: bool, events: seq<Event>, env: Env)
    requires store.Valid() && env.store == store && Faithful(store, horde, events)
    ensures Consistent(env, Run(store, horde, events), NeverReset(events))
    ensures NeverReset(events) ==> FailureAssertHolds(env, Run(store, horde, events))
  {
    if events != [] {
      var e := events[|events| - 1];
      var at := At(store, horde, e);
      var before := events[..|events| - 1];
      RunConsistent(store, horde, before, at);
      assert NeverReset(events) <==> NeverReset(before) && !e.action.ResetAction?;
      StepConsistent(store, horde, Run(store, horde, before), e, NeverReset(before));
    }
  }

  lemma StepConsistent(store: Store, horde: bool, s: State, e: Event, timed: bool)
    requires store.Valid() && Consistent(At(store, horde, e), s, timed)
    requires e.action.RestartAction? ==>
      Lists(e.action.completions, s.rows) && ListsCounters(e.action.counters, s.progressRows)
    ensures Consistent(At(store, horde, e), Step(store, horde, s, e), timed && !e.action.ResetAction?)
  {
    hide Consistent, UpdateAchievementCriteria, SetCriteriaProgress, SaveToDB, StartList, FailTimers, LoadFromDB;
    var at := At(store, horde, e);
    match e.action {
      case UpdateAction(u) => UpdateConsistent(at, timed, s, u);
      case SetAction(id, value) =>
        if id in store.criteria { SetConsistent(at, timed, s, store.criteria[id], value, ProgressSet); }
      case SaveAction => SaveConsistent(at, timed, s);
      case StartAction(t, miscId, startTime, grouped) =>
        StartConsistent(at, timed, s, store.CriteriaByType(t), miscId, startTime, grouped);
      case FailAction => FailConsistent(at, timed, s);
      case ResetAction(refill) => ResetConsistent(at, timed, s, refill);
      case RestartAction(completions, counters) => ReloadConsistent(at, timed, s, completions, counters);
    }
  }

  lemma ReloadConsistent(env: Env, timed: bool, s: State, completions: seq<CompletionRow>, counters: seq<CounterRow>)
    requires env.store.Valid() && Consistent(env, s, timed)
    requires Lists(completions, s.rows) && ListsCounters(counters, s.progressRows)
    ensures Consistent(env, LoadFromDB(env, s, completions, counters), timed)
  {
    assert s.rows.Keys <= env.store.achievements.Keys;
    hide LoadFromDB, Lists, ListsCounters;
    RestartConsistent(env, s, completions, counters);
  }

  // ----- the fixpoint, in runs without explicit timer events -----

  /** Updates, saves, and counters set by hand on criteria of the ordinary types. */
  ghost predicate Ordinary(store: Store, e: Event) {
    match e.action
    case UpdateAction(u) => WellFormed(u)
    case SetAction(id, _) =>
      id in store.criteria ==>
        && store.criteria[id].requiredType != TYPE_COMPLETE_ACHIEVEMENT
        && store.criteria[id].requiredType != TYPE_EARN_ACHIEVEMENT_POINTS
    case SaveAction => true
    case _ => false
  }

  /** Realm-first places, once taken, stay taken. */
  ghost predicate RealmGrows(events: seq<Event>) {
    forall i, j :: 0 <= i <= j < |events| ==> events[i].realmTaken <= events[j].realmTaken
  }

  lemma SetGood(env: Env, s: State, c: Criterion, change: nat, ptype: ProgressType)
    requires env.store.Valid() && env.store.HasCriterion(c) && ReferencesReport(env.store) && CapsFit(env.store)
    requires Good(env, s)
    requires c.requiredType != TYPE_COMPLETE_ACHIEVEMENT && c.requiredType != TYPE_EARN_ACHIEVEMENT_POINTS
    ensures Good(env, SetCriteriaProgress(env, s, c, change, ptype))
  {
    hide AllCounted, IsCompletedAchievement;
    if ptype == ProgressSet && Lowers(env, s, c, change, ptype) {
      var value := Min(change, MaxCounter(c, env.store.Owner(c)));
      assert SetCriteriaProgress(env, s, c, change, ptype)
          == AfterChange(env, Record(env, s, c, value), c, Counter(s, c), value);
      LoweredGood(env, s, c, value);
    } else {
      SetCriteriaProgressKeeps(env, s, c, change, ptype);
      KeepsGood(env, s, SetCriteriaProgress(env, s, c, change, ptype));
    }
  }

  lemma {:induction false} ListGood(env: Env, s: State, list: seq<Criterion>, u: Update)
    requires env.store.Valid() && ReferencesReport(env.store) && CapsFit(env.store)
    requires u.OtherUpdate? && WellFormed(u) && Good(env, s)
    requires forall c :: c in list ==> env.store.HasCriterion(c) && c.requiredType == u.Type()
    ensures Good(env, UpdateList(env, s, list, u))
    decreases |list|
  {
    hide Good, SetCriteriaProgress, ReferencesReport, CapsFit;
    if list != [] {
      var c := list[0];
      var a := env.store.Owner(c);
      if FactionAllows(env, a) && !IsCompletedCriteria(env, s, c, a) && Decide(s, c, u).Change? {
        SetGood(env, s, c, Decide(s, c, u).value, Decide(s, c, u).ptype);
      }
      ListGood(env, UpdateOne(env, s, c, u), list[1..], u);
    }
  }

  lemma UpdateGood(env: Env, s: State, u: Update)
    requires env.store.Valid() && ReferencesReport(env.store) && CapsFit(env.store)
    requires WellFormed(u) && Good(env, s)
    ensures Good(env, UpdateAchievementCriteria(env, s, u))
  {
    var list := env.store.CriteriaByType(u.Type());
    hide Good, UpdateList, Keeps, CapsFit, ReferencesReport;
    if u.OtherUpdate? {
      ListGood(env, s, list, u);
    } else {
      UpdateListKeeps(env, s, list, u);
      KeepsGood(env, s, UpdateList(env, s, list, u));
    }
  }

  /** Nothing the achievements depend on is touched by a save. */
  lemma SaveGood(env: Env, s: State)
    requires env.store.Valid() && Good(env, s)
    ensures Good(env, SaveToDB(env.store, s))
  {
    var t := SaveToDB(env.store, s);
    SaveKeepsCounters(env, s);
    assert t.completed.Keys == s.completed.Keys && t.points == s.points;
    hide SaveToDB, Bounded;
    forall a | env.store.Has(a)
      ensures Settled(env, s, a) ==> Settled(env, t, a)
      ensures Sound(env, s, a) ==> Sound(env, t, a)
    {
      CompletionFrame(env, s, t, a);
    }
  }

  /** A realm-first place that gets taken can only make its achievement incomplete. */
  lemma LaterCompletion(env: Env, env': Env, s: State, a: Achievement)
    requires env.store.Valid() && env'.store == env.store && env.realmTaken <= env'.realmTaken && env.store.Has(a)
    ensures IsCompletedAchievement(env', s, a) ==> IsCompletedAchievement(env, s, a)
    ensures !a.realmFirst && IsCompletedAchievement(env, s, a) ==> IsCompletedAchievement(env', s, a)
  {
    var list := env.store.CriteriaByAchievement(TestId(a));
    if !a.summ && EnoughCompleted(env', s, a, list, 0, true) {
      EnoughMonotone(env', env, s, s, a, list, 0, 0, true, true);
    }
    if !a.summ && !a.realmFirst && EnoughCompleted(env, s, a, list, 0, true) {
      EnoughMonotone(env, env', s, s, a, list, 0, 0, true, true);
    }
  }

  /** Time passes and realm-first places get taken between events. */
  lemma LaterGood(env: Env, env': Env, s: State)
    requires env.store.Valid() && env'.store == env.store && env'.horde == env.horde
    requires env.realmTaken <= env'.realmTaken && Good(env, s)
    ensures Good(env', s)
  {
    forall a | env.store.Has(a)
      ensures Settled(env', s, a)
      ensures !a.realmFirst ==> Sound(env', s, a)
    {
      LaterCompletion(env, env', s, a);
      assert Settled(env, s, a);
    }
    hide IsCompletedAchievement;
    assert forall c, t :: Eligible(env', c, t) ==> Eligible(env, c, t);
  }

  lemma EmptyGood(env: Env)
    requires env.store.Valid()
    ensures Good(env, EMPTY)
  {
    forall a | env.store.Has(a)
      ensures !IsCompletedAchievement(env, EMPTY, a)
    {
      var list := env.store.CriteriaByAchievement(TestId(a));
      if list != [] {
        NothingReached(list, 0);
        NotEnough(env, a, list, true);
      }
    }
  }

  lemma {:induction false} NothingReached(list: seq<Criterion>, total: nat)
    ensures !SummReached(EMPTY, list, total)
  {
    if list != [] { NothingReached(list[1..], total); }
  }

  lemma {:induction false} NotEnough(env: Env, a: Achievement, list: seq<Criterion>, all: bool)
    requires !all || list != []
    ensures !EnoughCompleted(env, EMPTY, a, list, 0, all)
  {
    if list != [] { NotEnough(env, a, list[1..], false); }
  }

  /** After every event of an ordinary run the held achievements are exactly the complete
      ones, and every meta and points criterion of the player has been brought up to date. */
  lemma {:induction false} RunGood(store: Store, horde: bool, events: seq<Event>, env: Env)
    requires store.Valid() && ReferencesReport(store) && CapsFit(store)
    requires RealmGrows(events) && forall i :: 0 <= i < |events| ==> Ordinary(store, events[i])
    requires env.store == store && env.horde == horde
    requires events != [] ==> events[|events| - 1].realmTaken <= env.realmTaken
    ensures Good(env, Run(store, horde, events))
  {
    hide Good, CapsFit, ReferencesReport, UpdateAchievementCriteria, SetCriteriaProgress, SaveToDB;
    if events == [] {
      EmptyGood(env);
    } else {
      var e := events[|events| - 1];
      var at := At(store, horde, e);
      var before := events[..|events| - 1];
      var s := Run(store, horde, before);
      RunGood(store, horde, before, at);
      match e.action {
        case UpdateAction(u) => UpdateGood(at, s, u);
        case SetAction(id, value) =>
          if id in store.criteria { SetGood(at, s, store.criteria[id], value, ProgressSet); }
        case SaveAction => SaveGood(at, s);
      }
      LaterGood(at, env, Run(store, horde, events));
    }
  }

  /** The fixpoint, spelled out. */
  lemma HeldIsComplete(store: Store, horde: bool, events: seq<Event>, env: Env)
    requires store.Valid() && ReferencesReport(store) && CapsFit(store)
    requires RealmGrows(events) && forall i :: 0 <= i < |events| ==> Ordinary(store, events[i])
    requires env.store == store && env.horde == horde
    requires events != [] ==> events[|events| - 1].realmTaken <= env.realmTaken
    requires forall a :: store.Has(a) ==> !a.realmFirst
    ensures var s := Run(store, horde, events);
      && (forall id :: id in s.completed <==>
          id in store.achievements && IsCompletedAchievement(env, s, store.achievements[id]))
      && (forall c :: Eligible(env, c, TYPE_COMPLETE_ACHIEVEMENT) && c.value in s.completed ==> Counter(s, c) >= 1)
  {
    RunGood(store, horde, events, env);
    var s := Run(store, horde, events);
    forall id | id in store.achievements
      ensures id in s.completed <==> IsCompletedAchievement(env, s, store.achievements[id])
    {
      assert store.Has(store.achievements[id]);
    }
    assert forall c :: Eligible(env, c, TYPE_COMPLETE_ACHIEVEMENT) ==> LinkCounted(env, s, c);
  }

  // ----- runs that never set a counter outright: no bound on the store is needed -----

  /** Every complete achievement is held; a held one is complete while its own sum still fits. */
  ghost predicate Covered(env: Env, s: State)
    requires env.store.Valid()
  {
    && Bounded(env, s) && AllCounted(env, s)
    && (forall a :: env.store.Has(a) ==> Settled(env, s, a))
    && (forall a :: env.store.Has(a) && !a.realmFirst && Fits(env, s, a) ==> Sound(env, s, a))
  }

  lemma KeepsCovered(env: Env, s: State, t: State)
    requires env.store.Valid() && ReferencesReport(env.store) && Covered(env, s) && Keeps(env, s, t)
    ensures Covered(env, t)
  {
    hide PointsAreSum, RowsMatch, TimersHaveRecords, IsCompletedAchievement, LinkCounted, PointsCounted;
    forall a | env.store.Has(a) && !a.realmFirst && Fits(env, t, a)
      ensures Sound(env, t, a)
    {
      FitsMonotone(env, s, t, a);
      assert Sound(env, s, a);
    }
    forall a | env.store.Has(a)
      ensures Settled(env, t, a)
    {
      assert Settled(env, s, a);
    }
  }

  /** The achievements of a store judged by a state do not see tables and dates. */
  lemma SaveCovered(env: Env, s: State)
    requires env.store.Valid() && Covered(env, s)
    ensures Covered(env, SaveToDB(env.store, s))
  {
    var t := SaveToDB(env.store, s);
    SaveKeepsCounters(env, s);
    assert t.completed.Keys == s.completed.Keys && t.points == s.points;
    hide SaveToDB, Bounded;
    forall a | env.store.Has(a)
      ensures Settled(env, s, a) ==> Settled(env, t, a)
      ensures Fits(env, t, a) && Sound(env, s, a) ==> Sound(env, t, a)
      ensures Fits(env, t, a) ==> Fits(env, s, a)
    {
      CompletionFrame(env, s, t, a);
      if Fits(env, t, a) { SameTotal(s, t, env.store.CriteriaByAchievement(TestId(a))); }
    }
  }

  lemma {:induction false} SameTotal(s: State, t: State, list: seq<Criterion>)
    requires forall c :: Counter(t, c) == Counter(s, c)
    ensures Total(s, list) == Total(t, list)
  {
    if list != [] { SameTotal(s, t, list[1..]); }
  }

  lemma LaterCovered(env: Env, env': Env, s: State)
    requires env.store.Valid() && env'.store == env.store && env'.horde == env.horde
    requires env.realmTaken <= env'.realmTaken && Covered(env, s)
    ensures Covered(env', s)
  {
    forall a | env.store.Has(a)
      ensures Settled(env', s, a)
      ensures !a.realmFirst && Fits(env', s, a) ==> Sound(env', s, a)
    {
      LaterCompletion(env, env', s, a);
      assert Settled(env, s, a);
    }
    hide IsCompletedAchievement;
    assert forall c, t :: Eligible(env', c, t) ==> Eligible(env, c, t);
  }

  /** Updates without outright sets, and saves. */
  ghost predicate Raising(e: Event) {
    match e.action
    case UpdateAction(u) => WellFormed(u) && NeverSets(u)
    case SaveAction => true
    case _ => false
  }

  /** In a run of such events every complete achievement is held after each event, and every
      held achievement whose current sum fits is complete. */
  lemma {:induction false} RunCovered(store: Store, horde: bool, events: seq<Event>, env: Env)
    requires store.Valid() && ReferencesReport(store)
    requires RealmGrows(events) && forall i :: 0 <= i < |events| ==> Raising(events[i])
    requires env.store == store && env.horde == horde
    requires events != [] ==> events[|events| - 1].realmTaken <= env.realmTaken
    ensures Covered(env, Run(store, horde, events))
  {
    hide Covered, Good, ReferencesReport, Keeps, UpdateList, SaveToDB;
    if events == [] {
      EmptyGood(env);
      GoodCovered(env, EMPTY);
    } else {
      var e := events[|events| - 1];
      var at := At(store, horde, e);
      var before := events[..|events| - 1];
      var s := Run(store, horde, before);
      RunCovered(store, horde, before, at);
      CoveredBounded(at, s);
      match e.action {
        case UpdateAction(u) =>
          UpdateListKeeps(at, s, store.CriteriaByType(u.Type()), u);
          KeepsCovered(at, s, Run(store, horde, events));
        case SaveAction => SaveCovered(at, s);
      }
      LaterCovered(at, env, Run(store, horde, events));
    }
  }

  lemma GoodCovered(env: Env, s: State)
    requires env.store.Valid() && Good(env, s)
    ensures Covered(env, s)
  {
  }

  lemma CoveredBounded(env: Env, s: State)
    requires env.store.Valid() && Covered(env, s)
    ensures Bounded(env, s)
  {
  }

  // ----- points, in runs that never set a counter outright -----

  ghost predicate NoDowngrade(e: Event) {
    match e.action
    case UpdateAction(u) => NeverSets(u)
    case SetAction(_, _) => false
    case ResetAction(refill) => forall i :: 0 <= i < |refill| ==> NeverSets(refill[i])
    case _ => true
  }

  /** Without downgrades the points are the sum over the held achievements, each counted once. */
  lemma {:induction false} RunPoints(store: Store, horde: bool, events: seq<Event>, env: Env)
    requires store.Valid() && env.store == store && Faithful(store, horde, events)
    requires forall i :: 0 <= i < |events| ==> NoDowngrade(events[i])
    ensures PointsAreSum(env, Run(store, horde, events))
  {
    hide Step, Consistent, PointsAreSum;
    if events == [] {
      EmptyPoints(env);
    } else {
      var e := events[|events| - 1];
      var at := At(store, horde, e);
      var before := events[..|events| - 1];
      var s := Run(store, horde, before);
      RunPoints(store, horde, before, at);
      RunConsistent(store, horde, before, at);
      StepPoints(store, horde, s, e, NeverReset(before));
      SamePoints(at, env, Run(store, horde, events));
    }
  }

  lemma EmptyPoints(env: Env)
    ensures PointsAreSum(env, EMPTY)
  {
  }

  lemma SamePoints(env: Env, env': Env, s: State)
    requires env'.store == env.store && PointsAreSum(env, s)
    ensures PointsAreSum(env', s)
  {
  }

  lemma SameHeldPoints(env: Env, s: State, t: State)
    requires t.completed.Keys == s.completed.Keys && t.points == s.points && PointsAreSum(env, s)
    ensures PointsAreSum(env, t)
  {
  }

  lemma SavePoints(env: Env, s: State)
    requires PointsAreSum(env, s)
    ensures PointsAreSum(env, SaveToDB(env.store, s))
  {
    assert SaveToDB(env.store, s).completed.Keys == s.completed.Keys;
  }

  lemma FailPoints(env: Env, s: State)
    requires env.store.Valid() && PointsAreSum(env, s)
    ensures PointsAreSum(env, FailTimers(env, s))
  {
  }

  lemma ResetIsConsistent(env: Env, s: State, timed: bool)
    requires env.store.Valid() && Consistent(env, s, timed)
    ensures Consistent(env, ResetState(s), false)
  {
  }

  lemma StepPoints(store: Store, horde: bool, s: State, e: Event, timed: bool)
    requires store.Valid() && Consistent(At(store, horde, e), s, timed) && NoDowngrade(e)
    requires PointsAreSum(At(store, horde, e), s)
    requires e.action.RestartAction? ==>
      Lists(e.action.completions, s.rows) && ListsCounters(e.action.counters, s.progressRows)
    ensures PointsAreSum(At(store, horde, e), Step(store, horde, s, e))
  {
    hide Consistent, PointsAreSum, UpdateAchievementCriteria, StartList, LoadFromDB, Refill, Lists, ListsCounters,
        SaveToDB, FailTimers;
    var at := At(store, horde, e);
    match e.action {
      case UpdateAction(u) => UpdatePoints(at, s, u, timed);
      case SaveAction => SavePoints(at, s);
      case StartAction(t, miscId, startTime, grouped) =>
        StartLeavesHeld(at, s, store.CriteriaByType(t), miscId, startTime, grouped);
        SameHeldPoints(at, s, StartList(at, s, store.CriteriaByType(t), miscId, startTime, grouped));
      case FailAction => FailPoints(at, s);
      case ResetAction(refill) =>
        ResetIsConsistent(at, s, timed);
        EmptyPoints(at);
        SameHeldPoints(at, EMPTY, ResetState(s));
        RefillPoints(at, ResetState(s), refill);
      case RestartAction(completions, counters) =>
        WeakerConsistent(at, s, timed);
        ReloadPoints(at, s, completions, counters);
    }
  }

  lemma WeakerConsistent(env: Env, s: State, timed: bool)
    requires env.store.Valid() && Consistent(env, s, timed)
    ensures Consistent(env, s, false)
  {
  }

  lemma UpdatePoints(env: Env, s: State, u: Update, timed: bool)
    requires env.store.Valid() && Consistent(env, s, timed) && NeverSets(u) && PointsAreSum(env, s)
    ensures PointsAreSum(env, UpdateAchievementCriteria(env, s, u))
  {
    hide PointsAreSum, UpdateList, NeverSets;
    UpdateListKeeps(env, s, env.store.CriteriaByType(u.Type()), u);
  }

  lemma {:induction false} RefillPoints(env: Env, s: State, updates: seq<Update>)
    requires env.store.Valid() && Consistent(env, s, false) && PointsAreSum(env, s)
    requires forall i :: 0 <= i < |updates| ==> NeverSets(updates[i])
    ensures PointsAreSum(env, Refill(env, s, updates))
    decreases |updates|
  {
    hide Consistent, PointsAreSum, UpdateAchievementCriteria, NeverSets;
    if updates != [] {
      UpdateConsistent(env, false, s, updates[0]);
      UpdatePoints(env, s, updates[0], false);
      RefillPoints(env, UpdateAchievementCriteria(env, s, updates[0]), updates[1..]);
    }
  }

  lemma ReloadPoints(env: Env, s: State, completions: seq<CompletionRow>, counters: seq<CounterRow>)
    requires env.store.Valid() && Consistent(env, s, false)
    requires Lists(completions, s.rows) && ListsCounters(counters, s.progressRows)
    ensures PointsAreSum(env, LoadFromDB(env, s, completions, counters))
  {
    assert s.rows.Keys <= env.store.achievements.Keys;
    hide LoadFromDB, Lists, ListsCounters, PointsAreSum;
    RestartRestores(env, s, completions, counters);
  }

  lemma {:induction false} StartLeavesHeld(env: Env, s: State, list: seq<Criterion>, miscId: nat, startTime: int,
                                           grouped: bool)
    requires env.store.Valid() && forall c :: c in list ==> env.store.HasCriterion(c)
    ensures var t := StartList(env, s, list, miscId, startTime, grouped);
      t.completed == s.completed && t.points == s.points
    decreases |list|
  {
    if list != [] {
      var s1 := StartOne(env, s, list[0], miscId, startTime, grouped);
      StartLeavesHeld(env, s1, list[1..], miscId, startTime, grouped);
    }
  }
}
