/** AchievementMgr's update engine as functions from state to state.  The functions follow the
    calls of the methods one by one, including the re-entrant ones. */
module AchievementEngine {
  import opened AchievementStore

  function Min(a: nat, b: nat): nat { if a < b then a else b }

  /** GetCriteriaProgressMaxCounter. */
  function MaxCounter(c: Criterion, a: Achievement): nat {
    if a.counter then UINT32_MAX
    else if c.requiredType == TYPE_COMPLETE_ACHIEVEMENT then 1
    else if c.requiredType == TYPE_EARN_ACHIEVEMENT_POINTS then 9000
    else c.typeMax
  }

  function Counter(s: State, c: Criterion): nat {
    if c.id in s.progress then s.progress[c.id].counter else 0
  }

  predicate IsCompletedCriteria(env: Env, s: State, c: Criterion, a: Achievement) {
    && !a.counter
    && !(a.realmFirst && a.id in env.realmTaken)
    && c.id in s.progress
    && (s.progress[c.id].counter >= MaxCounter(c, a) || (a.reqCount && s.progress[c.id].counter != 0))
  }

  function TestId(a: Achievement): nat {
    if a.refAchievement != 0 then a.refAchievement else a.id
  }

  function TestCount(a: Achievement): nat {
    if a.id == 202 || a.id == 1502 then 1 else a.count
  }

  /** The SUMM loop; `total` is the uint32 running sum. */
  predicate SummReached(s: State, list: seq<Criterion>, total: nat) {
    if list == [] then false
    else if list[0].id in s.progress then
      var sum := (total + s.progress[list[0].id].counter) % UINT32_SIZE;
      sum >= list[0].count || SummReached(s, list[1..], sum)
    else SummReached(s, list[1..], total)
  }

  /** The default loop; `n` counts completed criteria, `all` says that none was missing so far. */
  predicate EnoughCompleted(env: Env, s: State, a: Achievement, list: seq<Criterion>, n: nat, all: bool) {
    if list == [] then all && TestCount(a) == 0
    else
      var done := IsCompletedCriteria(env, s, list[0], a);
      var n' := if done then n + 1 else n;
      (0 < TestCount(a) <= n') || EnoughCompleted(env, s, a, list[1..], n', all && done)
  }

  predicate IsCompletedAchievement(env: Env, s: State, a: Achievement)
    requires env.store.Valid()
  {
    var list := env.store.CriteriaByAchievement(TestId(a));
    && !a.counter
    && list != []
    && if a.summ then SummReached(s, list, 0) else EnoughCompleted(env, s, a, list, 0, true)
  }

  /** The new counter of an existing record; the subtraction and the sum are uint32. */
  function NewValue(before: nat, change: nat, max: nat, ptype: ProgressType): nat {
    match ptype
    case ProgressSet => change
    case ProgressAccumulate =>
      if (max - before) % UINT32_SIZE > change then (before + change) % UINT32_SIZE else max
    case ProgressHighest => if before < change then change else before
  }

  /** How many achievements of the store are still open: the measure of the recursion. */
  ghost function Open(env: Env, s: State): nat {
    |env.store.achievements.Keys - s.completed.Keys|
  }

  /** The state right after a counter was written, before anything depends on it. */
  function Record(env: Env, s: State, c: Criterion, value: nat): State {
    if c.id in s.progress then
      s.(progress := s.progress[c.id := s.progress[c.id].(counter := value, changed := true)])
    else
      s.(progress := s.progress[c.id := Progress(value, env.now, true, false)],
         failTimes := if c.timeLimit != 0 then s.failTimes[c.id := env.now + c.timeLimit] else s.failTimes)
  }

  function SetCriteriaProgress(env: Env, s: State, c: Criterion, change: nat, ptype: ProgressType): (t: State)
    requires env.store.Valid() && env.store.HasCriterion(c)
    ensures ptype == ProgressHighest ==> s.completed.Keys <= t.completed.Keys
    decreases 0, Open(env, s), 5, 0
  {
    var max := MaxCounter(c, env.store.Owner(c));
    var value := Min(change, max);
    if c.id !in s.progress then
      if value == 0 || c.ExplicitTimer() then s
      else AfterChange(env, Record(env, s, c, value), c, 0, value)
    else
      var before := s.progress[c.id].counter;
      var after := NewValue(before, value, max, ptype);
      if after == before then s else AfterChange(env, Record(env, s, c, after), c, before, after)
  }

  function AfterChange(env: Env, s: State, c: Criterion, before: nat, after: nat): (t: State)
    requires env.store.Valid() && env.store.HasCriterion(c) && before != after
    ensures before < after ==> s.completed.Keys <= t.completed.Keys
    decreases 0, Open(env, s), 4, 0
  {
    var a := env.store.Owner(c);
    if a.counter && !a.summ then s
    else if before < after then AfterRaise(env, s, c)
    else AfterLower(env, s, a)
  }

  function AfterRaise(env: Env, s: State, c: Criterion): (t: State)
    requires env.store.Valid() && env.store.HasCriterion(c)
    ensures s.completed.Keys <= t.completed.Keys
    decreases 0, Open(env, s), 3, 0
  {
    var a := env.store.Owner(c);
    var s1 := if IsCompletedCriteria(env, s, c, a) then CompletedCriteriaFor(env, s, a) else s;
    OpenShrinks(env, s, s1);
    var s2 := if a.summ && IsCompletedAchievement(env, s1, a) then CompletedAchievement(env, s1, a) else s1;
    OpenShrinks(env, s1, s2);
    CheckReferences(env, s2, env.store.References(a.id))
  }

  function CompletedCriteriaFor(env: Env, s: State, a: Achievement): (t: State)
    requires env.store.Valid() && env.store.Has(a)
    ensures s.completed.Keys <= t.completed.Keys
    decreases 0, Open(env, s), 2, 0
  {
    if a.counter || a.id in s.completed then s
    else if IsCompletedAchievement(env, s, a) then CompletedAchievement(env, s, a)
    else s
  }

  function CheckReferences(env: Env, s: State, list: seq<Achievement>): (t: State)
    requires env.store.Valid() && forall a :: a in list ==> env.store.Has(a)
    ensures s.completed.Keys <= t.completed.Keys
    decreases 0, Open(env, s), 2, |list|
  {
    if list == [] then s
    else
      var s1 := if IsCompletedAchievement(env, s, list[0]) then CompletedAchievement(env, s, list[0]) else s;
      OpenShrinks(env, s, s1);
      CheckReferences(env, s1, list[1..])
  }

  /** The state right after an achievement was entered, before the nested updates. */
  function Enter(env: Env, s: State, a: Achievement): State {
    s.(completed := s.completed[a.id := Completion(env.now, true)],
       points := (s.points + a.points) % UINT32_SIZE)
  }

  function CompletedAchievement(env: Env, s: State, a: Achievement): (t: State)
    requires env.store.Valid() && env.store.Has(a)
    ensures s.completed.Keys <= t.completed.Keys
    ensures !a.counter ==> a.id in t.completed
    decreases 0, Open(env, s), 1, 0
  {
    if a.counter || a.id in s.completed then s
    else
      var s1 := Enter(env, s, a);
      OpenDrops(env, s, s1, a.id);
      NestedUpdates(env, s1)
  }

  /** The two updates started by every completion. */
  function NestedUpdates(env: Env, s: State): (t: State)
    requires env.store.Valid()
    ensures s.completed.Keys <= t.completed.Keys
    decreases 0, Open(env, s), 8, 0
  {
    var s1 := UpdateList(env, s, env.store.CriteriaByType(TYPE_COMPLETE_ACHIEVEMENT), CompleteAchievementUpdate);
    OpenShrinks(env, s, s1);
    UpdateList(env, s1, env.store.CriteriaByType(TYPE_EARN_ACHIEVEMENT_POINTS), EarnPointsUpdate)
  }

  /** Does the player's team allow this achievement at all? */
  predicate FactionAllows(env: Env, a: Achievement) {
    !(a.faction == HordeOnly && !env.horde) && !(a.faction == AllianceOnly && env.horde)
  }

  /** The switch of UpdateAchievementCriteria. */
  function Decide(s: State, c: Criterion, u: Update): Outcome {
    match u
    case CompleteAchievementUpdate => if c.value in s.completed then Change(1, ProgressHighest) else Skip
    case EarnPointsUpdate => Change(s.points, ProgressHighest)
    case OtherUpdate(_, decisions) => if c.id in decisions then decisions[c.id] else Skip
  }

  /** One turn of the loop of UpdateAchievementCriteria. */
  function UpdateOne(env: Env, s: State, c: Criterion, u: Update): (t: State)
    requires env.store.Valid() && env.store.HasCriterion(c)
    ensures !u.OtherUpdate? ==> s.completed.Keys <= t.completed.Keys
    decreases 0, Open(env, s), 6, 0
  {
    var a := env.store.Owner(c);
    if !FactionAllows(env, a) || IsCompletedCriteria(env, s, c, a) then s
    else
      match Decide(s, c, u)
      case Skip => s
      case Change(value, ptype) => SetCriteriaProgress(env, s, c, value, ptype)
  }

  function UpdateList(env: Env, s: State, list: seq<Criterion>, u: Update): (t: State)
    requires env.store.Valid() && forall c :: c in list ==> env.store.HasCriterion(c)
    ensures !u.OtherUpdate? ==> s.completed.Keys <= t.completed.Keys
    decreases if u.OtherUpdate? then 1 else 0, if u.OtherUpdate? then |list| else Open(env, s), 7, |list|
  {
    if list == [] then s
    else
      var s1 := UpdateOne(env, s, list[0], u);
      if u.OtherUpdate? then UpdateList(env, s1, list[1..], u)
      else OpenShrinks(env, s, s1); UpdateList(env, s1, list[1..], u)
  }

  function UpdateAchievementCriteria(env: Env, s: State, u: Update): (t: State)
    requires env.store.Valid()
  {
    UpdateList(env, s, env.store.CriteriaByType(u.Type()), u)
  }

  // ----- criteria that lose progress -----

  function AfterLower(env: Env, s: State, a: Achievement): (t: State)
    requires env.store.Valid() && env.store.Has(a)
    ensures t.completed.Keys <= s.completed.Keys
  {
    Recheck(env, Recheck(env, s, [a]), env.store.References(a.id))
  }

  /** Each listed achievement that is held but no longer complete is taken back. */
  function Recheck(env: Env, s: State, list: seq<Achievement>): (t: State)
    requires env.store.Valid()
    ensures t.completed.Keys <= s.completed.Keys && t.progress == s.progress
    decreases |list|
  {
    if list == [] then s
    else
      var a := list[0];
      var s1 := if a.id in s.completed && !IsCompletedAchievement(env, s, a) then IncompletedAchievement(s, a) else s;
      Recheck(env, s1, list[1..])
  }

  function IncompletedAchievement(s: State, a: Achievement): State {
    if a.counter || a.id !in s.completed then s
    else
      s.(completed := s.completed - {a.id},
         rows := if s.completed[a.id].changed then s.rows else s.rows - {a.id})
  }

  // ----- the measure -----

  lemma OpenShrinks(env: Env, s: State, t: State)
    requires s.completed.Keys <= t.completed.Keys
    ensures Open(env, t) <= Open(env, s)
  {
    SubsetSize(env.store.achievements.Keys - t.completed.Keys, env.store.achievements.Keys - s.completed.Keys);
  }

  lemma OpenDrops(env: Env, s: State, t: State, id: nat)
    requires id in env.store.achievements && id !in s.completed
    requires t.completed.Keys == s.completed.Keys + {id}
    ensures Open(env, t) < Open(env, s)
  {
    assert env.store.achievements.Keys - s.completed.Keys
        == (env.store.achievements.Keys - t.completed.Keys) + {id};
  }

  lemma SubsetSize<T>(a: set<T>, b: set<T>)
    requires a <= b
    ensures |a| <= |b|
  {
    assert b == a + (b - a);
  }
}
