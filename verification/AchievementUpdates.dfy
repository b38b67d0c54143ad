/** What one call writes: the counter of a criterion, its date and its timer, and for a whole
    update which criteria it applies to. */
module AchievementUpdates {
  import opened AchievementStore
  import opened AchievementEngine
  import opened AchievementFixpoint
  import opened AchievementCascade
  import opened AchievementPersistence
  import opened AchievementCompletion
  import opened AchievementReach

  // ----- one counter -----

  /** The largest counter: none for plain statistics, the goal otherwise. */
  function Cap(c: Criterion, a: Achievement): nat { if a.counter then 0xFFFF_FFFF else Goal(c) }

  function Larger(x: nat, y: nat): nat { if x < y then y else x }

  function Smaller(x: nat, y: nat): nat { if x < y then x else y }

  /** What a change makes of a counter. */
  function Changed(before: nat, change: nat, cap: nat, ptype: ProgressType): nat {
    match ptype
    case ProgressSet => Smaller(change, cap)
    case ProgressAccumulate => Smaller(before + Smaller(change, cap), cap)
    case ProgressHighest => Larger(before, Smaller(change, cap))
  }

  /** The timer is started by its own event only, not by progress. */
  predicate StartedApart(c: Criterion) { c.timeLimit != 0 && (c.requiredType == 27 || c.value != c.timedMiscId) }

  /** `t` has the change in the record of `c`: a new record is dated now and starts the timer, a
      record that is there keeps its date, and no record is made for nothing or for a timer that
      has not started. */
  predicate WrittenAs(env: Env, s: State, t: State, c: Criterion, change: nat, ptype: ProgressType)
    requires env.store.Valid() && env.store.HasCriterion(c)
  {
    var cap := Cap(c, env.store.Owner(c));
    if c.id in s.progress then
      var was := s.progress[c.id];
      var after := Changed(was.counter, change, cap, ptype);
      && c.id in t.progress && (c.id in t.failTimes <==> c.id in s.failTimes)
      && (c.id in s.failTimes ==> t.failTimes[c.id] == s.failTimes[c.id])
      && t.progress[c.id] == if after == was.counter then was else Progress(after, was.date, true, was.failed)
    else if Smaller(change, cap) == 0 || StartedApart(c) then SameCounter(s, t, c.id)
    else
      && c.id in t.progress && t.progress[c.id] == Progress(Smaller(change, cap), env.now, true, false)
      && (c.timeLimit != 0 ==> c.id in t.failTimes && t.failTimes[c.id] == env.now + c.timeLimit)
  }

  /** No nested update writes an ordinary criterion. */
  lemma OrdinarySecluded(store: Store, c: Criterion)
    requires store.Valid() && store.HasCriterion(c) && !Nested(c)
    ensures Secluded(store, {}, {c.id})
  {
    forall d | store.HasCriterion(d) && Nested(d) ensures Spares(store, {}, {c.id}, d) {
      assert d.id == c.id ==> d == c;
    }
  }

  lemma ChangedBounds(before: nat, change: nat, cap: nat, ptype: ProgressType)
    requires before <= cap < UINT32_SIZE
    ensures NewValue(before, Min(change, cap), cap, ptype) == Changed(before, change, cap, ptype)
  {
    if ptype.ProgressAccumulate? { AccumulateSaturates(before, Min(change, cap), cap); }
  }

  /** A call writes the counter of an ordinary criterion as told, whatever it sets off. */
  lemma WritesCounter(env: Env, s: State, c: Criterion, change: nat, ptype: ProgressType)
    requires env.store.Valid() && env.store.HasCriterion(c) && !Nested(c)
    requires Counter(s, c) <= MaxCounter(c, env.store.Owner(c))
    ensures WrittenAs(env, s, SetCriteriaProgress(env, s, c, change, ptype), c, change, ptype)
  {
    var a := env.store.Owner(c);
    var cap := MaxCounter(c, a);
    if c.id in s.progress {
      var before := s.progress[c.id].counter;
      ChangedBounds(before, change, cap, ptype);
      var after := Changed(before, change, cap, ptype);
      if after != before { RecordStays(env, s, c, after); }
      hide AfterChange, Record;
    } else if Min(change, cap) != 0 && !c.ExplicitTimer() {
      RecordStays(env, s, c, Min(change, cap));
      hide AfterChange;
    }
  }

  /** What a change sets off leaves the record just written as it is. */
  lemma RecordStays(env: Env, s: State, c: Criterion, value: nat)
    requires env.store.Valid() && env.store.HasCriterion(c) && !Nested(c) && value != Counter(s, c)
    ensures var r := Record(env, s, c, value); var t := AfterChange(env, r, c, Counter(s, c), value);
      && SameCounter(r, t, c.id) && c.id in t.progress
      && t.progress[c.id] == (if c.id in s.progress then s.progress[c.id].(counter := value, changed := true)
                              else Progress(value, env.now, true, false))
      && (c.id in s.progress ==> SameTimer(s, t, c.id))
      && (c.id !in s.progress && c.timeLimit != 0 ==> c.id in t.failTimes && t.failTimes[c.id] == env.now + c.timeLimit)
  {
    hide Secluded, AfterChange;
    OrdinarySecluded(env.store, c);
    ChangeLeaves(env, {}, {c.id}, Record(env, s, c, value), c, Counter(s, c), value);
  }

  predicate SameTimer(s: State, t: State, id: nat) {
    (id in t.failTimes <==> id in s.failTimes) && (id in s.failTimes ==> t.failTimes[id] == s.failTimes[id])
  }

  // ----- a whole update -----

  /** The player's side may have the achievement. */
  predicate ForSide(a: Achievement, horde: bool) {
    match a.faction
    case AnyFaction => true
    case HordeOnly => horde
    case AllianceOnly => !horde
  }

  function Decision(u: Update, c: Criterion): Outcome
    requires u.OtherUpdate?
  {
    if c.id in u.decisions then u.decisions[c.id] else Skip
  }

  /** What an update should do to an ordinary criterion of its type: write the decided change,
      unless the other side owns the achievement or the criterion is satisfied already. */
  predicate AppliedTo(env: Env, s: State, t: State, c: Criterion, u: Update)
    requires env.store.Valid() && env.store.HasCriterion(c) && u.OtherUpdate?
  {
    var a := env.store.Owner(c);
    if ForSide(a, env.horde) && (a.counter || !Satisfied(env, s, a, c)) && Decision(u, c).Change? then
      WrittenAs(env, s, t, c, Decision(u, c).value, Decision(u, c).ptype)
    else SameCounter(s, t, c.id)
  }

  lemma OneApplies(env: Env, s: State, c: Criterion, u: Update)
    requires env.store.Valid() && env.store.HasCriterion(c) && !Nested(c) && u.OtherUpdate?
    requires Counter(s, c) <= MaxCounter(c, env.store.Owner(c))
    ensures AppliedTo(env, s, UpdateOne(env, s, c, u), c, u)
  {
    hide SetCriteriaProgress, WrittenAs;
    var d := Decision(u, c);
    if d.Change? { WritesCounter(env, s, c, d.value, d.ptype); }
  }

  lemma AppliedLater(env: Env, s: State, s1: State, t: State, c: Criterion, u: Update)
    requires env.store.Valid() && env.store.HasCriterion(c) && u.OtherUpdate?
    requires SameCounter(s, s1, c.id)
    ensures AppliedTo(env, s1, t, c, u) ==> AppliedTo(env, s, t, c, u)
    ensures SameCounter(s1, t, c.id) ==> SameCounter(s, t, c.id)
  {
  }

  lemma AppliedBefore(env: Env, s: State, s1: State, t: State, c: Criterion, u: Update)
    requires env.store.Valid() && env.store.HasCriterion(c) && u.OtherUpdate?
    requires AppliedTo(env, s, s1, c, u) && SameCounter(s1, t, c.id)
    ensures AppliedTo(env, s, t, c, u)
  {
  }

  lemma {:induction false} ListApplies(env: Env, s: State, list: seq<Criterion>, u: Update, c: Criterion)
    requires env.store.Valid() && env.store.HasCriterion(c) && !Nested(c) && u.OtherUpdate?
    requires Counter(s, c) <= MaxCounter(c, env.store.Owner(c))
    requires Ascending(list) && forall d :: d in list ==> env.store.HasCriterion(d)
    ensures var t := UpdateList(env, s, list, u);
      if c in list then AppliedTo(env, s, t, c, u) else SameCounter(s, t, c.id)
    decreases |list|
  {
    hide UpdateOne, AppliedTo, Secluded, Spares, Leaves;
    if list != [] {
      var d := list[0];
      var s1 := UpdateOne(env, s, d, u);
      assert d in list && forall x :: x in list[1..] ==> x in list;
      var t := UpdateList(env, s, list, u);
      if d == c {
        OneApplies(env, s, c, u);
        NotAgain(list);
        RestLeaves(env, s1, list[1..], u, c);
        AppliedBefore(env, s, s1, t, c, u);
      } else {
        OneSpares(env, s, d, u, c);
        ListApplies(env, s1, list[1..], u, c);
        AppliedLater(env, s, s1, t, c, u);
      }
    }
  }

  lemma NotAgain(list: seq<Criterion>)
    requires list != [] && Ascending(list)
    ensures list[0] !in list[1..]
  {
  }

  /** Another criterion's turn leaves an ordinary counter alone. */
  lemma OneSpares(env: Env, s: State, d: Criterion, u: Update, c: Criterion)
    requires env.store.Valid() && env.store.HasCriterion(c) && !Nested(c) && env.store.HasCriterion(d) && d != c
    ensures SameCounter(s, UpdateOne(env, s, d, u), c.id)
    ensures Counter(UpdateOne(env, s, d, u), c) == Counter(s, c)
  {
    hide UpdateOne, Secluded;
    OrdinarySecluded(env.store, c);
    assert Spares(env.store, {}, {c.id}, d);
    OneLeaves(env, {}, {c.id}, s, d, u);
  }

  lemma RestLeaves(env: Env, s: State, list: seq<Criterion>, u: Update, c: Criterion)
    requires env.store.Valid() && env.store.HasCriterion(c) && !Nested(c) && c !in list
    requires forall d :: d in list ==> env.store.HasCriterion(d)
    ensures SameCounter(s, UpdateList(env, s, list, u), c.id)
  {
    hide UpdateList, Secluded;
    OrdinarySecluded(env.store, c);
    forall d | d in list ensures Spares(env.store, {}, {c.id}, d) { assert d.id == c.id ==> d == c; }
    ListLeaves(env, {}, {c.id}, s, list, u);
  }

  /** An update writes every ordinary criterion of its type as decided, no other ordinary one, and
      what is entered meanwhile is dated now. */
  lemma UpdateExact(env: Env, s: State, u: Update, c: Criterion)
    requires env.store.Valid() && env.store.HasCriterion(c) && !Nested(c) && u.OtherUpdate? && WellFormed(u)
    requires Counter(s, c) <= MaxCounter(c, env.store.Owner(c))
    ensures var t := UpdateAchievementCriteria(env, s, u);
      && (if c.requiredType == u.requiredType then AppliedTo(env, s, t, c, u) else SameCounter(s, t, c.id))
      && Dated(env, s, t)
  {
    hide UpdateList, AppliedTo;
    var list := env.store.CriteriaByType(u.requiredType);
    TypeAscends(env.store, env.store.criteriaRows, u.requiredType);
    ListApplies(env, s, list, u, c);
    assert c in list <==> c.requiredType == u.requiredType;
    ListLeaves(env, {}, {}, s, list, u);
  }

  // ----- timers -----

  /** A started timer: the record is there with counter 0, and it goes, like the timer, exactly
      when the time is over, unless the criterion is satisfied as it stands. */
  lemma TimerExact(env: Env, s: State, c: Criterion, miscId: nat, startTime: int, grouped: bool, later: Env)
    requires env.store.Valid() && env.store.HasCriterion(c) && later.store == env.store
    ensures var a := env.store.Owner(c);
      var date := if startTime == 0 then env.now else startTime;
      var t := StartOne(env, s, c, miscId, startTime, grouped);
      var u := FailTimers(later, t);
      if c.timedMiscId == miscId && StartedApart(c) && ForSide(a, env.horde)
         && (a.counter || !Satisfied(env, s, a, c)) && !(c.requiredType == 27 && grouped)
         && (startTime == 0 || env.now <= startTime + c.timeLimit)
      then
        && c.id in t.progress && t.progress[c.id] == Progress(0, date, true, false)
        && (c.id in u.failTimes <==> later.now < date + c.timeLimit)
        && (c.id in u.progress <==> later.now < date + c.timeLimit || (!a.counter && Satisfied(later, t, a, c)))
      else t == s
  {
  }
}
