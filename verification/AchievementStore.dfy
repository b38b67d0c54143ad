/** The static achievement data (the two DBC stores and the lists derived from them) and the
    mutable record of one player's progress, as plain values. */
module AchievementStore {

  const UINT32_SIZE: nat := 0x1_0000_0000
  const UINT32_MAX: nat := 0xFFFF_FFFF

  const TYPE_COMPLETE_ACHIEVEMENT: nat := 8
  const TYPE_COMPLETE_QUEST: nat := 27
  const TYPE_EARN_ACHIEVEMENT_POINTS: nat := 115

  datatype Faction = HordeOnly | AllianceOnly | AnyFaction

  /** An AchievementEntry; the flag bits the engine tests are separate booleans. */
  datatype Achievement = Achievement(
    id: nat, counter: bool, summ: bool, reqCount: bool, realmFirst: bool,
    faction: Faction, refAchievement: nat, count: nat, points: nat)

  /** An AchievementCriteriaEntry.  `value` and `count` are the raw union fields (`value` is the
      linked achievement of a COMPLETE_ACHIEVEMENT criterion); `typeMax` is what the per-type
      switch of GetCriteriaProgressMaxCounter reads for the remaining types. */
  datatype Criterion = Criterion(
    id: nat, referred: nat, requiredType: nat, value: nat, count: nat, typeMax: nat,
    timedMiscId: nat, timeLimit: nat)
  {
    predicate ExplicitTimer() {
      timeLimit != 0 && (requiredType == TYPE_COMPLETE_QUEST || value != timedMiscId)
    }
  }

  /** The two stores after loading; row numbers run below the two bounds. */
  datatype Store = Store(
    achievementRows: nat, achievements: map<nat, Achievement>,
    criteriaRows: nat, criteria: map<nat, Criterion>)
  {
    ghost predicate Valid() {
      && (forall id :: id in achievements ==>
            id < achievementRows && achievements[id].id == id && achievements[id].points < UINT32_SIZE)
      && (forall id :: id in criteria ==>
            && id < criteriaRows && criteria[id].id == id
            && criteria[id].referred in achievements && criteria[id].typeMax < UINT32_SIZE)
    }

    predicate Has(a: Achievement) { a.id in achievements && achievements[a.id] == a }

    predicate HasCriterion(c: Criterion) { c.id in criteria && criteria[c.id] == c }

    function Owner(c: Criterion): (a: Achievement)
      requires Valid() && HasCriterion(c)
      ensures Has(a)
    {
      achievements[c.referred]
    }

    /** LoadAchievementCriteriaList, by type: rows are visited in order. */
    function CriteriaByTypeBelow(n: nat, t: nat): (r: seq<Criterion>)
      requires Valid()
      ensures forall c :: c in r <==> c.id < n && HasCriterion(c) && c.requiredType == t
    {
      if n == 0 then []
      else
        var front := CriteriaByTypeBelow(n - 1, t);
        if n - 1 in criteria && criteria[n - 1].requiredType == t then front + [criteria[n - 1]] else front
    }

    function CriteriaByType(t: nat): (r: seq<Criterion>)
      requires Valid()
      ensures forall c :: c in r <==> HasCriterion(c) && c.requiredType == t
    {
      CriteriaByTypeBelow(criteriaRows, t)
    }

    /** LoadAchievementCriteriaList, by referred achievement. */
    function CriteriaByAchievementBelow(n: nat, id: nat): (r: seq<Criterion>)
      requires Valid()
      ensures forall c :: c in r <==> c.id < n && HasCriterion(c) && c.referred == id
    {
      if n == 0 then []
      else
        var front := CriteriaByAchievementBelow(n - 1, id);
        if n - 1 in criteria && criteria[n - 1].referred == id then front + [criteria[n - 1]] else front
    }

    function CriteriaByAchievement(id: nat): (r: seq<Criterion>)
      requires Valid()
      ensures forall c :: c in r <==> HasCriterion(c) && c.referred == id
    {
      CriteriaByAchievementBelow(criteriaRows, id)
    }

    /** LoadAchievementReferenceList: the achievements that borrow the criteria of `id`. */
    function ReferencesBelow(n: nat, id: nat): (r: seq<Achievement>)
      requires Valid()
      ensures forall a :: a in r <==> a.id < n && Has(a) && a.refAchievement == id && id != 0
    {
      if n == 0 then []
      else
        var front := ReferencesBelow(n - 1, id);
        if n - 1 in achievements && achievements[n - 1].refAchievement == id && id != 0
        then front + [achievements[n - 1]] else front
    }

    function References(id: nat): (r: seq<Achievement>)
      requires Valid()
      ensures forall a :: a in r <==> Has(a) && a.refAchievement == id && id != 0
    {
      ReferencesBelow(achievementRows, id)
    }
  }

  datatype Progress = Progress(counter: nat, date: int, changed: bool, failed: bool)

  datatype Completion = Completion(date: int, changed: bool)

  datatype ProgressRow = ProgressRow(counter: nat, date: int)

  /** One player's AchievementMgr fields, together with the two character tables it writes. */
  datatype State = State(
    progress: map<nat, Progress>, completed: map<nat, Completion>, failTimes: map<nat, int>,
    points: nat, rows: map<nat, int>, progressRows: map<nat, ProgressRow>)

  const EMPTY: State := State(map[], map[], map[], 0, map[], map[])

  /** What one event sees of the world: the stores, the player's team, the clock and the
      realm-first achievements that somebody took at least two seconds ago. */
  datatype Env = Env(store: Store, horde: bool, now: int, realmTaken: set<nat>)

  datatype ProgressType = ProgressSet | ProgressAccumulate | ProgressHighest

  /** What the per-type switch decides for one criterion. */
  datatype Outcome = Skip | Change(value: nat, ptype: ProgressType)

  /** An update: the two types that read the manager's own state, or any other type with the
      decisions of its switch tabulated by criterion id. */
  datatype Update =
    | CompleteAchievementUpdate
    | EarnPointsUpdate
    | OtherUpdate(requiredType: nat, decisions: map<nat, Outcome>)
  {
    function Type(): nat {
      match this
      case CompleteAchievementUpdate => TYPE_COMPLETE_ACHIEVEMENT
      case EarnPointsUpdate => TYPE_EARN_ACHIEVEMENT_POINTS
      case OtherUpdate(t, _) => t
    }
  }
}
