/** What a maintainer relies on after the calendar clean-up, and where the code gives less. */
module CalendarStartup {
  import opened CalendarTables
  import opened CalendarRemap
  import opened CalendarCompaction

  predicate ReferencesHold(t: Tables) {
    forall i :: i in t.invites ==> t.invites[i].event in t.events
  }

  /** The events of the cleaned table have exactly the ids 1..n, in their old order. */
  lemma EventIdsAreCompact(c: Clock, t: Tables)
    requires Positive(t) && t.events != map[]
    ensures Compact(c, t).events.Keys == UpTo(|Live(c, t.events)|)
    ensures forall k, l :: k in Live(c, t.events) && l in Live(c, t.events) && k < l ==>
              Rank(Live(c, t.events), k) < Rank(Live(c, t.events), l)
  {
    hide Compact, Rank, UpTo, Live;
    CompactIsSimultaneous(c, t);
    RanksCover(Live(c, t.events));
    forall k, l | k in Live(c, t.events) && l in Live(c, t.events) && k < l
      ensures Rank(Live(c, t.events), k) < Rank(Live(c, t.events), l)
    {
      RankIsMonotone(Live(c, t.events), k, l);
    }
  }

  /** A surviving invite still belongs to the row of its own event, and keeps its other columns. */
  lemma SurvivorKeepsEvent(c: Clock, t: Tables, i: nat)
    requires Positive(t) && i in t.invites && t.invites[i].event in Live(c, t.events)
    ensures var t' := Compact(c, t);
            var i' := Rank(t.invites.Keys, i);
            && i' in t'.invites
            && t'.invites[i'].event in t'.events
            && t'.events[t'.invites[i'].event] == t.events[t.invites[i].event]
            && t'.invites[i'] == t.invites[i].(event := t'.invites[i'].event)
  {
    hide Compact, Rank;
    CompactIsSimultaneous(c, t);
    assert i in Survivors(c, t);
  }

  /** With referential integrity the invites of expired events are gone and integrity is kept. */
  lemma IntegrityKept(c: Clock, t: Tables)
    requires Positive(t) && t.events != map[] && ReferencesHold(t)
    ensures ReferencesHold(Compact(c, t))
    ensures |Compact(c, t).invites| == |set i | i in t.invites && t.invites[i].event in Live(c, t.events)|
  {
    hide Compact, Rank;
    CompactIsSimultaneous(c, t);
    var all, survivors := t.invites.Keys, Survivors(c, t);
    var t' := Compact(c, t);
    forall i' | i' in t'.invites ensures t'.invites[i'].event in t'.events {
      var i :| i in survivors && Rank(all, i) == i';
      SurvivorKeepsEvent(c, t, i);
    }
    RanksSize(all, survivors);
    assert survivors == set i | i in t.invites && t.invites[i].event in Live(c, t.events);
    assert |t'.invites| == |t'.invites.Keys|;
  }

  /** An invite whose event does not exist is adopted by a stranger exactly when its dangling
      reference is one of the new ids 1..n. */
  lemma OrphanAdopted(c: Clock, t: Tables, i: nat)
    requires Positive(t) && t.events != map[]
    requires i in t.invites && t.invites[i].event !in t.events
    ensures var t' := Compact(c, t);
            var i' := Rank(t.invites.Keys, i);
            && i' in t'.invites
            && (t'.invites[i'].event in t'.events <==> 1 <= t.invites[i].event <= |Live(c, t.events)|)
  {
    hide Compact, Rank;
    CompactIsSimultaneous(c, t);
    EventIdsAreCompact(c, t);
    assert i in Survivors(c, t);
  }

  lemma GreatestExists(s: set<nat>)
    requires s != {}
    ensures exists m :: m in s && forall k :: k in s ==> k <= m
  {
    var ids := Ordered(s);
    OrderedIsAscending(s);
    var m := ids[|ids| - 1];
    forall k | k in s ensures k <= m {
      assert k in ids;
    }
    assert m in ids;
  }

  /** No deleted invite has a smaller id than a surviving one. */
  predicate SurvivorsFirst(all: set<nat>, survivors: set<nat>) {
    forall i, j :: i in survivors && j in all - survivors ==> i < j
  }

  function Ranks(all: set<nat>, part: set<nat>): set<nat> {
    set i | i in part :: Rank(all, i)
  }

  lemma RanksOfFirst(all: set<nat>, part: set<nat>)
    requires part <= all && SurvivorsFirst(all, part)
    ensures Ranks(all, part) == UpTo(|part|)
  {
    hide Rank, UpTo;
    forall i | i in part ensures Rank(all, i) == Rank(part, i) {
      SameRank(all, part, i);
    }
    assert Ranks(all, part) == Ranks(part, part);
    RanksCover(part);
  }

  lemma SameRank(all: set<nat>, part: set<nat>, i: nat)
    requires part <= all && SurvivorsFirst(all, part) && i in part
    ensures Rank(all, i) == Rank(part, i)
  {
    forall k | k in all && k <= i ensures k in part {
      assert k in part || k in all - part;
    }
    assert Below(all, i) == Below(part, i);
  }

  lemma RanksOfMixed(all: set<nat>, part: set<nat>, i: nat, j: nat)
    requires part <= all && i in part && j in all - part && j <= i
    ensures Ranks(all, part) != UpTo(|part|)
  {
    hide Ranks;
    GreatestExists(part);
    var m :| m in part && forall k :: k in part ==> k <= m;
    SubsetSize(part + {j}, Below(all, m));
    RankOfGreatest(all, part, m);
  }

  lemma RankOfGreatest(all: set<nat>, part: set<nat>, m: nat)
    requires m in part && Rank(all, m) > |part|
    ensures Ranks(all, part) != UpTo(|part|)
  {
    hide Rank;
    assert Rank(all, m) in Ranks(all, part) && Rank(all, m) !in UpTo(|part|);
  }

  /** The invite ids are read before the expired invites leave the table, so they become 1..m
      only when the deleted invites had the largest ids. */
  lemma InviteIdsCompactIff(c: Clock, t: Tables)
    requires Positive(t) && t.events != map[]
    ensures Compact(c, t).invites.Keys == UpTo(|Survivors(c, t)|)
            <==> SurvivorsFirst(t.invites.Keys, Survivors(c, t))
  {
    hide Compact, Rank, Live, UpTo;
    CompactIsSimultaneous(c, t);
    var all, part := t.invites.Keys, Survivors(c, t);
    assert Compact(c, t).invites.Keys == Ranks(all, part);
    if SurvivorsFirst(all, part) {
      RanksOfFirst(all, part);
    } else {
      var i, j :| i in part && j in all - part && j <= i;
      RanksOfMixed(all, part, i, j);
    }
  }

  /** Surviving invites keep their order. */
  lemma InviteOrderKept(c: Clock, t: Tables, i: nat, j: nat)
    requires Positive(t) && t.events != map[]
    requires i in Survivors(c, t) && j in Survivors(c, t) && i < j
    ensures Rank(t.invites.Keys, i) in Compact(c, t).invites
    ensures Rank(t.invites.Keys, j) in Compact(c, t).invites
    ensures Rank(t.invites.Keys, i) < Rank(t.invites.Keys, j)
  {
    hide Compact, Rank;
    CompactIsSimultaneous(c, t);
    RankIsMonotone(t.invites.Keys, i, j);
  }

  /** A concrete gap: invite 1 of an expired event leaves, invite 2 stays and keeps id 2. */
  function GapTables(): Tables {
    Tables(map[1 := EventRow(1, 0, 0, 0, 0, 0, "old", ""), 2 := EventRow(1, 0, 0, 0, 0, 100, "new", "")],
           map[1 := InviteRow(1, 1, 1, 0, 0, 2, ""), 2 := InviteRow(2, 1, 1, 0, 0, 2, "")])
  }

  lemma GapAfterDeletion()
    ensures Positive(GapTables()) && ReferencesHold(GapTables())
    ensures Survivors(Clock(50, 0), GapTables()) == {2}
    ensures Compact(Clock(50, 0), GapTables()).invites.Keys != UpTo(1)
  {
    hide Compact, UpTo;
    var c, t := Clock(50, 0), GapTables();
    assert t.events.Keys == {1, 2} && t.invites.Keys == {1, 2};
    assert |t.events| == |t.events.Keys| && |t.invites| == |t.invites.Keys|;
    assert Live(c, t.events) == {2};
    assert t.events.Keys - Live(c, t.events) == {1};
    assert Survivors(c, t) == {2};
    InviteIdsCompactIff(c, t);
    assert 1 in t.invites.Keys - {2};
  }
}
