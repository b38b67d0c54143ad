/** What the startup renames amount to: the events get the ids 1..n in their old order, every
    surviving invite follows its event, and no rename meets an id in use. */
module CalendarCompaction {
  import opened CalendarTables
  import opened CalendarRemap

  // ----- the remap lists number the live ids by rank -----

  /** EventRemap and InviteRemap in one: live ids are numbered, the others marked. */
  function Numbering(ids: seq<nat>, live: set<nat>, next: nat): seq<Gee> {
    if ids == [] then []
    else if ids[0] in live then [Gee(ids[0], next)] + Numbering(ids[1..], live, next + 1)
    else [Gee(ids[0], DELETED_ID)] + Numbering(ids[1..], live, next)
  }

  function Live(c: Clock, events: map<nat, EventRow>): set<nat> {
    set k | k in events && !Expired(c, events[k])
  }

  lemma {:induction false} EventRemapNumbers(c: Clock, events: map<nat, EventRow>, ids: seq<nat>, next: nat)
    requires forall k :: k in ids ==> k in events
    ensures EventRemap(c, events, ids, next) == Numbering(ids, Live(c, events), next)
  {
    if ids != [] {
      assert ids[0] in ids;
      EventRemapNumbers(c, events, ids[1..], if Expired(c, events[ids[0]]) then next else next + 1);
    }
  }

  lemma {:induction false} InviteRemapNumbers(ids: seq<nat>, live: set<nat>, next: nat)
    requires forall k :: k in ids ==> k in live
    requires next + |ids| <= DELETED_ID
    ensures InviteRemap(ids, next) == Remapped(Numbering(ids, live, next))
  {
    if ids != [] {
      assert ids[0] in ids;
      InviteRemapNumbers(ids[1..], live, next + 1);
      assert Numbering(ids, live, next)[1..] == Numbering(ids[1..], live, next + 1);
    }
  }

  function LiveBefore(ids: seq<nat>, live: set<nat>, k: nat): set<nat> {
    set j | j in ids && j in live && j < k
  }

  function NumberOf(ids: seq<nat>, live: set<nat>, next: nat, k: nat): nat {
    if k in live then next + |LiveBefore(ids, live, k)| else DELETED_ID
  }

  predicate FirstsAscend(list: seq<Gee>) {
    forall i, j :: 0 <= i < j < |list| ==> list[i].first < list[j].first
  }

  lemma FirstsAscendCons(g: Gee, rest: seq<Gee>)
    requires FirstsAscend(rest) && forall h :: h in rest ==> g.first < h.first
    ensures FirstsAscend([g] + rest)
  {
    var all := [g] + rest;
    forall i, j | 0 <= i < j < |all| ensures all[i].first < all[j].first {
      assert all[j] == rest[j - 1] && rest[j - 1] in rest;
      if i > 0 { assert all[i] == rest[i - 1]; }
    }
  }

  lemma AscendingTail(ids: seq<nat>)
    requires Ascending(ids) && ids != []
    ensures Ascending(ids[1..]) && forall k :: k in ids[1..] ==> ids[0] < k
    ensures forall k :: k in ids <==> k == ids[0] || k in ids[1..]
  {
    forall k | k in ids[1..] ensures ids[0] < k {
      var i :| 0 <= i < |ids[1..]| && ids[1..][i] == k;
      assert ids[i + 1] == k;
    }
  }

  lemma LiveBeforeTail(ids: seq<nat>, live: set<nat>, k: nat)
    requires Ascending(ids) && ids != []
    ensures k in ids[1..] ==>
        |LiveBefore(ids, live, k)| == |LiveBefore(ids[1..], live, k)| + (if ids[0] in live then 1 else 0)
    ensures k == ids[0] ==> LiveBefore(ids, live, k) == {}
  {
    hide Ascending;
    AscendingTail(ids);
    if k in ids[1..] {
      if ids[0] in live {
        assert LiveBefore(ids, live, k) == LiveBefore(ids[1..], live, k) + {ids[0]};
      } else {
        assert LiveBefore(ids, live, k) == LiveBefore(ids[1..], live, k);
      }
    }
  }

  lemma NumberOfTail(ids: seq<nat>, live: set<nat>, next: nat, k: nat)
    requires Ascending(ids) && ids != []
    ensures k in ids[1..] ==>
              NumberOf(ids, live, next, k) == NumberOf(ids[1..], live, if ids[0] in live then next + 1 else next, k)
    ensures k == ids[0] && k in live ==> NumberOf(ids, live, next, k) == next
  {
    hide LiveBefore, Ascending;
    LiveBeforeTail(ids, live, k);
  }

  lemma {:induction false} NumberingIsExact(ids: seq<nat>, live: set<nat>, next: nat)
    requires Ascending(ids)
    ensures FirstsAscend(Numbering(ids, live, next))
    ensures forall g :: g in Numbering(ids, live, next) <==>
        g.first in ids && g.second == NumberOf(ids, live, next, g.first)
  {
    hide NumberOf, Ascending, FirstsAscend;
    if ids == [] {
      NothingAscends();
    } else {
      var step := if ids[0] in live then next + 1 else next;
      var rest := Numbering(ids[1..], live, step);
      var head := Numbering(ids, live, next)[0];
      AscendingTail(ids);
      NumberingIsExact(ids[1..], live, step);
      forall g: Gee ensures g in Numbering(ids, live, next) <==> g == head || g in rest {
        assert Numbering(ids, live, next) == [head] + rest;
      }
      forall k ensures k in ids[1..] ==> NumberOf(ids, live, next, k) == NumberOf(ids[1..], live, step, k) {
        NumberOfTail(ids, live, next, k);
      }
      NumberOfHead(ids, live, next);
      FirstsAscendCons(head, rest);
    }
  }

  lemma NothingAscends()
    ensures FirstsAscend([])
  {
  }

  lemma NumberOfHead(ids: seq<nat>, live: set<nat>, next: nat)
    requires Ascending(ids) && ids != []
    ensures NumberOf(ids, live, next, ids[0]) == if ids[0] in live then next else DELETED_ID
  {
    NumberOfTail(ids, live, next, ids[0]);
  }

  // ----- the filtered list -----

  lemma {:induction false} RemappedIsFilter(list: seq<Gee>)
    requires FirstsAscend(list)
    ensures FirstsAscend(Remapped(list))
    ensures forall g :: g in Remapped(list) <==> g in list && !IsNotRemap(g)
  {
    hide IsNotRemap;
    if list != [] {
      RemappedIsFilter(list[1..]);
      assert list[0] in list;
      forall g | g in list[1..] ensures list[0].first < g.first && g in list {
        var i :| 0 <= i < |list[1..]| && list[1..][i] == g;
        assert list[i + 1] == g;
      }
      assert list == [list[0]] + list[1..];
      if !IsNotRemap(list[0]) {
        FirstsAscendCons(list[0], Remapped(list[1..]));
      }
    }
  }

  lemma {:induction false} ImageOfMember(list: seq<Gee>, g: Gee)
    requires FirstsAscend(list) && g in list
    ensures Image(list, g.first) == g.second
  {
    var i :| 0 <= i < |list| && list[i] == g;
    if i > 0 {
      assert list[1..][i - 1] == g;
      ImageOfMember(list[1..], g);
    }
  }

  /** What the filtered list is: the live ids whose rank is not their id, with that rank. */
  ghost predicate RankList(list: seq<Gee>, live: set<nat>) {
    && FirstsAscend(list)
    && forall g :: g in list <==> g.first in live && g.second == Rank(live, g.first) && g.second != g.first
  }

  lemma RankOfLive(ids: seq<nat>, live: set<nat>, k: nat)
    requires k in live && forall j :: j in live ==> j in ids
    ensures NumberOf(ids, live, 1, k) == Rank(live, k)
  {
    assert Below(live, k) == LiveBefore(ids, live, k) + {k};
  }

  lemma FilteredIsRankList(ids: seq<nat>, live: set<nat>)
    requires Ascending(ids) && forall j :: j in live ==> j in ids
    requires |live| < DELETED_ID
    ensures RankList(Remapped(Numbering(ids, live, 1)), live)
  {
    hide NumberOf, Ascending, FirstsAscend, Rank;
    NumberingIsExact(ids, live, 1);
    RemappedIsFilter(Numbering(ids, live, 1));
    forall k | k in live ensures NumberOf(ids, live, 1, k) == Rank(live, k) < DELETED_ID {
      RankOfLive(ids, live, k);
      RankInRange(live, k);
    }
    forall k | k !in live ensures NumberOf(ids, live, 1, k) == DELETED_ID {
      NumberOfDead(ids, live, k);
    }
  }

  lemma NumberOfDead(ids: seq<nat>, live: set<nat>, k: nat)
    requires k !in live
    ensures NumberOf(ids, live, 1, k) == DELETED_ID
  {
  }

  /** A rank list renames to ranks, in an order in which nothing collides. */
  lemma RankListRenames(list: seq<Gee>, live: set<nat>, keys: set<nat>)
    requires RankList(list, live) && 0 !in live && keys <= live
    ensures Plan(list) && Free(list, keys)
    ensures forall k :: k in live ==> Image(list, k) == Rank(live, k)
    ensures forall k :: k !in live ==> Image(list, k) == k
  {
    hide Rank, Image;
    forall i, j | 0 <= i < j < |list| ensures list[i].first < list[j].first && list[i].second < list[j].second {
      assert list[i] in list && list[j] in list;
      RankIsMonotone(live, list[i].first, list[j].first);
    }
    forall i | 0 <= i < |list| ensures list[i].second < list[i].first {
      assert list[i] in list;
      RankAtMost(live, list[i].first);
    }
    forall g | g in list ensures g.second !in keys - Firsts(list) {
      RankTaken(list, live, g);
    }
    forall k ensures Image(list, k) == if k in live then Rank(live, k) else k {
      var g := Gee(k, Rank(live, k));
      if g in list { ImageOfMember(list, g); } else { ImageOfOther(list, k); }
    }
  }

  /** An id that is already the rank of another live id has another rank itself, so it moves away. */
  lemma RankTaken(list: seq<Gee>, live: set<nat>, g: Gee)
    requires RankList(list, live) && g in list
    ensures g.second in live ==> g.second in Firsts(list)
  {
    hide Rank;
    if g.second in live {
      if g.second < g.first {
        RankIsMonotone(live, g.second, g.first);
      } else {
        RankIsMonotone(live, g.first, g.second);
      }
      assert Gee(g.second, Rank(live, g.second)) in list;
    }
  }

  // ----- the whole clean-up -----

  /** Ids are positive, as the id generators hand them out, and fit the uint32 of the code. */
  predicate Positive(t: Tables) {
    0 !in t.events && 0 !in t.invites && |t.events| < DELETED_ID && |t.invites| < DELETED_ID
  }

  function NewEventId(live: set<nat>, id: nat): nat {
    if id in live then Rank(live, id) else id
  }

  /** The invites whose event has not expired (or does not exist). */
  function Survivors(c: Clock, t: Tables): set<nat> {
    set i | i in t.invites && t.invites[i].event !in t.events.Keys - Live(c, t.events)
  }

  /** The event rows under the ranks of their ids. */
  predicate EventsCompacted(c: Clock, t: Tables, events: map<nat, EventRow>) {
    var live := Live(c, t.events);
    && events.Keys == (set k | k in live :: Rank(live, k))
    && (forall k :: k in live ==> Rank(live, k) in events && events[Rank(live, k)] == t.events[k])
  }

  function NewInvite(c: Clock, t: Tables, i: nat): InviteRow
    requires i in t.invites
  {
    t.invites[i].(event := NewEventId(Live(c, t.events), t.invites[i].event))
  }

  /** The surviving invites under the ranks of their ids, each pointing to its event's new id. */
  predicate InvitesCompacted(c: Clock, t: Tables, invites: map<nat, InviteRow>) {
    var all := t.invites.Keys;
    && invites.Keys == (set i | i in Survivors(c, t) :: Rank(all, i))
    && (forall i :: i in Survivors(c, t) ==> Rank(all, i) in invites && invites[Rank(all, i)] == NewInvite(c, t, i))
  }

  lemma EventList(c: Clock, events: map<nat, EventRow>)
    requires 0 !in events && |events| < DELETED_ID
    ensures var ids := Ordered(events.Keys);
            && (forall k :: k in ids <==> k in events)
            && RankList(Remapped(EventRemap(c, events, ids, 1)), Live(c, events))
            && Doomed(EventRemap(c, events, ids, 1)) == events.Keys - Live(c, events)
  {
    hide Ordered, Remapped, EventRemap, Numbering, RankList, Ascending;
    var ids, live := Ordered(events.Keys), Live(c, events);
    OrderedIsAscending(events.Keys);
    EventRemapNumbers(c, events, ids, 1);
    SubsetSize(live, events.Keys);
    FilteredIsRankList(ids, live);
    DoomedAreDead(ids, live);
  }

  lemma DoomedAreDead(ids: seq<nat>, live: set<nat>)
    requires Ascending(ids) && |live| < DELETED_ID && forall j :: j in live ==> j in ids
    ensures Doomed(Numbering(ids, live, 1)) == (set k | k in ids) - live
  {
    hide NumberOf, Numbering, Ascending;
    var list := Numbering(ids, live, 1);
    NumberingIsExact(ids, live, 1);
    forall k | k in ids
      ensures Gee(k, NumberOf(ids, live, 1, k)) in list
      ensures NumberOf(ids, live, 1, k) == DELETED_ID <==> k !in live
    {
      if k in live {
        RankOfLive(ids, live, k);
        RankInRange(live, k);
      } else {
        NumberOfDead(ids, live, k);
      }
    }
    forall k | k in ids && k !in live ensures k in Doomed(list) {
      assert Gee(k, DELETED_ID) in list;
    }
  }

  lemma InviteList(keys: set<nat>)
    requires 0 !in keys && |keys| < DELETED_ID
    ensures RankList(InviteRemap(Ordered(keys), 1), keys)
  {
    OrderedIsAscending(keys);
    InviteRemapNumbers(Ordered(keys), keys, 1);
    FilteredIsRankList(Ordered(keys), keys);
  }

  lemma ShowEvents(c: Clock, t: Tables, t1: Tables, events: map<nat, EventRow>, list: seq<Gee>)
    requires t1 == Without(t, t.events.Keys - Live(c, t.events))
    requires Moved(t1.events, events, list)
    requires forall k :: k in Live(c, t.events) ==> Image(list, k) == Rank(Live(c, t.events), k)
    ensures EventsCompacted(c, t, events)
  {
    hide Rank, Image;
    assert t1.events.Keys == Live(c, t.events);
  }

  lemma ShowInvites(c: Clock, t: Tables, t1: Tables, t2: Tables, invites: map<nat, InviteRow>, list: seq<Gee>,
                    inviteList: seq<Gee>)
    requires t1 == Without(t, t.events.Keys - Live(c, t.events))
    requires t2.invites == map i | i in t1.invites :: t1.invites[i].(event := Image(list, t1.invites[i].event))
    requires forall k :: Image(list, k) == NewEventId(Live(c, t.events), k)
    requires Moved(t2.invites, invites, inviteList)
    requires forall k :: k in t.invites ==> Image(inviteList, k) == Rank(t.invites.Keys, k)
    ensures InvitesCompacted(c, t, invites)
  {
    hide Rank, Image, Live, NewEventId;
    assert t2.invites.Keys == Survivors(c, t);
  }

  /** The transaction never fails, and its sequence of deletions and renames equals one
      simultaneous, order-preserving renumbering. */
  lemma CompactIsSimultaneous(c: Clock, t: Tables)
    requires Positive(t) && t.events != map[]
    ensures ExecuteAll(t, Queue(c, t)).Done?
    ensures EventsCompacted(c, t, Compact(c, t).events)
    ensures InvitesCompacted(c, t, Compact(c, t).invites)
  {
    hide Ordered, EventRemap, InviteRemap, Remapped, Deletes, EventRenames, InviteRenames, ExecuteAll, Rank, Image,
      RankList, Plan, Free, RekeyAll, MoveAll, NoCollision;
    var live := Live(c, t.events);
    EventList(c, t.events);
    var remap := EventRemap(c, t.events, Ordered(t.events.Keys), 1);
    var list, invites := Remapped(remap), InviteRemap(Ordered(t.invites.Keys), 1);
    InviteList(t.invites.Keys);
    var t1 := Without(t, t.events.Keys - live);
    DeletesExecute(t, remap);
    assert t1.events.Keys == live;
    RankListRenames(list, live, live);
    RenamesAreSimultaneous(t1.events, list);
    EventRenamesExecute(t1, list);
    var t2 := Tables(RekeyAll(t1.events, list), MoveAll(t1.invites, list));
    MoveAllIsImage(t1.invites, list);
    RankListRenames(invites, t.invites.Keys, t2.invites.Keys);
    RenamesAreSimultaneous(t2.invites, invites);
    InviteRenamesExecute(t2, invites);
    ExecuteAppended(t, Deletes(remap) + EventRenames(list), InviteRenames(invites));
    ExecuteAppended(t, Deletes(remap), EventRenames(list));
    var t3 := t2.(invites := RekeyAll(t2.invites, invites));
    assert Compact(c, t) == t3;
    ShowEvents(c, t, t1, t3.events, list);
    ShowInvites(c, t, t1, t2, t3.invites, list, invites);
  }
}
