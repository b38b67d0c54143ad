/** The startup clean-up of the calendar tables: expired events go, the remaining ids are renamed
    one at a time inside one transaction. */
module CalendarRemap {
  import opened CalendarTables

  /** A pair of the remap list: the id in the table and the id it is to get. */
  datatype Gee = Gee(first: nat, second: nat)

  predicate IsNotRemap(g: Gee) { g.first == g.second || g.second == DELETED_ID }

  /** The world clock and the configured delay; a negative delay keeps events for ever. */
  datatype Clock = Clock(now: int, delay: int)

  predicate Expired(c: Clock, e: EventRow) {
    c.delay >= 0 && e.time + c.delay <= c.now
  }

  // ----- the remap lists -----

  function EventRemap(c: Clock, events: map<nat, EventRow>, ids: seq<nat>, next: nat): seq<Gee>
    requires forall k :: k in ids ==> k in events
  {
    if ids == [] then []
    else if Expired(c, events[ids[0]]) then [Gee(ids[0], DELETED_ID)] + EventRemap(c, events, ids[1..], next)
    else [Gee(ids[0], next)] + EventRemap(c, events, ids[1..], next + 1)
  }

  function InviteRemap(ids: seq<nat>, next: nat): seq<Gee> {
    if ids == [] then []
    else (if ids[0] != next then [Gee(ids[0], next)] else []) + InviteRemap(ids[1..], next + 1)
  }

  function Remapped(list: seq<Gee>): seq<Gee> {
    if list == [] then []
    else (if IsNotRemap(list[0]) then [] else [list[0]]) + Remapped(list[1..])
  }

  // ----- the statements -----

  function Deletes(list: seq<Gee>): seq<Statement> {
    if list == [] then []
    else
      (if list[0].second == DELETED_ID then [DeleteEvent(list[0].first), DeleteInvitesOf(list[0].first)] else [])
      + Deletes(list[1..])
  }

  function EventRenames(list: seq<Gee>): seq<Statement> {
    if list == [] then []
    else
      [RenameEvent(list[0].first, list[0].second), RenameEventOfInvites(list[0].first, list[0].second)]
      + EventRenames(list[1..])
  }

  function InviteRenames(list: seq<Gee>): seq<Statement> {
    if list == [] then [] else [RenameInvite(list[0].first, list[0].second)] + InviteRenames(list[1..])
  }

  function Queue(c: Clock, t: Tables): seq<Statement> {
    OrderedIsAscending(t.events.Keys);
    var remap := EventRemap(c, t.events, Ordered(t.events.Keys), 1);
    Deletes(remap) + EventRenames(Remapped(remap)) + InviteRenames(InviteRemap(Ordered(t.invites.Keys), 1))
  }

  /** DBRemoveExpiredEventsAndRemapData.  The list of invite ids is read while the deletions are
      still waiting in the transaction. */
  function Compact(c: Clock, t: Tables): Tables {
    if t.events == map[] then t else Commit(t, Queue(c, t))
  }

  // ----- one rename list on one key column -----

  /** The list ascends on both sides and every id goes down. */
  predicate Plan(list: seq<Gee>) {
    && (forall i, j :: 0 <= i < j < |list| ==> list[i].first < list[j].first && list[i].second < list[j].second)
    && (forall i :: 0 <= i < |list| ==> list[i].second < list[i].first)
  }

  function Firsts(list: seq<Gee>): set<nat> {
    set g | g in list :: g.first
  }

  /** No new id is the key of a row that keeps its id. */
  predicate Free(list: seq<Gee>, keys: set<nat>) {
    forall g :: g in list ==> g.second !in keys - Firsts(list)
  }

  /** Where the simultaneous renaming sends an id. */
  function Image(list: seq<Gee>, id: nat): nat {
    if list == [] then id
    else if list[0].first == id then list[0].second
    else Image(list[1..], id)
  }

  lemma {:induction false} ImageOfOther(list: seq<Gee>, id: nat)
    requires id !in Firsts(list)
    ensures Image(list, id) == id
  {
    if list != [] {
      assert list[0] in list;
      assert Firsts(list[1..]) <= Firsts(list);
      ImageOfOther(list[1..], id);
    }
  }

  lemma PlanTail(list: seq<Gee>, keys: set<nat>)
    requires list != [] && Plan(list) && Free(list, keys)
    ensures Plan(list[1..])
    ensures list[0].second !in keys
    ensures list[0].second !in Firsts(list[1..]) && list[0].first !in Firsts(list[1..])
    ensures Firsts(list) == {list[0].first} + Firsts(list[1..])
  {
    assert list[0] in list;
    forall g | g in list[1..] ensures g in list && list[0].second < list[0].first < g.first {
      var i :| 0 <= i < |list[1..]| && list[1..][i] == g;
      assert list[i + 1] == g;
    }
    forall g | g in list ensures g == list[0] || g in list[1..] {
      var i :| 0 <= i < |list| && list[i] == g;
      assert i > 0 ==> list[1..][i - 1] == g;
    }
  }

  function RekeyAll<T>(m: map<nat, T>, list: seq<Gee>): map<nat, T>
    decreases list
  {
    if list == [] then m else RekeyAll(Rekey(m, list[0].first, list[0].second), list[1..])
  }

  predicate NoCollision<T>(m: map<nat, T>, list: seq<Gee>)
    decreases list
  {
    list == [] || (!Collides(m, list[0].first, list[0].second)
                   && NoCollision(Rekey(m, list[0].first, list[0].second), list[1..]))
  }

  lemma FreeTail<T>(m: map<nat, T>, list: seq<Gee>)
    requires list != [] && Plan(list) && Free(list, m.Keys)
    ensures Free(list[1..], Rekey(m, list[0].first, list[0].second).Keys)
  {
    PlanTail(list, m.Keys);
    forall g | g in list[1..]
      ensures g.second !in Rekey(m, list[0].first, list[0].second).Keys - Firsts(list[1..])
    {
      var i :| 0 <= i < |list[1..]| && list[1..][i] == g;
      assert list[i + 1] == g && list[0].second < g.second;
      assert g in list;
    }
  }

  ghost predicate Injective(list: seq<Gee>, keys: set<nat>) {
    forall k, l :: k in keys && l in keys && Image(list, k) == Image(list, l) ==> k == l
  }

  ghost predicate RowsMoved<T(!new)>(m: map<nat, T>, m': map<nat, T>, list: seq<Gee>) {
    forall k :: k in m ==> Image(list, k) in m' && m'[Image(list, k)] == m[k]
  }

  /** The rows of `m` under the ids of the simultaneous renaming, and no others. */
  ghost predicate Moved<T(!new)>(m: map<nat, T>, m': map<nat, T>, list: seq<Gee>) {
    RowsMoved(m, m', list) && m'.Keys == set k | k in m :: Image(list, k)
  }

  /** Renaming along an ascending plan never meets a key in use and equals the simultaneous renaming. */
  lemma {:induction false} RenamesAreSimultaneous<T(!new)>(m: map<nat, T>, list: seq<Gee>)
    requires Plan(list) && Free(list, m.Keys)
    ensures NoCollision(m, list)
    ensures Moved(m, RekeyAll(m, list), list)
    ensures Injective(list, m.Keys)
    decreases list
  {
    if list != [] {
      var m1 := Rekey(m, list[0].first, list[0].second);
      PlanTail(list, m.Keys);
      FreeTail(m, list);
      RenamesAreSimultaneous(m1, list[1..]);
      StepMoved(m, m1, RekeyAll(m, list), list);
    }
  }

  function StepImage(g: Gee, id: nat): nat {
    if id == g.first then g.second else id
  }

  /** The image is the first rename followed by the image under the rest. */
  lemma ImageStep(list: seq<Gee>, id: nat)
    requires list != [] && list[0].second !in Firsts(list[1..])
    ensures Image(list, id) == Image(list[1..], StepImage(list[0], id))
  {
    ImageOfOther(list[1..], list[0].second);
  }

  lemma StepImages<T>(m: map<nat, T>, m1: map<nat, T>, list: seq<Gee>)
    requires list != [] && list[0].second !in m && list[0].second !in Firsts(list[1..])
    requires m1 == Rekey(m, list[0].first, list[0].second)
    ensures forall k :: k in m ==> StepImage(list[0], k) in m1 && m1[StepImage(list[0], k)] == m[k]
    ensures forall k :: k in m ==> Image(list, k) == Image(list[1..], StepImage(list[0], k))
    ensures forall k1 :: k1 in m1 ==> exists k :: k in m && StepImage(list[0], k) == k1
  {
    hide Image, Firsts;
    var g := list[0];
    forall k | k in m ensures Image(list, k) == Image(list[1..], StepImage(g, k)) {
      ImageStep(list, k);
    }
    forall k1 | k1 in m1 ensures exists k :: k in m && StepImage(g, k) == k1 {
      assert StepImage(g, if k1 in m then k1 else g.first) == k1;
    }
  }

  lemma StepMoved<T(!new)>(m: map<nat, T>, m1: map<nat, T>, m': map<nat, T>, list: seq<Gee>)
    requires list != [] && list[0].second !in m && list[0].second !in Firsts(list[1..])
    requires m1 == Rekey(m, list[0].first, list[0].second)
    requires Moved(m1, m', list[1..]) && Injective(list[1..], m1.Keys)
    ensures Moved(m, m', list)
    ensures Injective(list, m.Keys)
  {
    hide Image, Firsts, Rekey, StepImage;
    StepImages(m, m1, list);
    StepRows(m, m1, m', list);
    forall k, l | k in m && l in m && Image(list, k) == Image(list, l) ensures k == l {
      SameStep(m, list[0], k, l);
    }
  }

  lemma StepRows<T(!new)>(m: map<nat, T>, m1: map<nat, T>, m': map<nat, T>, list: seq<Gee>)
    requires list != [] && Moved(m1, m', list[1..])
    requires forall k :: k in m ==> StepImage(list[0], k) in m1 && m1[StepImage(list[0], k)] == m[k]
    requires forall k :: k in m ==> Image(list, k) == Image(list[1..], StepImage(list[0], k))
    requires forall k1 :: k1 in m1 ==> exists k :: k in m && StepImage(list[0], k) == k1
    ensures Moved(m, m', list)
  {
    hide Image, StepImage;
    assert m'.Keys == set k | k in m :: Image(list, k) by {
      forall k' | k' in m' ensures exists k :: k in m && Image(list, k) == k' {
        var k1 :| k1 in m1 && Image(list[1..], k1) == k';
        var k :| k in m && StepImage(list[0], k) == k1;
        assert Image(list, k) == k';
      }
    }
  }

  lemma SameStep<T>(m: map<nat, T>, g: Gee, k: nat, l: nat)
    requires k in m && l in m && g.second !in m
    ensures StepImage(g, k) == StepImage(g, l) ==> k == l
  {
  }

  // ----- statements as renames -----

  function MoveAll(invites: map<nat, InviteRow>, list: seq<Gee>): map<nat, InviteRow>
    decreases list
  {
    if list == [] then invites else MoveAll(MoveInvites(invites, list[0].first, list[0].second), list[1..])
  }

  lemma {:induction false} MoveAllIsImage(invites: map<nat, InviteRow>, list: seq<Gee>)
    requires Plan(list)
    ensures MoveAll(invites, list) == map i | i in invites :: invites[i].(event := Image(list, invites[i].event))
    decreases list
  {
    if list == [] {
    } else {
      PlanTail(list, {});
      ImageOfOther(list[1..], list[0].second);
      MoveAllIsImage(MoveInvites(invites, list[0].first, list[0].second), list[1..]);
    }
  }

  lemma {:induction false} EventRenamesExecute(t: Tables, list: seq<Gee>)
    requires NoCollision(t.events, list)
    ensures ExecuteAll(t, EventRenames(list)) == Done(Tables(RekeyAll(t.events, list), MoveAll(t.invites, list)))
    decreases list
  {
    if list != [] {
      var queue := EventRenames(list);
      assert queue[1..][1..] == EventRenames(list[1..]);
      var t1 := t.(events := Rekey(t.events, list[0].first, list[0].second));
      var t2 := t1.(invites := MoveInvites(t.invites, list[0].first, list[0].second));
      assert Execute(t, queue[0]) == Done(t1) && Execute(t1, queue[1..][0]) == Done(t2);
      EventRenamesExecute(t2, list[1..]);
    }
  }

  lemma {:induction false} InviteRenamesExecute(t: Tables, list: seq<Gee>)
    requires NoCollision(t.invites, list)
    ensures ExecuteAll(t, InviteRenames(list)) == Done(t.(invites := RekeyAll(t.invites, list)))
    decreases list
  {
    if list != [] {
      var queue := InviteRenames(list);
      assert queue[1..] == InviteRenames(list[1..]);
      InviteRenamesExecute(t.(invites := Rekey(t.invites, list[0].first, list[0].second)), list[1..]);
    }
  }

  function Doomed(list: seq<Gee>): set<nat> {
    set g | g in list && g.second == DELETED_ID :: g.first
  }

  function Without(t: Tables, doomed: set<nat>): Tables {
    Tables(t.events - doomed, map i | i in t.invites && t.invites[i].event !in doomed :: t.invites[i])
  }

  lemma DeleteTwo(t: Tables, id: nat, queue: seq<Statement>)
    ensures ExecuteAll(t, [DeleteEvent(id), DeleteInvitesOf(id)] + queue) == ExecuteAll(Without(t, {id}), queue)
  {
    var all := [DeleteEvent(id), DeleteInvitesOf(id)] + queue;
    assert all[1..][1..] == queue;
    var t1 := t.(events := t.events - {id});
    assert Execute(t1, DeleteInvitesOf(id)) == Done(Without(t, {id}));
  }

  lemma WithoutTwice(t: Tables, a: set<nat>, b: set<nat>)
    ensures Without(Without(t, a), b) == Without(t, a + b)
    ensures Without(t, {}) == t
  {
  }

  lemma {:induction false} DeletesExecute(t: Tables, list: seq<Gee>)
    ensures ExecuteAll(t, Deletes(list)) == Done(Without(t, Doomed(list)))
    decreases list
  {
    hide Without;
    if list == [] {
      WithoutTwice(t, {}, {});
      assert Doomed(list) == {};
    } else {
      DoomedHead(list);
      if list[0].second == DELETED_ID {
        var id := list[0].first;
        DeleteTwo(t, id, Deletes(list[1..]));
        DeletesExecute(Without(t, {id}), list[1..]);
        WithoutTwice(t, {id}, Doomed(list[1..]));
      } else {
        assert Deletes(list) == Deletes(list[1..]);
        DeletesExecute(t, list[1..]);
        assert Doomed(list) == Doomed(list[1..]);
      }
    }
  }

  lemma DoomedHead(list: seq<Gee>)
    requires list != []
    ensures Doomed(list) == (if list[0].second == DELETED_ID then {list[0].first} else {}) + Doomed(list[1..])
  {
    forall g | g in list ensures g == list[0] || g in list[1..] {
      var i :| 0 <= i < |list| && list[i] == g;
      assert i > 0 ==> list[1..][i - 1] == g;
    }
    assert list[0] in list && forall g :: g in list[1..] ==> g in list;
  }
}
