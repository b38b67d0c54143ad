/** The two calendar tables and the statements that startup sends to them. */
module CalendarTables {

  const DELETED_ID: nat := 0xFFFF_FFFF

  datatype EventRow = EventRow(
    creator: nat, guild: nat, kind: nat, flags: nat, dungeon: int, time: int, title: string, description: string)
  {
    predicate InvitesLocked() { flags / 0x10 % 2 == 1 }
    predicate IsGuildAnnouncement() { flags / 0x40 % 2 == 1 }
    predicate IsGuildEvent() { flags / 0x400 % 2 == 1 }
  }

  datatype InviteRow = InviteRow(
    event: nat, invitee: nat, sender: nat, status: nat, updated: int, rank: nat, text: string)

  /** calendar_events and calendar_invites by primary key. */
  datatype Tables = Tables(events: map<nat, EventRow>, invites: map<nat, InviteRow>)

  datatype Statement =
    | DeleteEvent(id: nat)
    | DeleteInvitesOf(event: nat)
    | RenameEvent(from: nat, to: nat)
    | RenameEventOfInvites(from: nat, to: nat)
    | RenameInvite(from: nat, to: nat)

  datatype Outcome = DuplicateKey | Done(tables: Tables)

  /** A row takes another primary key; a missing row changes nothing. */
  function Rekey<T>(m: map<nat, T>, from: nat, to: nat): map<nat, T> {
    if from in m then (m - {from})[to := m[from]] else m
  }

  predicate Collides<T>(m: map<nat, T>, from: nat, to: nat) {
    from in m && to in m && from != to
  }

  function MoveInvites(invites: map<nat, InviteRow>, from: nat, to: nat): map<nat, InviteRow> {
    map i | i in invites :: if invites[i].event == from then invites[i].(event := to) else invites[i]
  }

  function Execute(t: Tables, s: Statement): Outcome {
    match s
    case DeleteEvent(id) => Done(t.(events := t.events - {id}))
    case DeleteInvitesOf(event) =>
      Done(t.(invites := map i | i in t.invites && t.invites[i].event != event :: t.invites[i]))
    case RenameEvent(from, to) =>
      if Collides(t.events, from, to) then DuplicateKey else Done(t.(events := Rekey(t.events, from, to)))
    case RenameEventOfInvites(from, to) => Done(t.(invites := MoveInvites(t.invites, from, to)))
    case RenameInvite(from, to) =>
      if Collides(t.invites, from, to) then DuplicateKey else Done(t.(invites := Rekey(t.invites, from, to)))
  }

  function ExecuteAll(t: Tables, queue: seq<Statement>): Outcome
    decreases queue
  {
    if queue == [] then Done(t)
    else
      var first := Execute(t, queue[0]);
      if first.Done? then ExecuteAll(first.tables, queue[1..]) else DuplicateKey
  }

  /** A transaction: the queued statements in order, or nothing at all if one of them fails. */
  function Commit(t: Tables, queue: seq<Statement>): Tables {
    var r := ExecuteAll(t, queue);
    if r.Done? then r.tables else t
  }

  lemma {:induction false} ExecuteAppended(t: Tables, a: seq<Statement>, b: seq<Statement>)
    ensures ExecuteAll(t, a + b)
            == if ExecuteAll(t, a).Done? then ExecuteAll(ExecuteAll(t, a).tables, b) else DuplicateKey
    decreases a
  {
    if a == [] {
      assert a + b == b;
    } else {
      assert (a + b)[0] == a[0] && (a + b)[1..] == a[1..] + b;
      if Execute(t, a[0]).Done? {
        ExecuteAppended(Execute(t, a[0]).tables, a[1..], b);
      }
    }
  }

  // ----- ORDER BY -----

  predicate Ascending(ids: seq<nat>) {
    forall i, j :: 0 <= i < j < |ids| ==> ids[i] < ids[j]
  }

  lemma LeastFrom(s: set<nat>, x: nat)
    requires x in s
    ensures exists m :: m in s && forall k :: k in s ==> m <= k
    decreases x
  {
    if k :| k in s && k < x {
      LeastFrom(s, k);
    } else {
      assert forall k :: k in s ==> x <= k;
    }
  }

  function Least(s: set<nat>): (m: nat)
    requires s != {}
    ensures m in s && forall k :: k in s ==> m <= k
  {
    var x :| x in s;
    LeastFrom(s, x);
    var m :| m in s && forall k :: k in s ==> m <= k;
    m
  }

  /** The keys of a table as a query with ORDER BY returns them. */
  function Ordered(s: set<nat>): seq<nat> {
    if s == {} then [] else [Least(s)] + Ordered(s - {Least(s)})
  }

  lemma AscendingCons(x: nat, rest: seq<nat>)
    requires Ascending(rest) && forall k :: k in rest ==> x < k
    ensures Ascending([x] + rest)
  {
    var all := [x] + rest;
    forall i, j | 0 <= i < j < |all| ensures all[i] < all[j] {
      assert all[j] == rest[j - 1] && rest[j - 1] in rest;
      if i > 0 { assert all[i] == rest[i - 1]; }
    }
  }

  lemma NothingIsAscending()
    ensures Ascending([])
  {
  }

  lemma {:induction false} OrderedIsAscending(s: set<nat>)
    ensures forall k :: k in Ordered(s) <==> k in s
    ensures Ascending(Ordered(s))
    ensures |Ordered(s)| == |s|
  {
    hide Ascending;
    if s == {} {
      NothingIsAscending();
    } else {
      var rest := s - {Least(s)};
      OrderedIsAscending(rest);
      AscendingCons(Least(s), Ordered(rest));
    }
  }

  // ----- ranks -----

  function Below(s: set<nat>, x: nat): set<nat> {
    set k | k in s && k <= x
  }

  function Rank(s: set<nat>, x: nat): nat {
    |Below(s, x)|
  }

  lemma {:induction false} SubsetSize(a: set<nat>, b: set<nat>)
    requires a <= b
    ensures |a| <= |b| && (|a| == |b| ==> a == b)
  {
    if a != {} {
      var x :| x in a;
      SubsetSize(a - {x}, b - {x});
      assert a == (a - {x}) + {x} && b == (b - {x}) + {x};
    }
  }

  lemma RankIsMonotone(s: set<nat>, x: nat, y: nat)
    requires x in s && y in s && x < y
    ensures Rank(s, x) < Rank(s, y)
  {
    assert y in Below(s, y) && y !in Below(s, x);
    SubsetSize(Below(s, x), Below(s, y));
  }

  lemma RankInRange(s: set<nat>, x: nat)
    requires x in s
    ensures 1 <= Rank(s, x) <= |s|
  {
    SubsetSize({x}, Below(s, x));
    SubsetSize(Below(s, x), s);
  }

  function UpTo(n: nat): (s: set<nat>)
    ensures forall k: nat :: k in s <==> 1 <= k <= n
    ensures |s| == n
  {
    if n == 0 then {} else UpTo(n - 1) + {n}
  }

  /** A rank is not above the number itself when no number is 0. */
  lemma RankAtMost(s: set<nat>, x: nat)
    requires 0 !in s
    ensures Rank(s, x) <= x
  {
    SubsetSize(Below(s, x), UpTo(x));
  }

  lemma {:induction false} RanksSize(s: set<nat>, part: set<nat>)
    requires part <= s
    ensures |set x | x in part :: Rank(s, x)| == |part|
  {
    if part == {} {
      assert (set x | x in part :: Rank(s, x)) == {};
    } else {
      var y :| y in part;
      RanksSize(s, part - {y});
      forall x | x in part && x != y ensures Rank(s, x) != Rank(s, y) {
        if x < y { RankIsMonotone(s, x, y); } else { RankIsMonotone(s, y, x); }
      }
      assert (set x | x in part :: Rank(s, x)) == (set x | x in part - {y} :: Rank(s, x)) + {Rank(s, y)};
    }
  }

  /** Ranking is onto 1..n. */
  lemma RanksCover(s: set<nat>)
    ensures (set x | x in s :: Rank(s, x)) == UpTo(|s|)
  {
    RanksSize(s, s);
    forall x | x in s ensures Rank(s, x) in UpTo(|s|) { RankInRange(s, x); }
    SubsetSize((set x | x in s :: Rank(s, x)), UpTo(|s|));
  }
}
