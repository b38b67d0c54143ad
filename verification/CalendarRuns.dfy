/** Whole runs of the calendar: from a start over every sequence of requests, updates and
    restarts. */
module CalendarRuns {
  import opened CalendarTables
  import opened CalendarRemap
  import opened CalendarCompaction
  import opened CalendarStartup
  import opened CalendarStore
  import opened CalendarWriteBack

  /** One request of a player, one deletion of a character or guild, one world update, or a stop
      and a new start from the tables. */
  datatype Request =
    | Add(now: int, online: bool, creator: nat, guild: nat, d: EventRow)
    | Invite(event: nat, sender: nat, invitee: nat, status: nat, rank: nat, text: string, now: int)
    | Copy(now: int, online: bool, event: nat, newTime: int, guid: nat, guild: nat, order: seq<nat>)
    | Change(guid: nat, found: nat, event: nat, d: EventRow)
    | Remove(event: nat, remover: nat)
    | Uninvite(event: nat, invite: nat, remover: nat, found: nat)
    | Answer(rsvp: bool, guid: nat, found: nat, event: nat, invite: nat, status: nat, now: int)
    | Promote(guid: nat, found: nat, event: nat, invite: nat, rank: nat)
    | Depart(player: nat, guildOnly: bool)
    | Tick(clock: Clock)
    | Restart(clock: Clock)

  function Step(s: State, r: Request): State {
    match r
    case Add(now, online, creator, guild, d) => AddEvent(s, now, online, creator, guild, d)
    case Invite(e, sender, invitee, status, rank, text, now) =>
      if LiveEvent(s, e) then AddInvite(s, e, sender, invitee, status, rank, text, now) else s
    case Copy(now, online, e, newTime, guid, guild, order) => CopyEvent(s, now, online, e, newTime, guid, guild, order)
    case Change(guid, found, e, d) => UpdateEvent(s, guid, found, e, d)
    case Remove(e, remover) => RemoveEvent(s, e, remover)
    case Uninvite(e, i, remover, found) => RemoveInvite(s, e, i, remover, found)
    case Answer(rsvp, guid, found, e, i, status, now) => SetStatus(s, rsvp, guid, found, e, i, status, now)
    case Promote(guid, found, e, i, rank) => SetRank(s, guid, found, e, i, rank)
    case Depart(player, guildOnly) => RemoveCalendar(s, player, guildOnly)
    case Tick(clock) => Update(s, clock)
    case Restart(clock) => LoadFromDB(clock, s.tables)
  }

  function Run(s: State, requests: seq<Request>): State
    decreases requests
  {
    if requests == [] then s else Run(Step(s, requests[0]), requests[1..])
  }

  /** The tables hold fewer rows than the id columns have values. */
  predicate SmallTables(t: Tables) { |t.events| < DELETED_ID && |t.invites| < DELETED_ID }

  /** They do at every restart of the run. */
  predicate SmallAtRestarts(s: State, requests: seq<Request>)
    decreases requests
  {
    requests == [] || (
      && (requests[0].Restart? ==> SmallTables(s.tables))
      && SmallAtRestarts(Step(s, requests[0]), requests[1..]))
  }

  lemma StepConsistent(s: State, r: Request)
    requires Consistent(s) && (r.Restart? ==> SmallTables(s.tables))
    ensures Consistent(Step(s, r))
  {
    hide Consistent, AddEvent, AddInvite, CopyEvent, UpdateEvent, RemoveEvent, RemoveInvite, SetStatus, SetRank,
      RemoveCalendar, Update, LoadFromDB;
    match r
    case Add(now, online, creator, guild, d) => AddEventKeeps(s, now, online, creator, guild, d);
    case Invite(e, sender, invitee, status, rank, text, now) =>
      if LiveEvent(s, e) { AddInviteKeeps(s, e, sender, invitee, status, rank, text, now); }
    case Copy(now, online, e, newTime, guid, guild, order) =>
      CopyEventKeeps(s, now, online, e, newTime, guid, guild, order);
    case Change(guid, found, e, d) => UpdateEventKeeps(s, guid, found, e, d);
    case Remove(e, remover) => RemoveEventKeeps(s, e, remover);
    case Uninvite(e, i, remover, found) => RemoveInviteKeeps(s, e, i, remover, found);
    case Answer(rsvp, guid, found, e, i, status, now) => SetStatusKeeps(s, rsvp, guid, found, e, i, status, now);
    case Promote(guid, found, e, i, rank) => SetRankKeeps(s, guid, found, e, i, rank);
    case Depart(player, guildOnly) => RemoveCalendarKeeps(s, player, guildOnly);
    case Tick(clock) => UpdateKeeps(s, clock);
    case Restart(clock) => RestartKeeps(s, clock);
  }

  lemma RestartKeeps(s: State, c: Clock)
    requires Consistent(s) && SmallTables(s.tables)
    ensures Consistent(LoadFromDB(c, s.tables))
  {
    assert 0 !in s.tables.events && 0 !in s.tables.invites;
    hide Consistent, Compact, LoadFromDB;
    CompactKeepsPositive(c, s.tables);
    LoadKeeps(c, s.tables);
  }

  lemma {:induction false} RunConsistent(s: State, requests: seq<Request>)
    requires Consistent(s) && SmallAtRestarts(s, requests)
    ensures Consistent(Run(s, requests))
    decreases requests
  {
    hide Consistent, Step;
    if requests != [] {
      StepConsistent(s, requests[0]);
      RunConsistent(Step(s, requests[0]), requests[1..]);
    }
  }

  lemma CompactKeepsPositive(c: Clock, t: Tables)
    requires Positive(t)
    ensures 0 !in Compact(c, t).events && 0 !in Compact(c, t).invites
  {
    hide Rank;
    if t.events != map[] {
      PositiveIds(c, t);
    }
  }

  lemma PositiveIds(c: Clock, t: Tables)
    requires Positive(t) && t.events != map[]
    ensures 0 !in Compact(c, t).events && 0 !in Compact(c, t).invites
  {
    hide Rank, Compact;
    CompactIsSimultaneous(c, t);
    forall k | k in Live(c, t.events) ensures Rank(Live(c, t.events), k) > 0 { RankInRange(Live(c, t.events), k); }
    forall i | i in t.invites ensures Rank(t.invites.Keys, i) > 0 { RankInRange(t.invites.Keys, i); }
  }

  /** After a start the next event id is one more than the events left, and the next invite id is
      behind the largest invite left: no id is wasted between two starts. */
  lemma NextIdsAfterStart(c: Clock, t: Tables)
    requires Positive(t)
    ensures var s := LoadFromDB(c, t);
      s.nextEvent == |Live(c, t.events)| + 1 && NextBehind(s.nextInvite, s.tables.invites.Keys)
  {
    hide Compact, LoadedState, Live, NextBehind;
    CompactKeepsPositive(c, t);
    LoadedNextIds(Compact(c, t));
    var n, keys := |Live(c, t.events)|, Compact(c, t).events.Keys;
    if t.events != map[] { EventIdsAreCompact(c, t); } else { NoneLive(c, t); }
    BehindUpTo(LoadFromDB(c, t).nextEvent, n);
  }

  lemma NoneLive(c: Clock, t: Tables)
    requires t.events == map[]
    ensures Live(c, t.events) == {} && Compact(c, t).events.Keys == UpTo(0)
  {
  }

  lemma BehindUpTo(next: nat, n: nat)
    requires NextBehind(next, UpTo(n))
    ensures next == n + 1
  {
    if n > 0 { assert n in UpTo(n); }
    if next > 1 { assert next - 1 in UpTo(n); }
  }

  /** From a start on any tables, after any run: two updates settle everything. */
  lemma RunThenTwoUpdates(start: Clock, t: Tables, requests: seq<Request>, c: Clock)
    requires Positive(t) && SmallAtRestarts(LoadFromDB(start, t), requests)
    ensures Settled(Run(Run(LoadFromDB(start, t), requests), [Tick(c), Tick(c)]), c)
  {
    hide LoadFromDB, Update, Consistent, Settled, Compact;
    CompactKeepsPositive(start, t);
    LoadKeeps(start, t);
    var s := Run(LoadFromDB(start, t), requests);
    RunConsistent(LoadFromDB(start, t), requests);
    TwoUpdatesSettle(s, c);
    assert [Tick(c), Tick(c)][1..] == [Tick(c)] && [Tick(c)][1..] == [];
    assert Run(Update(s, c), [Tick(c)]) == Run(Update(Update(s, c), c), []);
  }

  /** A settled state stays as it is: a third update changes nothing. */
  lemma SettledIsFixed(s: State, c: Clock)
    requires Settled(s, c)
    ensures Update(s, c) == s
  {
    hide Expired, SaveEvents, SaveInvites;
    assert MarkEvents(s, c) == s && MarkInvites(s) == s;
    SettledIsSaved(s, c);
  }

  lemma SettledIsSaved(s: State, c: Clock)
    requires Settled(s, c)
    ensures SaveEvents(s) == s && SaveInvites(s) == s
  {
    hide Expired, NothingDue;
    assert forall e: nat :: !EventErased(s, e);
    assert forall i: nat :: !Orphaned(s, i);
  }

  // ----- one update is not enough -----

  function EmptyState(): State {
    State(map[], map[], Tables(map[], map[]), 1, 1)
  }

  /** An event made and removed between two updates is first written to its table, and goes only
      with the second update. */
  lemma OneUpdateIsNotEnough(d: EventRow, c: Clock)
    requires d.title != "" && d.time >= 0
    ensures var s := Run(EmptyState(), [Add(0, true, 1, 0, d), Remove(1, 1), Tick(c)]);
            1 in s.events && s.events[1].deleted && 1 in s.tables.events
  {
    hide Step, Update, Expired, Run;
    RunOfThree(EmptyState(), Add(0, true, 1, 0, d), Remove(1, 1), Tick(c));
    RemovedBeforeSaved(d);
    RemovedUnsavedStays(RemoveEvent(AddEvent(EmptyState(), 0, true, 1, 0, d), 1, 1), c, 1);
    TickIsUpdate(RemoveEvent(AddEvent(EmptyState(), 0, true, 1, 0, d), 1, 1), c);
  }

  lemma RunOfThree(s: State, r0: Request, r1: Request, r2: Request)
    ensures Run(s, [r0, r1, r2]) == Step(Step(Step(s, r0), r1), r2)
  {
    hide Step;
    assert [r0, r1, r2][1..] == [r1, r2] && [r1, r2][1..] == [r2] && [r2][1..] == [];
    assert Run(Step(Step(s, r0), r1), [r2]) == Run(Step(Step(Step(s, r0), r1), r2), []);
  }

  lemma TickIsUpdate(s: State, c: Clock)
    ensures Step(s, Tick(c)) == Update(s, c)
  {
  }

  lemma RemovedBeforeSaved(d: EventRow)
    requires d.title != "" && d.time >= 0
    ensures var s := RemoveEvent(AddEvent(EmptyState(), 0, true, 1, 0, d), 1, 1);
            && Step(Step(EmptyState(), Add(0, true, 1, 0, d)), Remove(1, 1)) == s
            && 1 in s.events && s.events[1].deleted && !s.events[1].saved
  {
  }

  lemma RemovedUnsavedStays(s: State, c: Clock, e: nat)
    requires e in s.events && s.events[e].deleted && !s.events[e].saved
    ensures e in Update(s, c).events && Update(s, c).events[e].deleted && e in Update(s, c).tables.events
  {
  }

  // ----- stopping and starting again -----

  /** `t'` holds the rows of `t` under the ranks of their ids, references included. */
  predicate Renumbered(t: Tables, t': Tables) {
    && t'.events.Keys == UpTo(|t.events.Keys|) && t'.invites.Keys == UpTo(|t.invites.Keys|)
    && (forall e: nat :: e in t.events ==>
      Rank(t.events.Keys, e) in t'.events && t'.events[Rank(t.events.Keys, e)] == t.events[e])
    && (forall i: nat :: i in t.invites ==>
      Rank(t.invites.Keys, i) in t'.invites && t'.invites[Rank(t.invites.Keys, i)] == Renamed(t, t.invites[i]))
  }

  function Renamed(t: Tables, row: InviteRow): InviteRow {
    row.(event := Rank(t.events.Keys, row.event))
  }

  lemma NothingExpiredRenumbers(c: Clock, t: Tables)
    requires Positive(t) && t.events != map[] && ReferencesHold(t) && Live(c, t.events) == t.events.Keys
    ensures Renumbered(t, Compact(c, t))
  {
    hide Rank, Compact, UpTo, Live, SurvivorsFirst, EventsCompacted, InvitesCompacted, Survivors, ReferencesHold;
    CompactIsSimultaneous(c, t);
    EventIdsAreCompact(c, t);
    AllSurvive(c, t);
    InviteIdsCompactIff(c, t);
    AllRenumbered(c, t, Compact(c, t));
  }

  lemma AllSurvive(c: Clock, t: Tables)
    requires ReferencesHold(t) && Live(c, t.events) == t.events.Keys
    ensures Survivors(c, t) == t.invites.Keys && SurvivorsFirst(t.invites.Keys, Survivors(c, t))
  {
  }

  lemma AllRenumbered(c: Clock, t: Tables, t': Tables)
    requires EventsCompacted(c, t, t'.events) && InvitesCompacted(c, t, t'.invites)
    requires ReferencesHold(t) && Live(c, t.events) == t.events.Keys && Survivors(c, t) == t.invites.Keys
    requires t'.events.Keys == UpTo(|t.events.Keys|) && t'.invites.Keys == UpTo(|t.invites.Keys|)
    ensures Renumbered(t, t')
  {
    hide Rank, UpTo, Live, Survivors;
    forall i: nat | i in t.invites ensures NewInvite(c, t, i) == Renamed(t, t.invites[i]) {
      assert t.invites[i].event in t.events;
    }
  }

  /** The events of `t` alive and saved, with the invitees they have in `u`. */
  function LoadedWith(u: State, t: Tables): map<nat, Event>
    requires t.events.Keys <= u.events.Keys
  {
    map e | e in t.events :: Event(t.events[e], u.events[e].invitees, true, false)
  }

  /** A start from the tables of a settled calendar brings back every event and every invite,
      alive and saved, under the ranks of their ids. */
  lemma RestartRestores(s: State, c: Clock)
    requires Settled(s, c) && Positive(s.tables) && s.events != map[]
    ensures var u := LoadFromDB(c, s.tables);
            && Renumbered(s.tables, u.tables)
            && u.tables.events.Keys <= u.events.Keys && u.events == LoadedWith(u, u.tables)
            && u.invites == (map i | i in u.tables.invites :: Invite.Invite(u.tables.invites[i], true, false))
  {
    hide Compact, Rank, Settled, Positive, ReferencesHold, Renumbered, LoadFromDB;
    var t := s.tables;
    SettledTables(s, c);
    NothingExpiredRenumbers(c, t);
    NotEmpty(c, t);
    ReferencesRenumbered(t, Compact(c, t));
    LoadedShape(c, t);
  }

  lemma LoadedShape(c: Clock, t: Tables)
    requires Compact(c, t).events != map[] && ReferencesHold(Compact(c, t))
    ensures var u := LoadFromDB(c, t);
            && u.tables == Compact(c, t)
            && u.tables.events.Keys <= u.events.Keys && u.events == LoadedWith(u, u.tables)
            && u.invites == (map i | i in u.tables.invites :: Invite.Invite(u.tables.invites[i], true, false))
  {
    hide Compact, MaxId, MaxInviteId, Ordered;
  }

  lemma SettledTables(s: State, c: Clock)
    requires Settled(s, c)
    ensures Live(c, s.tables.events) == s.tables.events.Keys == s.events.Keys
    ensures ReferencesHold(s.tables)
    ensures s.events != map[] ==> s.tables.events != map[]
  {
    assert forall e: nat :: e in s.events ==> LiveEvent(s, e);
    forall i: nat | i in s.invites ensures s.invites[i].row.event in s.events { assert LiveInvite(s, i); }
  }

  lemma ReferencesRenumbered(t: Tables, t': Tables)
    requires Renumbered(t, t') && ReferencesHold(t)
    ensures ReferencesHold(t')
  {
    hide Rank, UpTo;
    RanksCover(t.invites.Keys);
    forall k | k in t'.invites ensures t'.invites[k].event in t'.events {
      assert k in (set x | x in t.invites.Keys :: Rank(t.invites.Keys, x));
      var i :| i in t.invites && Rank(t.invites.Keys, i) == k;
      assert t.invites[i].event in t.events;
    }
  }

  lemma NotEmpty(c: Clock, t: Tables)
    requires Renumbered(t, Compact(c, t)) && t.events != map[]
    ensures Compact(c, t).events != map[]
  {
    var e :| e in t.events;
    assert Rank(t.events.Keys, e) in Compact(c, t).events;
  }

  // ----- the invitee sets -----

  /** Events of `s` that are still there keep their invitees, and no old id comes back. */
  predicate InviteesGrow(s: State, t: State) {
    && s.nextEvent <= t.nextEvent
    && (forall e: nat :: e in t.events && e < s.nextEvent ==>
        e in s.events && s.events[e].invitees <= t.events[e].invitees)
  }

  lemma GrowTwice(s: State, t: State, u: State)
    ensures InviteesGrow(s, s) && (InviteesGrow(s, t) && InviteesGrow(t, u) ==> InviteesGrow(s, u))
  {
  }

  lemma AddInviteGrows(s: State, e: nat, sender: nat, invitee: nat, status: nat, rank: nat, text: string, now: int)
    requires e in s.events
    ensures var t := AddInvite(s, e, sender, invitee, status, rank, text, now); e in t.events && InviteesGrow(s, t)
  {
  }

  lemma {:induction false} CopyInvitesGrow(s: State, order: seq<nat>, e: nat, guid: nat, now: int)
    requires e in s.events
    ensures InviteesGrow(s, CopyInvites(s, order, e, guid, now))
    decreases order
  {
    hide InviteesGrow, AddInvite;
    GrowTwice(s, s, s);
    if order != [] {
      var i := order[0];
      var t := CopyInvite(s, i, e, guid, now);
      if LiveInvite(s, i) {
        var row := s.invites[i].row;
        AddInviteGrows(s, e, guid, guid, STATUS_CONFIRMED, RANK_OWNER, "", now);
        AddInviteGrows(s, e, guid, row.invitee, STATUS_INVITED,
            if row.rank == RANK_MODERATOR then RANK_MODERATOR else RANK_PLAYER, "", now);
      }
      CopyInvitesGrow(t, order[1..], e, guid, now);
      GrowTwice(s, t, CopyInvites(s, order, e, guid, now));
    }
  }

  lemma CopyEventGrows(s: State, now: int, online: bool, e: nat, newTime: int, guid: nat, guild: nat, order: seq<nat>)
    ensures InviteesGrow(s, CopyEvent(s, now, online, e, newTime, guid, guild, order))
  {
    if LiveEvent(s, e) {
      var d := s.events[e].row.(time := newTime);
      if AcceptsEvent(now, online, d) {
        var s1 := AddEvent(s, now, online, guid, guild, d);
        AddInviteGrows(s1, s.nextEvent, guid, guid, STATUS_CONFIRMED, RANK_OWNER, "", now);
        CopyInvitesGrow(s1, order, s.nextEvent, guid, now);
        hide AddInvite, CopyInvites, CopyInvite;
        var s2 :=
          if d.IsGuildAnnouncement() then AddInvite(s1, s.nextEvent, guid, guid, STATUS_CONFIRMED, RANK_OWNER, "", now)
          else CopyInvites(s1, order, s.nextEvent, guid, now);
        assert InviteesGrow(s, s1) && InviteesGrow(s1, s2);
        GrowTwice(s, s1, s2);
      }
    }
  }

  lemma UpdateGrows(s: State, c: Clock)
    ensures InviteesGrow(s, Update(s, c))
    ensures forall e: nat :: LiveEvent(Update(s, c), e) <==> LiveEvent(s, e) && !Due(s, c, e)
  {
    hide Expired, Orphaned;
  }

  lemma StepGrows(s: State, r: Request)
    requires !r.Restart?
    ensures InviteesGrow(s, Step(s, r))
  {
    hide AddInvite, CopyEvent, Update, Leaves, InviteLeaves, MayChange;
    match r
    case Invite(e, sender, invitee, status, rank, text, now) =>
      if LiveEvent(s, e) { AddInviteGrows(s, e, sender, invitee, status, rank, text, now); }
    case Copy(now, online, e, newTime, guid, guild, order) =>
      CopyEventGrows(s, now, online, e, newTime, guid, guild, order);
    case Tick(clock) => UpdateGrows(s, clock);
    case _ =>
  }

  predicate NoRestart(requests: seq<Request>) {
    forall k :: 0 <= k < |requests| ==> !requests[k].Restart?
  }

  /** Between two starts the invitee set of an event never shrinks, whatever becomes of the
      invites in it. */
  lemma {:induction false} InviteesNeverShrink(s: State, requests: seq<Request>)
    requires NoRestart(requests)
    ensures InviteesGrow(s, Run(s, requests))
    decreases requests
  {
    hide InviteesGrow, Step;
    GrowTwice(s, s, s);
    if requests != [] {
      StepGrows(s, requests[0]);
      InviteesNeverShrink(Step(s, requests[0]), requests[1..]);
      GrowTwice(s, Step(s, requests[0]), Run(s, requests));
    }
  }

  /** Hence an event that had an invitee once is removed by a later update only when it has
      expired, even if all its invites are gone, as long as the server is not started again. */
  lemma EventOutlivesInvites(s: State, requests: seq<Request>, c: Clock, e: nat)
    requires Consistent(s) && NoRestart(requests) && e in s.events && s.events[e].invitees != {}
    requires LiveEvent(Run(s, requests), e)
    ensures LiveEvent(Update(Run(s, requests), c), e) <==> !Expired(c, Run(s, requests).events[e].row)
  {
    hide Update, Expired;
    InviteesNeverShrink(s, requests);
    UpdateGrows(Run(s, requests), c);
  }

  /** No request changes event `e`, and the server is not started again. */
  predicate Untouched(requests: seq<Request>, e: nat) {
    NoRestart(requests) && forall k :: 0 <= k < |requests| ==> requests[k].Change? ==> requests[k].event != e
  }

  /** An announcement without invitees, or no event any more. */
  predicate Barren(s: State, e: nat) {
    e < s.nextEvent && (e in s.events ==> s.events[e].row.IsGuildAnnouncement() && s.events[e].invitees == {})
  }

  lemma AddInviteBarren(s: State, n: nat, sender: nat, invitee: nat, status: nat, rank: nat, text: string, now: int,
                        e: nat)
    requires n in s.events && Barren(s, e)
    ensures Barren(AddInvite(s, n, sender, invitee, status, rank, text, now), e)
  {
  }

  lemma {:induction false} CopyInvitesBarren(s: State, order: seq<nat>, n: nat, guid: nat, now: int, e: nat)
    requires n in s.events && Barren(s, e)
    ensures Barren(CopyInvites(s, order, n, guid, now), e)
    decreases order
  {
    hide Barren;
    if order != [] {
      var i := order[0];
      if LiveInvite(s, i) {
        var row := s.invites[i].row;
        AddInviteBarren(s, n, guid, guid, STATUS_CONFIRMED, RANK_OWNER, "", now, e);
        AddInviteBarren(s, n, guid, row.invitee, STATUS_INVITED,
            if row.rank == RANK_MODERATOR then RANK_MODERATOR else RANK_PLAYER, "", now, e);
      }
      CopyInvitesBarren(CopyInvite(s, i, n, guid, now), order[1..], n, guid, now, e);
    }
  }

  lemma StepBarren(s: State, r: Request, e: nat)
    requires Barren(s, e) && Untouched([r], e)
    ensures Barren(Step(s, r), e)
  {
    assert !r.Restart? && (r.Change? ==> r.event != e) by { assert [r][0] == r; }
    hide AddInvite, Update, CopyEvent, Leaves, InviteLeaves, MayChange, Untouched;
    match r
    case Invite(n, sender, invitee, status, rank, text, now) =>
      if LiveEvent(s, n) { AddInviteBarren(s, n, sender, invitee, status, rank, text, now, e); }
    case Copy(now, online, n, newTime, guid, guild, order) =>
      CopyBarren(s, now, online, n, newTime, guid, guild, order, e);
    case Tick(clock) => TickBarren(s, clock, e);
    case _ =>
  }

  lemma TickBarren(s: State, c: Clock, e: nat)
    requires Barren(s, e)
    ensures Barren(Update(s, c), e) && !LiveEvent(Update(s, c), e)
  {
    hide Expired, Orphaned;
  }

  lemma CopyBarren(s: State, now: int, online: bool, n: nat, newTime: int, guid: nat, guild: nat, order: seq<nat>,
                   e: nat)
    requires Barren(s, e)
    ensures Barren(CopyEvent(s, now, online, n, newTime, guid, guild, order), e)
  {
    if LiveEvent(s, n) {
      var d := s.events[n].row.(time := newTime);
      if AcceptsEvent(now, online, d) {
        var s1 := AddEvent(s, now, online, guid, guild, d);
        AddInviteBarren(s1, s.nextEvent, guid, guid, STATUS_CONFIRMED, RANK_OWNER, "", now, e);
        CopyInvitesBarren(s1, order, s.nextEvent, guid, now, e);
        hide AddInvite, CopyInvites, CopyInvite;
      }
    }
  }

  lemma {:induction false} RunBarren(s: State, requests: seq<Request>, e: nat)
    requires Barren(s, e) && Untouched(requests, e)
    ensures Barren(Run(s, requests), e)
    decreases requests
  {
    hide Barren, Step;
    if requests != [] {
      StepBarren(s, requests[0], e);
      RunBarren(Step(s, requests[0]), requests[1..], e);
    }
  }

  /** A guild announcement never gets an invitee, whoever is invited, so unless it is edited the
      next update removes it, long before its time. */
  lemma AnnouncementGoes(s: State, now: int, online: bool, creator: nat, guild: nat, d: EventRow,
                         requests: seq<Request>, c: Clock)
    requires AcceptsEvent(now, online, d) && d.IsGuildAnnouncement() && Untouched(requests, s.nextEvent)
    ensures var s1 := AddEvent(s, now, online, creator, guild, d);
            LiveEvent(s1, s.nextEvent) && !LiveEvent(Update(Run(s1, requests), c), s.nextEvent)
  {
    var s1 := AddEvent(s, now, online, creator, guild, d);
    RunBarren(s1, requests, s.nextEvent);
    TickBarren(Run(s1, requests), c, s.nextEvent);
  }

  /** After a start the first update also removes the events that no invite row names. */
  lemma RestartDropsEmpty(t: Tables, c: Clock, later: Clock, e: nat)
    requires e in LoadFromDB(c, t).events
    ensures var u := LoadFromDB(c, t);
            LiveEvent(Update(u, later), e) <==>
              !Expired(later, u.events[e].row) && exists i :: i in u.tables.invites && u.tables.invites[i].event == e
  {
    hide Compact, Expired, Update, MaxId, MaxInviteId, Ordered;
    var u := LoadFromDB(c, t);
    assert u.events[e].invitees == InvitesNaming(u.tables, e) && !u.events[e].deleted;
    UpdateGrows(u, later);
    if exists i :: i in u.tables.invites && u.tables.invites[i].event == e {
      var i :| i in u.tables.invites && u.tables.invites[i].event == e;
      assert i in InvitesNaming(u.tables, e);
    }
  }
}
