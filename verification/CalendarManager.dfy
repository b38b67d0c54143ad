/** The calendar manager itself: stores, tables and open transaction as fields, loops over hash
    maps in no particular order, each method tied to the function of the same name. */
module CalendarManager {
  import opened CalendarTables
  import opened CalendarRemap
  import opened CalendarStore

  datatype RemapAction = DelExpired | RemapEvents | RemapInvites

  // ----- half-done loops -----

  function PartlyMarked(s: State, c: Clock, todo: set<nat>): State {
    s.(events := map e | e in s.events :: if e in todo then s.events[e] else MarkEvents(s, c).events[e])
  }

  function PartlyMarkedInvites(s: State, todo: set<nat>): State {
    s.(invites := map i | i in s.invites :: if i in todo then s.invites[i] else MarkInvites(s).invites[i])
  }

  predicate OrphanedAmong(s: State, done: set<nat>, i: nat) {
    exists e | e in done :: EventErased(s, e) && i in s.events[e].invitees
  }

  function OrphanedInvites(s: State, done: set<nat>): map<nat, Invite> {
    map i | i in s.invites :: if OrphanedAmong(s, done, i) then s.invites[i].(deleted := true) else s.invites[i]
  }

  function PartlySavedStore(s: State, todo: set<nat>): map<nat, Event> {
    map e | e in s.events && (e in todo || !EventErased(s, e)) ::
      if e in todo then s.events[e] else s.events[e].(saved := true)
  }

  function PartlySavedTable(s: State, todo: set<nat>): map<nat, EventRow> {
    map e |
      e in s.events.Keys + s.tables.events.Keys
      && (e in todo || e in SaveEvents(s).tables.events) && (e !in todo || e in s.tables.events) ::
      if e in todo then s.tables.events[e] else SaveEvents(s).tables.events[e]
  }

  function PartlySavedInvites(s: State, todo: set<nat>): map<nat, Invite> {
    map i | i in s.invites && (i in todo || !InviteErased(s, i)) ::
      if i in todo then s.invites[i] else s.invites[i].(saved := true)
  }

  function PartlySavedInviteTable(s: State, todo: set<nat>): map<nat, InviteRow> {
    map i |
      i in s.invites.Keys + s.tables.invites.Keys
      && (i in todo || i in SaveInvites(s).tables.invites) && (i !in todo || i in s.tables.invites) ::
      if i in todo then s.tables.invites[i] else SaveInvites(s).tables.invites[i]
  }

  class CalendarMgr {
    var events: map<nat, Event>
    var invites: map<nat, Invite>
    var tables: Tables
    var queue: seq<Statement>
    var nextEvent: nat
    var nextInvite: nat

    function View(): State
      reads this
    {
      State(events, invites, tables, nextEvent, nextInvite)
    }

    constructor (tables: Tables)
      ensures View() == State(map[], map[], tables, 1, 1) && queue == []
    {
      events, invites, this.tables, queue, nextEvent, nextInvite := map[], map[], tables, [], 1, 1;
    }

    // ----- startup -----

    method DBRemap(action: RemapAction, remapData: seq<Gee>)
      modifies `queue
      ensures action.DelExpired? ==> queue == old(queue) + Deletes(remapData)
      ensures action.RemapEvents? ==> queue == old(queue) + EventRenames(remapData)
      ensures action.RemapInvites? ==> queue == old(queue) + InviteRenames(remapData)
    {
      for k := 0 to |remapData|
        invariant action.DelExpired? ==> queue + Deletes(remapData[k..]) == old(queue) + Deletes(remapData)
        invariant action.RemapEvents? ==> queue + EventRenames(remapData[k..]) == old(queue) + EventRenames(remapData)
        invariant action.RemapInvites? ==>
            queue + InviteRenames(remapData[k..]) == old(queue) + InviteRenames(remapData)
      {
        var gee := remapData[k];
        assert remapData[k..][1..] == remapData[k + 1..];
        match action
        case DelExpired =>
          if gee.second == DELETED_ID {
            queue := queue + [DeleteEvent(gee.first), DeleteInvitesOf(gee.first)];
          }
        case RemapEvents =>
          queue := queue + [RenameEvent(gee.first, gee.second), RenameEventOfInvites(gee.first, gee.second)];
        case RemapInvites =>
          queue := queue + [RenameInvite(gee.first, gee.second)];
      }
    }

    /** The first loop of DBRemoveExpiredEventsAndRemapData over the rows of its query. */
    method NumberEvents(c: Clock, ids: seq<nat>) returns (remapData: seq<Gee>, remapId: nat)
      requires forall k :: k in ids ==> k in tables.events
      requires |ids| < DELETED_ID
      ensures remapData == EventRemap(c, tables.events, ids, 1)
      ensures remapId > |remapData| ==> Deletes(remapData) == []
    {
      remapData, remapId := [], 1;
      for k := 0 to |ids|
        invariant remapData + EventRemap(c, tables.events, ids[k..], remapId) == EventRemap(c, tables.events, ids, 1)
        invariant |remapData| == k && remapId <= k + 1
        invariant remapId == k + 1 ==> AtMost(remapData, k)
      {
        RemapStep(c, tables.events, ids, k, remapId, remapData);
        if Expired(c, tables.events[ids[k]]) {
          remapData := remapData + [Gee(ids[k], DELETED_ID)];
        } else {
          remapData := remapData + [Gee(ids[k], remapId)];
          remapId := remapId + 1;
        }
      }
      if remapId > |remapData| {
        NothingToDelete(remapData, |ids|);
      }
    }

    method NumberInvites(ids: seq<nat>) returns (remapData: seq<Gee>)
      ensures remapData == InviteRemap(ids, 1)
    {
      remapData := [];
      var remapId := 1;
      for k := 0 to |ids|
        invariant remapId == k + 1
        invariant remapData + InviteRemap(ids[k..], remapId) == InviteRemap(ids, 1)
      {
        NumberStep(ids, k, remapId, remapData);
        if ids[k] != remapId {
          remapData := remapData + [Gee(ids[k], remapId)];
        }
        remapId := remapId + 1;
      }
    }

    method DBRemoveExpiredEventsAndRemapData(c: Clock)
      requires |tables.events| < DELETED_ID && queue == []
      modifies `tables, `queue
      ensures tables == Compact(c, old(tables)) && queue == []
    {
      if tables.events == map[] {
        return;
      }
      OrderedIsAscending(tables.events.Keys);
      var ids := Ordered(tables.events.Keys);
      var remapData, remapId := NumberEvents(c, ids);
      ghost var all := remapData;
      if remapId <= |remapData| {
        DBRemap(DelExpired, remapData);
      }
      assert queue == Deletes(all);
      remapData := Remapped(remapData);
      if remapData != [] {
        DBRemap(RemapEvents, remapData);
      }
      assert queue == Deletes(all) + EventRenames(Remapped(all));
      var invites := NumberInvites(Ordered(tables.invites.Keys));
      if invites != [] {
        DBRemap(RemapInvites, invites);
      }
      assert queue == Queue(c, tables);
      tables, queue := Commit(tables, queue), [];
    }

    method LoadEvents(ids: seq<nat>) returns (maxEventId: nat)
      requires forall e: nat :: e in ids <==> e in tables.events
      requires events == map[]
      modifies `events
      ensures events == map e | e in tables.events :: Event(tables.events[e], {}, true, false)
      ensures maxEventId == MaxId(ids, 0)
    {
      maxEventId := 0;
      for k := 0 to |ids|
        invariant events == map e | e in ids[..k] :: Event(tables.events[e], {}, true, false)
        invariant MaxId(ids[k..], maxEventId) == MaxId(ids, 0)
      {
        assert ids[k..][0] == ids[k] && ids[k..][1..] == ids[k + 1..];
        assert ids[..k + 1] == ids[..k] + [ids[k]];
        events := events[ids[k] := Event(tables.events[ids[k]], {}, true, false)];
        maxEventId := if maxEventId < ids[k] then ids[k] else maxEventId;
      }
      assert ids[..|ids|] == ids;
    }

    /** One row of the invite query. */
    method LoadInvite(done: seq<nat>, i: nat)
      requires i in tables.invites && forall k: nat :: k in done ==> k in tables.invites
      requires events == PartlyLoadedEvents(tables, done)
      modifies `events, `invites
      ensures events == PartlyLoadedEvents(tables, done + [i])
      ensures invites == old(invites)[i := LoadedInvite(tables, tables.invites[i])]
    {
      hide PartlyNaming;
      var row := tables.invites[i];
      LoadedStep(tables, done, i);
      if row.event in events {
        invites := invites[i := Invite(row, true, false)];
        var event := events[row.event];
        events := events[row.event := event.(invitees := event.invitees + {i})];
      } else {
        invites := invites[i := Invite(row.(event := 0), true, true)];
      }
    }

    method LoadInvites(ids: seq<nat>, maxEventId: nat) returns (maxInviteId: nat)
      requires forall i: nat :: i in ids <==> i in tables.invites
      requires events == map e | e in tables.events :: Event(tables.events[e], {}, true, false)
      requires invites == map[]
      modifies `events, `invites
      ensures events == LoadedEvents(tables)
      ensures invites == map i | i in tables.invites :: LoadedInvite(tables, tables.invites[i])
      ensures maxInviteId == MaxInviteId(ids, 0, maxEventId)
    {
      hide PartlyLoadedEvents, LoadedEvents, LoadedInvite, MaxInviteId;
      maxInviteId := 0;
      LoadedNone(tables);
      for k := 0 to |ids|
        invariant events == PartlyLoadedEvents(tables, ids[..k])
        invariant invites == map i | i in ids[..k] :: LoadedInvite(tables, tables.invites[i])
        invariant MaxInviteId(ids[k..], maxInviteId, maxEventId) == MaxInviteId(ids, 0, maxEventId)
      {
        MaxInviteStep(ids, k, maxInviteId, maxEventId);
        assert ids[..k + 1] == ids[..k] + [ids[k]];
        LoadInvite(ids[..k], ids[k]);
        maxInviteId := if maxInviteId < ids[k] then ids[k] else maxEventId;
      }
      assert ids[..|ids|] == ids;
      MaxInviteEnd(ids, maxInviteId, maxEventId);
      LoadedAll(tables, ids);
    }

    /** LoadFromDB after the clean-up: the rows of both tables, in the order of their ids. */
    method LoadTables()
      requires events == map[] && invites == map[]
      modifies this
      ensures View() == LoadedState(old(tables)) && queue == old(queue)
    {
      hide PartlyLoadedEvents, LoadedEvents, LoadedInvite, Ordered, Ascending;
      OrderedIsAscending(tables.events.Keys);
      OrderedIsAscending(tables.invites.Keys);
      LoadedNone(tables);
      var maxEventId := LoadEvents(Ordered(tables.events.Keys));
      nextEvent := maxEventId + 1;
      var maxInviteId := 0;
      if tables.invites != map[] {
        if tables.events != map[] {
          maxInviteId := LoadInvites(Ordered(tables.invites.Keys), maxEventId);
        } else {
          tables := tables.(invites := map[]);
        }
      } else {
        LoadedAll(tables, []);
      }
      assert |tables.events| == |tables.events.Keys| && |tables.invites| == |tables.invites.Keys|;
      assert tables.events == map[] ==> Ordered(tables.events.Keys) == [];
      assert tables.invites == map[] ==> Ordered(tables.invites.Keys) == [];
      nextInvite := maxInviteId + 1;
    }

    method LoadFromDB(c: Clock)
      requires |tables.events| < DELETED_ID && queue == []
      modifies this
      ensures View() == CalendarStore.LoadFromDB(c, old(tables))
    {
      events, invites := map[], map[];
      DBRemoveExpiredEventsAndRemapData(c);
      LoadTables();
    }

    // ----- requests -----

    /** CalendarEvent::GetInviteByGuid on a live event; 0 stands for no invite. */
    method GetInviteByGuid(e: nat, guid: nat) returns (found: nat)
      requires 0 !in invites
      ensures FoundByGuid(View(), e, guid, found)
    {
      found := 0;
      if guid == 0 || !LiveEvent(View(), e) {
        return;
      }
      var todo := events[e].invitees;
      while todo != {}
        invariant todo <= events[e].invitees
        invariant forall i: nat :: i in events[e].invitees - todo ==> !InviteOfPlayer(View(), e, i, guid)
        decreases |todo|
      {
        var i :| i in todo;
        todo := todo - {i};
        if i in invites && !invites[i].deleted && invites[i].row.invitee == guid {
          return i;
        }
      }
    }

    method AddEvent(now: int, online: bool, creator: nat, guild: nat, d: EventRow) returns (e: nat)
      modifies `events, `nextEvent
      ensures View() == CalendarStore.AddEvent(old(View()), now, online, creator, guild, d)
      ensures e == if AcceptsEvent(now, online, d) then old(nextEvent) else 0
    {
      if !online {
        return 0;
      }
      if d.title == "" {
        return 0;
      }
      if d.time < now {
        return 0;
      }
      e := nextEvent;
      nextEvent := nextEvent + 1;
      var eventGuild := if d.IsGuildEvent() || d.flags != 0 then guild else 0;
      events := events[e := Event(d.(creator := creator, guild := eventGuild), {}, false, false)];
    }

    method AddInvite(e: nat, sender: nat, invitee: nat, status: nat, rank: nat, text: string, now: int)
      requires e in events
      modifies `events, `invites, `nextInvite
      ensures View() == CalendarStore.AddInvite(old(View()), e, sender, invitee, status, rank, text, now)
      ensures events.Keys == old(events.Keys)
    {
      var i := nextInvite;
      nextInvite := nextInvite + 1;
      var invite := Invite(InviteRow(e, invitee, sender, status, now, rank, text), false, false);
      invites := invites[i := invite];
      var event := events[e];
      if event.row.IsGuildAnnouncement() {
        invites := invites[i := invite.(deleted := true)];
        return;
      }
      if i in event.invitees {
        invites := invites[i := invite.(deleted := true)];
        return;
      }
      events := events[e := event.(invitees := event.invitees + {i})];
      invites := invites[i := invite.(saved := false)];
    }

    method CopyEvent(now: int, online: bool, e: nat, newTime: int, guid: nat, guild: nat, order: seq<nat>)
      modifies `events, `invites, `nextEvent, `nextInvite
      ensures View() == CalendarStore.CopyEvent(old(View()), now, online, e, newTime, guid, guild, order)
    {
      hide CalendarStore.AddEvent, CalendarStore.AddInvite;
      if e !in events || events[e].deleted {
        return;
      }
      var d := events[e].row.(time := newTime);
      var n := AddEvent(now, online, guid, guild, d);
      if !AcceptsEvent(now, online, d) {
        AddEventRefused(old(View()), now, online, guid, guild, d);
        return;
      }
      AddEventAccepted(old(View()), now, online, guid, guild, d);
      if events[n].row.IsGuildAnnouncement() {
        AddInvite(n, guid, guid, STATUS_CONFIRMED, RANK_OWNER, "", now);
      } else {
        ghost var start := View();
        for k := 0 to |order|
          invariant n in events
          invariant CopyInvites(View(), order[k..], n, guid, now) == CopyInvites(start, order, n, guid, now)
        {
          assert order[k..][0] == order[k] && order[k..][1..] == order[k + 1..];
          var i := order[k];
          if i in invites && !invites[i].deleted {
            var invite := invites[i];
            if invite.row.invitee == guid {
              AddInvite(n, guid, invite.row.invitee, STATUS_CONFIRMED, RANK_OWNER, "", now);
            } else {
              var rank := RANK_PLAYER;
              if invite.row.rank == RANK_MODERATOR {
                rank := RANK_MODERATOR;
              }
              AddInvite(n, guid, invite.row.invitee, STATUS_INVITED, rank, "", now);
            }
          }
        }
      }
      events := events[n := events[n].(saved := false)];
    }

    method RemoveEvent(e: nat, remover: nat)
      modifies `events
      ensures View() == CalendarStore.RemoveEvent(old(View()), e, remover)
    {
      if e !in events || events[e].deleted {
        return;
      }
      if remover != events[e].row.creator {
        return;
      }
      events := events[e := events[e].(deleted := true)];
    }

    /** HandleCalendarUpdateEvent. */
    method UpdateEvent(guid: nat, e: nat, d: EventRow) returns (found: nat)
      requires 0 !in invites
      modifies `events
      ensures FoundByGuid(old(View()), e, guid, found)
      ensures View() == CalendarStore.UpdateEvent(old(View()), guid, found, e, d)
    {
      found := GetInviteByGuid(e, guid);
      if e !in events || events[e].deleted {
        return;
      }
      var event := events[e];
      if guid != event.row.creator {
        if found == 0 {
          return;
        }
        if invites[found].row.rank != RANK_MODERATOR {
          return;
        }
      }
      event := event.(row := event.row.(kind := d.kind, flags := d.flags, time := d.time, dungeon := d.dungeon,
        title := d.title, description := d.description));
      events := events[e := event.(saved := false)];
    }

    /** The shared checks of the invite handlers. */
    method CheckInvite(e: nat, i: nat, guid: nat) returns (allowed: bool, found: nat)
      requires 0 !in invites
      ensures FoundByGuid(View(), e, guid, found)
      ensures allowed <==> InviteOf(View(), e, i) && MayChange(View(), i, guid, found)
    {
      found := GetInviteByGuid(e, guid);
      if e !in events || events[e].deleted {
        return false, found;
      }
      if i !in events[e].invitees || i !in invites || invites[i].deleted {
        return false, found;
      }
      if invites[i].row.invitee != guid {
        if found == 0 {
          return false, found;
        }
        if invites[found].row.rank != RANK_MODERATOR && invites[found].row.rank != RANK_OWNER {
          return false, found;
        }
      }
      return true, found;
    }

    method RemoveInvite(e: nat, i: nat, remover: nat) returns (found: nat)
      requires 0 !in invites
      modifies `invites
      ensures FoundByGuid(old(View()), e, remover, found)
      ensures View() == CalendarStore.RemoveInvite(old(View()), e, i, remover, found)
    {
      var allowed;
      allowed, found := CheckInvite(e, i, remover);
      if !allowed {
        return;
      }
      if events[e].row.creator == invites[i].row.invitee {
        return;
      }
      invites := invites[i := invites[i].(deleted := true)];
    }

    /** HandleCalendarEventStatus, or HandleCalendarEventRsvp with `rsvp`. */
    method SetStatus(rsvp: bool, guid: nat, e: nat, i: nat, status: nat, now: int) returns (found: nat)
      requires 0 !in invites
      modifies `invites
      ensures FoundByGuid(old(View()), e, guid, found)
      ensures View() == CalendarStore.SetStatus(old(View()), rsvp, guid, found, e, i, status, now)
    {
      var allowed;
      allowed, found := CheckInvite(e, i, guid);
      if e in events && rsvp && status != STATUS_REMOVED && events[e].row.InvitesLocked() {
        return;
      }
      if !allowed {
        return;
      }
      var invite := invites[i];
      invite := invite.(row := invite.row.(status := status, updated := now));
      invites := invites[i := invite.(saved := false)];
    }

    /** HandleCalendarEventModeratorStatus. */
    method SetRank(guid: nat, e: nat, i: nat, rank: nat) returns (found: nat)
      requires 0 !in invites
      modifies `invites
      ensures FoundByGuid(old(View()), e, guid, found)
      ensures View() == CalendarStore.SetRank(old(View()), guid, found, e, i, rank)
    {
      var allowed;
      allowed, found := CheckInvite(e, i, guid);
      if !allowed {
        return;
      }
      if rank == RANK_OWNER {
        return;
      }
      var invite := invites[i].(saved := false);
      invites := invites[i := invite.(row := invite.row.(rank := rank))];
    }

    // ----- walks over the stores -----

    /** CalendarEvent::RemoveInviteByGuid, or RemoveAllInvite with `everyone`. */
    method RemoveInvitesOf(invitees: set<nat>, everyone: bool, guid: nat)
      modifies `invites
      ensures invites == Flagged(old(invites), invitees, everyone, guid)
    {
      if !everyone && guid == 0 {
        return;
      }
      var todo := invitees;
      while todo != {}
        invariant todo <= invitees
        invariant invites == Flagged(old(invites), invitees - todo, everyone, guid)
        decreases |todo|
      {
        var i :| i in todo;
        todo := todo - {i};
        if i in invites && !invites[i].deleted && (everyone || invites[i].row.invitee == guid) {
          invites := invites[i := invites[i].(deleted := true)];
        }
      }
      assert invitees - todo == invitees;
    }

    /** RemovePlayerCalendar, or RemoveGuildCalendar with `guildOnly`. */
    method RemoveCalendar(player: nat, guildOnly: bool)
      modifies `events, `invites
      ensures View() == CalendarStore.RemoveCalendar(old(View()), player, guildOnly)
    {
      hide CalendarStore.RemoveCalendar, Flagged, PartlyLeft;
      ghost var was := View();
      var todo := events.Keys;
      NobodyLeft(was, player, guildOnly);
      while todo != {}
        invariant todo <= was.events.Keys
        invariant View() == PartlyLeft(was, was.events.Keys - todo, player, guildOnly)
        invariant events.Keys == was.events.Keys
        invariant forall e: nat :: e in todo ==> events[e] == was.events[e]
        decreases |todo|
      {
        var e :| e in todo;
        ghost var done := was.events.Keys - todo;
        todo := todo - {e};
        assert was.events.Keys - todo == done + {e};
        LeftStep(was, done, e, player, guildOnly);
        var event := events[e];
        if event.row.creator == player && !event.deleted
           && (!guildOnly || event.row.IsGuildEvent() || event.row.IsGuildAnnouncement()) {
          RemoveInvitesOf(event.invitees, false, player);
          events := events[e := event.(deleted := true)];
        }
      }
      assert was.events.Keys - todo == was.events.Keys;
      EverybodyLeft(was, player, guildOnly);
    }

    // ----- the periodic update -----

    method MarkAllEvents(c: Clock)
      modifies `events
      ensures View() == MarkEvents(old(View()), c)
    {
      hide PartlyMarked;
      ghost var was := View();
      var todo := events.Keys;
      NothingMarkedYet(was, c);
      while todo != {}
        invariant todo <= was.events.Keys
        invariant View() == PartlyMarked(was, c, todo)
        decreases |todo|
      {
        var e :| e in todo;
        MarkStep(was, c, todo, e);
        todo := todo - {e};
        var event := events[e];
        if !event.deleted && (Expired(c, event.row) || event.invitees == {}) {
          events := events[e := event.(deleted := true)];
        }
      }
      EveryEventMarked(was, c);
    }

    method MarkAllInvites()
      modifies `invites
      ensures View() == MarkInvites(old(View()))
    {
      hide PartlyMarkedInvites;
      ghost var was := View();
      var todo := invites.Keys;
      NoInviteMarkedYet(was);
      while todo != {}
        invariant todo <= was.invites.Keys
        invariant View() == PartlyMarkedInvites(was, todo)
        decreases |todo|
      {
        var i :| i in todo;
        InviteMarkStep(was, todo, i);
        todo := todo - {i};
        var invite := invites[i];
        var e := invite.row.event;
        if !invite.deleted && (e == 0 || e !in events || events[e].deleted) {
          invites := invites[i := invite.(deleted := true)];
        }
      }
      EveryInviteMarked(was);
    }

    method SaveAllEvents()
      modifies `events, `invites, `tables
      ensures View() == SaveEvents(old(View()))
    {
      hide PartlySavedStore, PartlySavedTable, OrphanedInvites, Flagged, SaveEvents;
      ghost var was := View();
      var todo := events.Keys;
      NothingSavedYet(was);
      while todo != {}
        invariant todo <= was.events.Keys
        invariant events == PartlySavedStore(was, todo)
        invariant tables == was.tables.(events := PartlySavedTable(was, todo))
        invariant invites == OrphanedInvites(was, was.events.Keys - todo)
        decreases |todo|
      {
        var e :| e in todo;
        StoreStep(was, todo, e);
        TableStep(was, todo, e);
        OrphanStep(was, was.events.Keys - todo, e);
        assert was.events.Keys - (todo - {e}) == was.events.Keys - todo + {e};
        todo := todo - {e};
        var event := events[e];
        if !event.saved {
          tables := tables.(events := tables.events[e := event.row]);
          events := events[e := event.(saved := true)];
        } else if event.deleted {
          tables := tables.(events := tables.events - {e});
          events := events - {e};
          RemoveInvitesOf(event.invitees, true, 0);
        }
      }
      assert was.events.Keys - todo == was.events.Keys;
      EverythingSaved(was);
    }

    method SaveAllInvites()
      modifies `invites, `tables
      ensures View() == SaveInvites(old(View()))
    {
      hide PartlySavedInvites, PartlySavedInviteTable, SaveInvites;
      ghost var was := View();
      var todo := invites.Keys;
      NoInviteSavedYet(was);
      while todo != {}
        invariant todo <= was.invites.Keys
        invariant invites == PartlySavedInvites(was, todo)
        invariant tables == was.tables.(invites := PartlySavedInviteTable(was, todo))
        decreases |todo|
      {
        var i :| i in todo;
        InviteStep(was, todo, i);
        InviteTableStep(was, todo, i);
        todo := todo - {i};
        var invite := invites[i];
        if !invite.saved {
          tables := tables.(invites := tables.invites[i := invite.row]);
          invites := invites[i := invite.(saved := true)];
        } else if invite.deleted {
          tables := tables.(invites := tables.invites - {i});
          invites := invites - {i};
        }
      }
      EveryInviteSaved(was);
    }

    method SaveToDB()
      modifies `events, `invites, `tables
      ensures View() == CalendarStore.SaveToDB(old(View()))
    {
      SaveAllEvents();
      SaveAllInvites();
    }

    method Update(c: Clock)
      modifies `events, `invites, `tables
      ensures View() == CalendarStore.Update(old(View()), c)
    {
      MarkAllEvents(c);
      MarkAllInvites();
      SaveToDB();
    }
  }

  lemma NothingMarkedYet(s: State, c: Clock)
    ensures PartlyMarked(s, c, s.events.Keys) == s
  {
  }

  lemma EveryEventMarked(s: State, c: Clock)
    ensures PartlyMarked(s, c, {}) == MarkEvents(s, c)
  {
  }

  lemma MarkStep(s: State, c: Clock, todo: set<nat>, e: nat)
    requires e in s.events && e in todo
    ensures var t := PartlyMarked(s, c, todo);
            && e in t.events && t.events[e] == s.events[e]
            && PartlyMarked(s, c, todo - {e}) == t.(events := t.events[e := MarkEvents(s, c).events[e]])
  {
  }

  lemma NoInviteMarkedYet(s: State)
    ensures PartlyMarkedInvites(s, s.invites.Keys) == s
  {
  }

  lemma EveryInviteMarked(s: State)
    ensures PartlyMarkedInvites(s, {}) == MarkInvites(s)
  {
  }

  lemma InviteMarkStep(s: State, todo: set<nat>, i: nat)
    requires i in s.invites && i in todo
    ensures var t := PartlyMarkedInvites(s, todo);
            && i in t.invites && t.invites[i] == s.invites[i] && t.events == s.events
            && PartlyMarkedInvites(s, todo - {i}) == t.(invites := t.invites[i := MarkInvites(s).invites[i]])
  {
  }

  lemma NothingSavedYet(s: State)
    ensures PartlySavedStore(s, s.events.Keys) == s.events
    ensures PartlySavedTable(s, s.events.Keys) == s.tables.events
    ensures OrphanedInvites(s, s.events.Keys - s.events.Keys) == s.invites
  {
  }

  lemma EverythingSaved(s: State)
    ensures PartlySavedStore(s, {}) == SaveEvents(s).events
    ensures PartlySavedTable(s, {}) == SaveEvents(s).tables.events
    ensures OrphanedInvites(s, s.events.Keys) == SaveEvents(s).invites
    ensures SaveEvents(s) == s.(events := SaveEvents(s).events, invites := SaveEvents(s).invites,
                                tables := s.tables.(events := SaveEvents(s).tables.events))
  {
  }

  lemma StoreStep(s: State, todo: set<nat>, e: nat)
    requires e in s.events && e in todo
    ensures e in PartlySavedStore(s, todo) && PartlySavedStore(s, todo)[e] == s.events[e]
    ensures PartlySavedStore(s, todo - {e})
            == if EventErased(s, e) then PartlySavedStore(s, todo) - {e}
               else PartlySavedStore(s, todo)[e := s.events[e].(saved := true)]
  {
  }

  lemma TableStep(s: State, todo: set<nat>, e: nat)
    requires e in s.events && e in todo
    ensures PartlySavedTable(s, todo - {e})
            == if EventErased(s, e) then PartlySavedTable(s, todo) - {e}
               else if !s.events[e].saved then PartlySavedTable(s, todo)[e := s.events[e].row]
               else PartlySavedTable(s, todo)
  {
  }

  lemma OrphanStep(s: State, done: set<nat>, e: nat)
    requires e in s.events
    ensures OrphanedInvites(s, done + {e})
            == if EventErased(s, e) then Flagged(OrphanedInvites(s, done), s.events[e].invitees, true, 0)
               else OrphanedInvites(s, done)
  {
    hide EventErased;
    forall i | i in s.invites
      ensures OrphanedAmong(s, done + {e}, i) <==>
          OrphanedAmong(s, done, i) || (EventErased(s, e) && i in s.events[e].invitees)
    {
    }
  }

  lemma NoInviteSavedYet(s: State)
    ensures PartlySavedInvites(s, s.invites.Keys) == s.invites
    ensures PartlySavedInviteTable(s, s.invites.Keys) == s.tables.invites
  {
  }

  lemma EveryInviteSaved(s: State)
    ensures PartlySavedInvites(s, {}) == SaveInvites(s).invites
    ensures PartlySavedInviteTable(s, {}) == SaveInvites(s).tables.invites
    ensures var t := SaveInvites(s);
      t == s.(invites := t.invites, tables := s.tables.(invites := t.tables.invites))
  {
  }

  lemma InviteStep(s: State, todo: set<nat>, i: nat)
    requires i in s.invites && i in todo
    ensures i in PartlySavedInvites(s, todo) && PartlySavedInvites(s, todo)[i] == s.invites[i]
    ensures PartlySavedInvites(s, todo - {i})
            == if InviteErased(s, i) then PartlySavedInvites(s, todo) - {i}
               else PartlySavedInvites(s, todo)[i := s.invites[i].(saved := true)]
  {
  }

  lemma InviteTableStep(s: State, todo: set<nat>, i: nat)
    requires i in s.invites && i in todo
    ensures PartlySavedInviteTable(s, todo - {i})
            == if InviteErased(s, i) then PartlySavedInviteTable(s, todo) - {i}
               else if !s.invites[i].saved then PartlySavedInviteTable(s, todo)[i := s.invites[i].row]
               else PartlySavedInviteTable(s, todo)
  {
  }

  // ----- half-done walks -----

  predicate Hit(invites: map<nat, Invite>, i: nat, among: set<nat>, everyone: bool, guid: nat)
    requires i in invites
  {
    i in among && !invites[i].deleted && (everyone || (guid != 0 && invites[i].row.invitee == guid))
  }

  function Flagged(invites: map<nat, Invite>, among: set<nat>, everyone: bool, guid: nat): map<nat, Invite> {
    map i | i in invites :: if Hit(invites, i, among, everyone, guid) then invites[i].(deleted := true) else invites[i]
  }

  predicate LeavesAmong(s: State, done: set<nat>, i: nat, player: nat, guildOnly: bool) {
    && LiveInvite(s, i) && player != 0 && s.invites[i].row.invitee == player
    && exists e | e in done :: Leaves(s, e, player, guildOnly) && i in s.events[e].invitees
  }

  function PartlyLeft(s: State, done: set<nat>, player: nat, guildOnly: bool): State {
    s.(events := map e | e in s.events ::
        if e in done && Leaves(s, e, player, guildOnly) then s.events[e].(deleted := true)
        else s.events[e],
       invites := map i | i in s.invites ::
           if LeavesAmong(s, done, i, player, guildOnly) then s.invites[i].(deleted := true)
           else s.invites[i])
  }

  lemma NobodyLeft(s: State, player: nat, guildOnly: bool)
    ensures PartlyLeft(s, s.events.Keys - s.events.Keys, player, guildOnly) == s
  {
  }

  lemma EverybodyLeft(s: State, player: nat, guildOnly: bool)
    ensures PartlyLeft(s, s.events.Keys, player, guildOnly) == CalendarStore.RemoveCalendar(s, player, guildOnly)
  {
    forall i | i in s.invites
      ensures LeavesAmong(s, s.events.Keys, i, player, guildOnly) <==> InviteLeaves(s, i, player, guildOnly)
    {
    }
  }

  lemma LeftStep(s: State, done: set<nat>, e: nat, player: nat, guildOnly: bool)
    requires e in s.events
    ensures var t := PartlyLeft(s, done, player, guildOnly);
            PartlyLeft(s, done + {e}, player, guildOnly)
            == if Leaves(s, e, player, guildOnly) then
                 t.(events := t.events[e := s.events[e].(deleted := true)],
                    invites := Flagged(t.invites, s.events[e].invitees, false, player))
               else t
  {
    hide Leaves, LeavesAmong;
    EventsLeftStep(s, done, e, player, guildOnly);
    InvitesLeftStep(s, done, e, player, guildOnly);
  }

  lemma EventsLeftStep(s: State, done: set<nat>, e: nat, player: nat, guildOnly: bool)
    requires e in s.events
    ensures var t := PartlyLeft(s, done, player, guildOnly);
            PartlyLeft(s, done + {e}, player, guildOnly).events
            == if Leaves(s, e, player, guildOnly) then t.events[e := s.events[e].(deleted := true)] else t.events
  {
    hide Leaves, LeavesAmong;
  }

  lemma InvitesLeftStep(s: State, done: set<nat>, e: nat, player: nat, guildOnly: bool)
    requires e in s.events
    ensures var t := PartlyLeft(s, done, player, guildOnly);
            PartlyLeft(s, done + {e}, player, guildOnly).invites
            == (if Leaves(s, e, player, guildOnly) then Flagged(t.invites, s.events[e].invitees, false, player)
                else t.invites)
  {
    hide Leaves;
    forall i | i in s.invites
      ensures LeavesAmong(s, done + {e}, i, player, guildOnly)
              <==> LeavesAmong(s, done, i, player, guildOnly) || LeavesAmong(s, {e}, i, player, guildOnly)
    {
    }
  }

  lemma AddEventRefused(s: State, now: int, online: bool, creator: nat, guild: nat, d: EventRow)
    requires !AcceptsEvent(now, online, d)
    ensures CalendarStore.AddEvent(s, now, online, creator, guild, d) == s
  {
  }

  lemma AddEventAccepted(s: State, now: int, online: bool, creator: nat, guild: nat, d: EventRow)
    requires AcceptsEvent(now, online, d)
    ensures var t := CalendarStore.AddEvent(s, now, online, creator, guild, d);
            s.nextEvent in t.events && t.events[s.nextEvent].row.flags == d.flags
  {
  }

  lemma MaxInviteStep(ids: seq<nat>, k: nat, max: nat, maxEvent: nat)
    requires k < |ids|
    ensures MaxInviteId(ids[k..], max, maxEvent)
         == MaxInviteId(ids[k + 1..], if max < ids[k] then ids[k] else maxEvent, maxEvent)
    ensures ids[0..] == ids
  {
    assert ids[k..][1..] == ids[k + 1..];
  }

  lemma MaxInviteEnd(ids: seq<nat>, max: nat, maxEvent: nat)
    ensures MaxInviteId(ids[|ids|..], max, maxEvent) == max
    ensures ids[0..] == ids
  {
  }

  function PartlyNaming(t: Tables, done: seq<nat>, e: nat): set<nat>
    requires forall i: nat :: i in done ==> i in t.invites
  {
    set i | i in done && t.invites[i].event == e
  }

  function PartlyLoadedEvents(t: Tables, done: seq<nat>): map<nat, Event>
    requires forall i: nat :: i in done ==> i in t.invites
  {
    map e | e in t.events :: Event(t.events[e], PartlyNaming(t, done, e), true, false)
  }

  lemma LoadedNone(t: Tables)
    ensures PartlyLoadedEvents(t, []) == map e | e in t.events :: Event(t.events[e], {}, true, false)
  {
    forall e | e in t.events ensures PartlyNaming(t, [], e) == {} {}
  }

  lemma LoadedAll(t: Tables, done: seq<nat>)
    requires forall i: nat :: i in done <==> i in t.invites
    ensures PartlyLoadedEvents(t, done) == LoadedEvents(t)
  {
    forall e | e in t.events ensures PartlyNaming(t, done, e) == InvitesNaming(t, e) {}
  }

  lemma NamingStep(t: Tables, done: seq<nat>, i: nat, e: nat)
    requires i in t.invites && forall k: nat :: k in done ==> k in t.invites
    ensures PartlyNaming(t, done + [i], e)
            == if t.invites[i].event == e then PartlyNaming(t, done, e) + {i} else PartlyNaming(t, done, e)
  {
  }

  lemma LoadedStep(t: Tables, done: seq<nat>, i: nat)
    requires i in t.invites && forall k: nat :: k in done ==> k in t.invites
    ensures var e := t.invites[i].event;
            PartlyLoadedEvents(t, done + [i])
            == if e in t.events then
                 PartlyLoadedEvents(t, done)[e := Event(t.events[e], PartlyNaming(t, done, e) + {i}, true, false)]
               else PartlyLoadedEvents(t, done)
  {
    hide PartlyNaming;
    forall e | e in t.events
      ensures PartlyNaming(t, done + [i], e)
              == if t.invites[i].event == e then PartlyNaming(t, done, e) + {i} else PartlyNaming(t, done, e)
    {
      NamingStep(t, done, i, e);
    }
  }

  predicate AtMost(list: seq<Gee>, max: nat) {
    forall g :: g in list ==> g.second <= max
  }

  lemma RemapStep(c: Clock, events: map<nat, EventRow>, ids: seq<nat>, k: nat, next: nat, done: seq<Gee>)
    requires k < |ids| && forall j :: j in ids ==> j in events
    ensures var gone := Expired(c, events[ids[k]]);
            done + EventRemap(c, events, ids[k..], next)
            == done + [Gee(ids[k], if gone then DELETED_ID else next)]
               + EventRemap(c, events, ids[k + 1..], if gone then next else next + 1)
  {
    assert ids[k..][0] == ids[k] && ids[k..][1..] == ids[k + 1..];
  }

  lemma NumberStep(ids: seq<nat>, k: nat, next: nat, done: seq<Gee>)
    requires k < |ids|
    ensures var more := if ids[k] != next then done + [Gee(ids[k], next)] else done;
      done + InviteRemap(ids[k..], next) == more + InviteRemap(ids[k + 1..], next + 1)
  {
    assert ids[k..][0] == ids[k] && ids[k..][1..] == ids[k + 1..];
    var first := if ids[k] != next then [Gee(ids[k], next)] else [];
    assert InviteRemap(ids[k..], next) == first + InviteRemap(ids[k + 1..], next + 1);
  }

  lemma {:induction false} NothingToDelete(list: seq<Gee>, max: nat)
    requires max < DELETED_ID && AtMost(list, max)
    ensures Deletes(list) == []
  {
    if list != [] {
      assert list[0] in list;
      NothingToDelete(list[1..], max);
    }
  }
}
