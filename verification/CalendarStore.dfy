/** The calendar manager's two in-memory stores beside their two tables, operation by operation. */
module CalendarStore {
  import opened CalendarTables
  import opened CalendarRemap

  const STATUS_INVITED: nat := 0
  const STATUS_CONFIRMED: nat := 3
  const STATUS_REMOVED: nat := 9
  const RANK_PLAYER: nat := 0
  const RANK_MODERATOR: nat := 1
  const RANK_OWNER: nat := 2

  /** A CalendarEvent with the SAVED and DELETED bits of its flag word. */
  datatype Event = Event(row: EventRow, invitees: set<nat>, saved: bool, deleted: bool)

  datatype Invite = Invite(row: InviteRow, saved: bool, deleted: bool)

  datatype State = State(
    events: map<nat, Event>, invites: map<nat, Invite>, tables: Tables, nextEvent: nat, nextInvite: nat)

  /** GetEventById finds it. */
  predicate LiveEvent(s: State, e: nat) { e in s.events && !s.events[e].deleted }

  /** CalendarMgr::GetInviteById finds it. */
  predicate LiveInvite(s: State, i: nat) { i in s.invites && !s.invites[i].deleted }

  /** CalendarEvent::GetInviteById finds it. */
  predicate InviteOf(s: State, e: nat, i: nat) {
    LiveEvent(s, e) && i in s.events[e].invitees && LiveInvite(s, i)
  }

  /** `found` is an answer GetInviteByGuid can give: 0 for none, else some invite of that player
      (which one, if there are several, depends on the order of a hash set). */
  predicate FoundByGuid(s: State, e: nat, guid: nat, found: nat) {
    if found == 0 then guid == 0 || forall i | i in s.invites :: !InviteOfPlayer(s, e, i, guid)
    else InviteOfPlayer(s, e, found, guid)
  }

  predicate InviteOfPlayer(s: State, e: nat, i: nat, guid: nat) {
    InviteOf(s, e, i) && s.invites[i].row.invitee == guid
  }

  // ----- events -----

  predicate AcceptsEvent(now: int, online: bool, d: EventRow) {
    online && d.title != "" && d.time >= now
  }

  /** The new row: any flag at all makes it carry the guild, because the announcement test is a
      logical and. */
  function NewEventRow(creator: nat, guild: nat, d: EventRow): EventRow {
    d.(creator := creator, guild := if d.IsGuildEvent() || d.flags != 0 then guild else 0)
  }

  function AddEvent(s: State, now: int, online: bool, creator: nat, guild: nat, d: EventRow): State {
    if AcceptsEvent(now, online, d) then
      s.(events := s.events[s.nextEvent := Event(NewEventRow(creator, guild, d), {}, false, false)],
         nextEvent := s.nextEvent + 1)
    else s
  }

  function RemoveEvent(s: State, e: nat, remover: nat): State {
    if LiveEvent(s, e) && s.events[e].row.creator == remover then
      s.(events := s.events[e := s.events[e].(deleted := true)])
    else s
  }

  /** HandleCalendarUpdateEvent: creator and guild stay, the other columns are replaced. */
  function UpdateEvent(s: State, guid: nat, found: nat, e: nat, d: EventRow): State {
    if !LiveEvent(s, e) then s
    else
      var was := s.events[e];
      if guid != was.row.creator && !(found in s.invites && s.invites[found].row.rank == RANK_MODERATOR) then s
      else
        s.(events := s.events[e := was.(row := d.(creator := was.row.creator, guild := was.row.guild), saved := false)])
  }

  // ----- invites -----

  function AddInvite(s: State, e: nat, sender: nat, invitee: nat, status: nat, rank: nat, text: string, now: int): State
    requires e in s.events
  {
    var i := s.nextInvite;
    var row := InviteRow(e, invitee, sender, status, now, rank, text);
    var event := s.events[e];
    if event.row.IsGuildAnnouncement() || i in event.invitees then
      s.(invites := s.invites[i := Invite(row, false, true)], nextInvite := i + 1)
    else
      s.(invites := s.invites[i := Invite(row, false, false)], nextInvite := i + 1,
         events := s.events[e := event.(invitees := event.invitees + {i})])
  }

  function CopyInvite(s: State, i: nat, e: nat, guid: nat, now: int): State
    requires e in s.events
  {
    if !LiveInvite(s, i) then s
    else
      var row := s.invites[i].row;
      if row.invitee == guid then AddInvite(s, e, guid, guid, STATUS_CONFIRMED, RANK_OWNER, "", now)
      else
        AddInvite(s, e, guid, row.invitee, STATUS_INVITED,
            if row.rank == RANK_MODERATOR then RANK_MODERATOR else RANK_PLAYER, "", now)
  }

  function CopyInvites(s: State, order: seq<nat>, e: nat, guid: nat, now: int): (t: State)
    requires e in s.events
    ensures e in t.events
    decreases order
  {
    if order == [] then s else CopyInvites(CopyInvite(s, order[0], e, guid, now), order[1..], e, guid, now)
  }

  /** CopyEvent; `order` is the order in which the hash set of invitees is walked. */
  function CopyEvent(s: State, now: int, online: bool, e: nat, newTime: int, guid: nat, guild: nat,
                     order: seq<nat>): State
  {
    if !LiveEvent(s, e) then s
    else
      var d := s.events[e].row.(time := newTime);
      if !AcceptsEvent(now, online, d) then s
      else
        var n := s.nextEvent;
        var s1 := AddEvent(s, now, online, guid, guild, d);
        var s2 :=
          if d.IsGuildAnnouncement() then AddInvite(s1, n, guid, guid, STATUS_CONFIRMED, RANK_OWNER, "", now)
          else CopyInvites(s1, order, n, guid, now);
        assert n in s2.events;
        s2.(events := s2.events[n := s2.events[n].(saved := false)])
  }

  /** The permission test the invite handlers share. */
  predicate MayChange(s: State, i: nat, guid: nat, found: nat) {
    && i in s.invites
    && (s.invites[i].row.invitee == guid
        || (found in s.invites && s.invites[found].row.rank in {RANK_MODERATOR, RANK_OWNER}))
  }

  function RemoveInvite(s: State, e: nat, i: nat, remover: nat, found: nat): State {
    if InviteOf(s, e, i) && MayChange(s, i, remover, found) && s.events[e].row.creator != s.invites[i].row.invitee then
      s.(invites := s.invites[i := s.invites[i].(deleted := true)])
    else s
  }

  /** HandleCalendarEventStatus; with `rsvp` HandleCalendarEventRsvp, which respects the lock. */
  function SetStatus(s: State, rsvp: bool, guid: nat, found: nat, e: nat, i: nat, status: nat, now: int): State {
    if !InviteOf(s, e, i) || !MayChange(s, i, guid, found) then s
    else if rsvp && status != STATUS_REMOVED && s.events[e].row.InvitesLocked() then s
    else
      var was := s.invites[i];
      s.(invites := s.invites[i := was.(row := was.row.(status := status, updated := now), saved := false)])
  }

  function SetRank(s: State, guid: nat, found: nat, e: nat, i: nat, rank: nat): State {
    if !InviteOf(s, e, i) || !MayChange(s, i, guid, found) || rank == RANK_OWNER then s
    else
      var was := s.invites[i];
      s.(invites := s.invites[i := was.(row := was.row.(rank := rank), saved := false)])
  }

  /** RemovePlayerCalendar, or RemoveGuildCalendar with `guildOnly`. */
  predicate Leaves(s: State, e: nat, player: nat, guildOnly: bool) {
    && LiveEvent(s, e)
    && s.events[e].row.creator == player
    && (guildOnly ==> s.events[e].row.IsGuildEvent() || s.events[e].row.IsGuildAnnouncement())
  }

  predicate InviteLeaves(s: State, i: nat, player: nat, guildOnly: bool) {
    && LiveInvite(s, i) && player != 0 && s.invites[i].row.invitee == player
    && exists e | e in s.events :: Leaves(s, e, player, guildOnly) && i in s.events[e].invitees
  }

  function RemoveCalendar(s: State, player: nat, guildOnly: bool): State {
    s.(events := map e | e in s.events ::
        if Leaves(s, e, player, guildOnly) then s.events[e].(deleted := true)
        else s.events[e],
       invites := map i | i in s.invites ::
           if InviteLeaves(s, i, player, guildOnly) then s.invites[i].(deleted := true)
           else s.invites[i])
  }

  // ----- the periodic update -----

  function MarkEvents(s: State, c: Clock): State {
    s.(events := map e | e in s.events ::
      if Expired(c, s.events[e].row) || s.events[e].invitees == {} then s.events[e].(deleted := true) else s.events[e])
  }

  function MarkInvites(s: State): State {
    s.(invites := map i | i in s.invites ::
      if s.invites[i].row.event == 0 || !LiveEvent(s, s.invites[i].row.event)
      then s.invites[i].(deleted := true) else s.invites[i])
  }

  /** An event or invite that this pass takes out of store and table. */
  predicate EventErased(s: State, e: nat) { e in s.events && s.events[e].saved && s.events[e].deleted }

  predicate InviteErased(s: State, i: nat) { i in s.invites && s.invites[i].saved && s.invites[i].deleted }

  /** The destructor of an erased event marks the invites it still knows. */
  predicate Orphaned(s: State, i: nat) {
    exists e | e in s.events :: EventErased(s, e) && i in s.events[e].invitees
  }

  /** The event half of SaveToDB: unsaved entries are written, saved deleted ones erased. */
  function SaveEvents(s: State): State {
    s.(events := map e | e in s.events && !EventErased(s, e) :: s.events[e].(saved := true),
       tables := s.tables.(events := map e |
         e in s.events.Keys + s.tables.events.Keys && !EventErased(s, e)
         && (e in s.tables.events || !s.events[e].saved) ::
         if e in s.events && !s.events[e].saved then s.events[e].row else s.tables.events[e]),
       invites := map i | i in s.invites :: if Orphaned(s, i) then s.invites[i].(deleted := true) else s.invites[i])
  }

  function SaveInvites(s: State): State {
    s.(invites := map i | i in s.invites && !InviteErased(s, i) :: s.invites[i].(saved := true),
       tables := s.tables.(invites := map i |
         i in s.invites.Keys + s.tables.invites.Keys && !InviteErased(s, i)
         && (i in s.tables.invites || !s.invites[i].saved) ::
         if i in s.invites && !s.invites[i].saved then s.invites[i].row else s.tables.invites[i]))
  }

  function SaveToDB(s: State): State {
    SaveInvites(SaveEvents(s))
  }

  function Update(s: State, c: Clock): State {
    SaveToDB(MarkInvites(MarkEvents(s, c)))
  }

  // ----- startup -----

  function MaxId(ids: seq<nat>, max: nat): nat {
    if ids == [] then max else MaxId(ids[1..], if max < ids[0] then ids[0] else max)
  }

  /** The running maximum of the invite loop, whose else branch falls back to the event maximum. */
  function MaxInviteId(ids: seq<nat>, max: nat, maxEvent: nat): nat {
    if ids == [] then max else MaxInviteId(ids[1..], if max < ids[0] then ids[0] else maxEvent, maxEvent)
  }

  function InvitesNaming(t: Tables, e: nat): set<nat> {
    set i | i in t.invites && t.invites[i].event == e
  }

  function LoadedEvents(t: Tables): map<nat, Event> {
    map e | e in t.events :: Event(t.events[e], InvitesNaming(t, e), true, false)
  }

  /** An invite without its event comes in already deleted, its event reference cleared. */
  function LoadedInvite(t: Tables, row: InviteRow): Invite {
    if row.event in t.events then Invite(row, true, false) else Invite(row.(event := 0), true, true)
  }

  /** The stores read from clean tables; invites without any event are truncated. */
  function LoadedState(t: Tables): State {
    if t.events == map[] then State(map[], map[], t.(invites := map[]), 1, 1)
    else
      var maxEvent := MaxId(Ordered(t.events.Keys), 0);
      State(LoadedEvents(t), map i | i in t.invites :: LoadedInvite(t, t.invites[i]), t,
            maxEvent + 1, MaxInviteId(Ordered(t.invites.Keys), 0, maxEvent) + 1)
  }

  function LoadFromDB(c: Clock, t: Tables): State {
    LoadedState(Compact(c, t))
  }
}
