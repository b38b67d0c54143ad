/** The write-behind protocol of the calendar: what every operation keeps, and what two updates
    achieve. */
module CalendarWriteBack {
  import opened CalendarTables
  import opened CalendarRemap
  import opened CalendarStore

  // ----- the invariant -----

  /** An entry marked saved has a row equal to its saved columns. */
  predicate EventsSaved(s: State) {
    forall e: nat :: e in s.events && s.events[e].saved ==>
      e in s.tables.events && s.tables.events[e] == s.events[e].row
  }

  /** The one exception: an invite loaded without its event, which waits for its deletion. */
  predicate Stray(i: Invite) { i.saved && i.deleted && i.row.event == 0 }

  predicate InvitesSaved(s: State) {
    forall i: nat :: i in s.invites && s.invites[i].saved ==>
      i in s.tables.invites && (s.tables.invites[i] == s.invites[i].row || Stray(s.invites[i]))
  }

  predicate RowsKnown(s: State) {
    s.tables.events.Keys <= s.events.Keys && s.tables.invites.Keys <= s.invites.Keys
  }

  predicate IdsUsed(s: State) {
    && (forall e: nat :: e in s.events ==> 0 < e < s.nextEvent)
    && (forall i: nat :: i in s.invites ==> 0 < i < s.nextInvite)
    && 0 < s.nextEvent && 0 < s.nextInvite
  }

  /** An event's invitee set holds ids handed out before, and of present invites only its own. */
  predicate InviteesOwned(s: State) {
    forall e: nat :: e in s.events ==> Owned(s, e, s.events[e].invitees)
  }

  predicate Owned(s: State, e: nat, invitees: set<nat>) {
    forall i: nat :: i in invitees ==> i < s.nextInvite && (i in s.invites ==> s.invites[i].row.event == e)
  }

  predicate Consistent(s: State) {
    EventsSaved(s) && InvitesSaved(s) && RowsKnown(s) && IdsUsed(s) && InviteesOwned(s)
  }

  // ----- every operation keeps it -----

  lemma AddEventKeeps(s: State, now: int, online: bool, creator: nat, guild: nat, d: EventRow)
    requires Consistent(s)
    ensures Consistent(AddEvent(s, now, online, creator, guild, d))
  {
  }

  /** The new event carries the guild for guild events and announcements only, as it should, if
      and only if there is no guild, or no flag at all, or one of those two flags. */
  lemma NewEventGuild(s: State, now: int, online: bool, creator: nat, guild: nat, d: EventRow)
    requires AcceptsEvent(now, online, d)
    ensures var e := AddEvent(s, now, online, creator, guild, d).events[s.nextEvent];
      e.row.guild == (if d.IsGuildEvent() || d.IsGuildAnnouncement() then guild else 0) <==>
        guild == 0 || d.flags == 0 || d.IsGuildEvent() || d.IsGuildAnnouncement()
  {
  }

  /** A private event that only locks its invites is filed under the creator's guild. */
  lemma LockedEventGetsGuild(s: State, creator: nat, guild: nat, title: string)
    requires title != ""
    ensures var d := EventRow(creator, 0, 0, 0x10, 0, 0, title, "");
      AddEvent(s, 0, true, creator, guild, d).events[s.nextEvent].row == d.(guild := guild)
  {
  }

  /** The new id is never in the set already, so the error branch of AddInvite is never taken:
      the invite is alive unless the event is an announcement. */
  lemma AddInviteKeeps(s: State, e: nat, sender: nat, invitee: nat, status: nat, rank: nat, text: string, now: int)
    requires Consistent(s) && e in s.events
    ensures Consistent(AddInvite(s, e, sender, invitee, status, rank, text, now))
    ensures var t := AddInvite(s, e, sender, invitee, status, rank, text, now);
            && t.events.Keys == s.events.Keys
            && (LiveInvite(t, s.nextInvite) <==> !s.events[e].row.IsGuildAnnouncement())
  {
    var t := AddInvite(s, e, sender, invitee, status, rank, text, now);
    assert Owned(s, e, s.events[e].invitees);
    assert s.nextInvite !in s.events[e].invitees;
    forall k: nat | k in t.events ensures Owned(t, k, t.events[k].invitees) {
      assert Owned(s, k, s.events[k].invitees);
    }
  }

  lemma {:induction false} CopyInvitesKeeps(s: State, order: seq<nat>, e: nat, guid: nat, now: int)
    requires Consistent(s) && e in s.events
    ensures Consistent(CopyInvites(s, order, e, guid, now))
    decreases order
  {
    hide Consistent, AddInvite;
    if order != [] {
      var i := order[0];
      if LiveInvite(s, i) {
        var row := s.invites[i].row;
        if row.invitee == guid {
          AddInviteKeeps(s, e, guid, guid, STATUS_CONFIRMED, RANK_OWNER, "", now);
        } else {
          AddInviteKeeps(s, e, guid, row.invitee, STATUS_INVITED,
              if row.rank == RANK_MODERATOR then RANK_MODERATOR else RANK_PLAYER, "", now);
        }
      }
      CopyInvitesKeeps(CopyInvite(s, i, e, guid, now), order[1..], e, guid, now);
    }
  }

  lemma UnsaveKeeps(s: State, e: nat)
    requires Consistent(s) && e in s.events
    ensures Consistent(s.(events := s.events[e := s.events[e].(saved := false)]))
  {
  }

  lemma CopyEventKeeps(s: State, now: int, online: bool, e: nat, newTime: int, guid: nat, guild: nat, order: seq<nat>)
    requires Consistent(s)
    ensures Consistent(CopyEvent(s, now, online, e, newTime, guid, guild, order))
  {
    hide Consistent, AddInvite, CopyInvites;
    if LiveEvent(s, e) {
      var d := s.events[e].row.(time := newTime);
      if AcceptsEvent(now, online, d) {
        var s1 := AddEvent(s, now, online, guid, guild, d);
        AddEventKeeps(s, now, online, guid, guild, d);
        if d.IsGuildAnnouncement() {
          AddInviteKeeps(s1, s.nextEvent, guid, guid, STATUS_CONFIRMED, RANK_OWNER, "", now);
          UnsaveKeeps(AddInvite(s1, s.nextEvent, guid, guid, STATUS_CONFIRMED, RANK_OWNER, "", now), s.nextEvent);
        } else {
          CopyInvitesKeeps(s1, order, s.nextEvent, guid, now);
          UnsaveKeeps(CopyInvites(s1, order, s.nextEvent, guid, now), s.nextEvent);
        }
      }
    }
  }

  lemma RemoveEventKeeps(s: State, e: nat, remover: nat)
    requires Consistent(s)
    ensures Consistent(RemoveEvent(s, e, remover))
  {
  }

  lemma UpdateEventKeeps(s: State, guid: nat, found: nat, e: nat, d: EventRow)
    requires Consistent(s)
    ensures Consistent(UpdateEvent(s, guid, found, e, d))
  {
  }

  lemma RemoveInviteKeeps(s: State, e: nat, i: nat, remover: nat, found: nat)
    requires Consistent(s)
    ensures Consistent(RemoveInvite(s, e, i, remover, found))
  {
  }

  lemma SetStatusKeeps(s: State, rsvp: bool, guid: nat, found: nat, e: nat, i: nat, status: nat, now: int)
    requires Consistent(s)
    ensures Consistent(SetStatus(s, rsvp, guid, found, e, i, status, now))
  {
  }

  lemma SetRankKeeps(s: State, guid: nat, found: nat, e: nat, i: nat, rank: nat)
    requires Consistent(s)
    ensures Consistent(SetRank(s, guid, found, e, i, rank))
  {
  }

  lemma RemoveCalendarKeeps(s: State, player: nat, guildOnly: bool)
    requires Consistent(s)
    ensures Consistent(RemoveCalendar(s, player, guildOnly))
  {
    hide Leaves, InviteLeaves;
  }

  lemma MarksKeep(s: State, c: Clock)
    requires Consistent(s)
    ensures Consistent(MarkEvents(s, c))
    ensures Consistent(MarkInvites(s))
  {
    hide Expired, LiveEvent;
  }

  lemma SaveEventsKeeps(s: State)
    requires Consistent(s)
    ensures Consistent(SaveEvents(s))
  {
    hide Orphaned;
  }

  lemma SaveInvitesKeeps(s: State)
    requires Consistent(s)
    ensures Consistent(SaveInvites(s))
  {
  }

  lemma UpdateKeeps(s: State, c: Clock)
    requires Consistent(s)
    ensures Consistent(Update(s, c))
  {
    hide Consistent, MarkEvents, MarkInvites, SaveEvents, SaveInvites;
    MarksKeep(s, c);
    MarksKeep(MarkEvents(s, c), c);
    SaveEventsKeeps(MarkInvites(MarkEvents(s, c)));
    SaveInvitesKeeps(SaveEvents(MarkInvites(MarkEvents(s, c))));
  }

  /** After a start every entry is in step with its row and the next ids are above all used ones. */
  lemma LoadKeeps(c: Clock, t: Tables)
    requires 0 !in Compact(c, t).events && 0 !in Compact(c, t).invites
    ensures Consistent(LoadFromDB(c, t))
  {
    hide Compact, MaxId, MaxInviteId, Ordered, Ascending;
    var t' := Compact(c, t);
    LoadedIdsUsed(t');
    var s := LoadFromDB(c, t);
    assert EventsSaved(s) && InvitesSaved(s) && RowsKnown(s);
    assert InviteesOwned(s);
  }

  lemma LoadedIdsUsed(t: Tables)
    requires 0 !in t.events && 0 !in t.invites
    ensures var max := MaxId(Ordered(t.events.Keys), 0);
            && (forall e: nat :: e in t.events ==> 0 < e <= max)
            && (forall i: nat :: i in t.invites ==> 0 < i <= MaxInviteId(Ordered(t.invites.Keys), 0, max))
  {
    hide MaxId, MaxInviteId, Ordered, Ascending;
    OrderedIsAscending(t.events.Keys);
    OrderedIsAscending(t.invites.Keys);
    MaxIdBounds(Ordered(t.events.Keys), 0);
    MaxInviteIdBounds(Ordered(t.invites.Keys), 0, MaxId(Ordered(t.events.Keys), 0));
  }

  /** `next` is the id behind the largest one in use, or 1. */
  predicate NextBehind(next: nat, used: set<nat>) {
    next >= 1 && (forall k :: k in used ==> k < next) && (next == 1 || next - 1 in used)
  }

  lemma LoadedNextIds(t: Tables)
    requires 0 !in t.events && 0 !in t.invites
    ensures var s := LoadedState(t);
      NextBehind(s.nextEvent, t.events.Keys) && NextBehind(s.nextInvite, s.tables.invites.Keys)
  {
    hide MaxId, MaxInviteId, Ordered, Ascending;
    OrderedIsAscending(t.events.Keys);
    OrderedIsAscending(t.invites.Keys);
    MaxIdBounds(Ordered(t.events.Keys), 0);
    MaxInviteIdBounds(Ordered(t.invites.Keys), 0, MaxId(Ordered(t.events.Keys), 0));
  }

  lemma {:induction false} MaxIdBounds(ids: seq<nat>, max: nat)
    ensures max <= MaxId(ids, max) && forall k: nat :: k in ids ==> k <= MaxId(ids, max)
    ensures MaxId(ids, max) == max || MaxId(ids, max) in ids
  {
    if ids != [] {
      assert ids == [ids[0]] + ids[1..];
      MaxIdBounds(ids[1..], if max < ids[0] then ids[0] else max);
    }
  }

  /** The rows arrive in ascending order, so the wrong else branch is never taken. */
  lemma {:induction false} MaxInviteIdBounds(ids: seq<nat>, max: nat, maxEvent: nat)
    requires Ascending(ids) && forall k: nat :: k in ids ==> max < k
    ensures max <= MaxInviteId(ids, max, maxEvent)
    ensures forall k: nat :: k in ids ==> k <= MaxInviteId(ids, max, maxEvent)
    ensures MaxInviteId(ids, max, maxEvent) == max || MaxInviteId(ids, max, maxEvent) in ids
  {
    if ids != [] {
      assert ids == [ids[0]] + ids[1..];
      assert ids[0] in ids;
      forall k: nat | k in ids[1..] ensures ids[0] < k {
        var i :| 0 <= i < |ids[1..]| && ids[1..][i] == k;
        assert ids[i + 1] == k;
      }
      MaxInviteIdBounds(ids[1..], ids[0], maxEvent);
    }
  }

  // ----- what two updates achieve -----

  /** Every entry is written. */
  predicate AllSaved(s: State) {
    && (forall e: nat :: e in s.events ==> s.events[e].saved)
    && (forall i: nat :: i in s.invites ==> s.invites[i].saved)
  }

  /** No event is due for removal and every undeleted invite has its event. */
  predicate NothingDue(s: State, c: Clock) {
    && (forall e: nat :: e in s.events && LiveEvent(s, e) ==>
        !Expired(c, s.events[e].row) && s.events[e].invitees != {})
    && (forall i: nat :: i in s.invites && LiveInvite(s, i) ==>
        s.invites[i].row.event != 0 && LiveEvent(s, s.invites[i].row.event))
  }

  /** Stores and tables agree, nothing waits for deletion, every invite refers to a live event. */
  predicate Settled(s: State, c: Clock) {
    && (forall e: nat :: e in s.events ==> LiveEvent(s, e))
    && (forall i: nat :: i in s.invites ==> LiveInvite(s, i) && LiveEvent(s, s.invites[i].row.event))
    && s.tables.events == (map e | e in s.events :: s.events[e].row)
    && s.tables.invites == (map i | i in s.invites :: s.invites[i].row)
    && AllSaved(s) && NothingDue(s, c)
  }

  lemma MarkedIsNothingDue(s: State, c: Clock)
    ensures NothingDue(MarkInvites(MarkEvents(s, c)), c)
  {
  }

  /** With nothing due, no undeleted invite is in the set of an erased event. */
  lemma NoOrphan(s: State, c: Clock, i: nat)
    requires Consistent(s) && NothingDue(s, c) && LiveInvite(s, i)
    ensures !Orphaned(s, i)
  {
    forall e: nat | e in s.events && EventErased(s, e) ensures i !in s.events[e].invitees {
      assert Owned(s, e, s.events[e].invitees);
    }
  }

  lemma SaveEventsSettles(s: State, c: Clock)
    requires Consistent(s) && NothingDue(s, c)
    ensures NothingDue(SaveEvents(s), c)
    ensures forall i: nat :: i in s.invites ==> SaveEvents(s).invites[i] == s.invites[i]
    ensures forall e: nat :: e in SaveEvents(s).events ==> SaveEvents(s).events[e].saved
  {
    hide Consistent, Expired, Orphaned;
    forall i: nat | i in s.invites && !s.invites[i].deleted ensures !Orphaned(s, i) {
      NoOrphan(s, c, i);
    }
  }

  lemma SaveSettles(s: State, c: Clock)
    requires Consistent(s) && NothingDue(s, c)
    ensures NothingDue(SaveToDB(s), c) && AllSaved(SaveToDB(s))
  {
    hide Consistent, Expired, SaveEvents;
    SaveEventsSettles(s, c);
  }

  /** With everything written and nothing due, marking changes nothing and saving erases all that
      is marked deleted. */
  lemma SecondUpdate(s: State, c: Clock)
    requires Consistent(s) && NothingDue(s, c) && AllSaved(s)
    ensures Settled(Update(s, c), c)
  {
    hide Consistent, Expired, SaveEvents, SaveInvites;
    assert MarkEvents(s, c) == s;
    assert MarkInvites(s) == s;
    SecondSave(s, c);
  }

  /** Whatever is marked deleted has been written before. */
  predicate DeletedSaved(s: State) {
    && (forall e: nat :: e in s.events && s.events[e].deleted ==> s.events[e].saved)
    && (forall i: nat :: i in s.invites && s.invites[i].deleted ==> s.invites[i].saved)
  }

  lemma EventsSettle(s: State, c: Clock)
    requires Consistent(s) && NothingDue(s, c) && DeletedSaved(s)
    ensures var t := SaveEvents(s);
            && (forall e: nat :: e in t.events ==> LiveEvent(t, e))
            && t.tables.events == (map e | e in t.events :: t.events[e].row)
            && DeletedSaved(t)
  {
    hide Expired, Orphaned;
    SaveEventsSettles(s, c);
  }

  lemma InvitesSettle(s: State)
    requires InvitesSaved(s) && RowsKnown(s) && DeletedSaved(s)
    ensures var t := SaveInvites(s);
            && (forall i: nat :: i in t.invites ==> LiveInvite(t, i))
            && t.tables.invites == (map i | i in t.invites :: t.invites[i].row)
            && t.events == s.events && t.tables.events == s.tables.events
  {
  }

  /** A save with nothing due settles exactly if everything marked deleted was written before. */
  lemma SaveSettlesIff(s: State, c: Clock)
    requires Consistent(s) && NothingDue(s, c)
    ensures Settled(SaveToDB(s), c) <==> DeletedSaved(s)
  {
    hide Expired, Orphaned, SaveEvents, SaveInvites, EventsSaved, IdsUsed, InviteesOwned, InvitesSaved, RowsKnown;
    if DeletedSaved(s) {
      EventsSettle(s, c);
      SaveEventsKeeps(s);
      InvitesSettle(SaveEvents(s));
      SaveSettles(s, c);
    } else {
      UnsavedStays(s, c);
    }
  }

  lemma UnsavedStays(s: State, c: Clock)
    requires Consistent(s) && NothingDue(s, c) && !DeletedSaved(s)
    ensures !Settled(SaveToDB(s), c)
  {
    hide Expired, Orphaned, Consistent, NothingDue;
    SaveEventsSettles(s, c);
    var t := SaveToDB(s);
    if e: nat :| e in s.events && s.events[e].deleted && !s.events[e].saved {
      assert e in t.events && !LiveEvent(t, e);
    } else {
      var i: nat :| i in s.invites && s.invites[i].deleted && !s.invites[i].saved;
      assert i in t.invites && !LiveInvite(t, i);
    }
  }

  lemma SecondSave(s: State, c: Clock)
    requires Consistent(s) && NothingDue(s, c) && AllSaved(s)
    ensures Settled(SaveToDB(s), c)
  {
    hide SaveToDB, Settled, Consistent, NothingDue;
    SaveSettlesIff(s, c);
  }

  // ----- what one update achieves -----

  /** The event is removed by an update: it is marked already, has expired, or has no invitees. */
  predicate Due(s: State, c: Clock, e: nat) {
    e in s.events && (s.events[e].deleted || Expired(c, s.events[e].row) || s.events[e].invitees == {})
  }

  predicate InviteDue(s: State, c: Clock, i: nat) {
    && i in s.invites
    && (s.invites[i].deleted || s.invites[i].row.event == 0 || s.invites[i].row.event !in s.events
        || Due(s, c, s.invites[i].row.event))
  }

  /** One update settles if and only if all it removes was written before. */
  lemma OneUpdateSettles(s: State, c: Clock)
    requires Consistent(s)
    ensures Settled(Update(s, c), c) <==>
      && (forall e: nat :: Due(s, c, e) ==> s.events[e].saved)
      && (forall i: nat :: InviteDue(s, c, i) ==> s.invites[i].saved)
  {
    hide Consistent, Settled, NothingDue, MarkEvents, MarkInvites, SaveToDB, Expired;
    MarkedEvents(s, c);
    MarkedInvites(s, c);
    MarksKeep(s, c);
    MarksKeep(MarkEvents(s, c), c);
    MarkedIsNothingDue(s, c);
    SaveSettlesIff(MarkInvites(MarkEvents(s, c)), c);
  }

  lemma MarkedEvents(s: State, c: Clock)
    ensures var m := MarkInvites(MarkEvents(s, c));
      && m.events.Keys == s.events.Keys
      && forall e: nat :: e in s.events ==>
          m.events[e].saved == s.events[e].saved && (m.events[e].deleted <==> Due(s, c, e))
  {
    hide Expired;
  }

  lemma MarkedInvites(s: State, c: Clock)
    ensures var m := MarkInvites(MarkEvents(s, c));
      && m.invites.Keys == s.invites.Keys
      && forall i: nat :: i in s.invites ==>
           m.invites[i].saved == s.invites[i].saved && (m.invites[i].deleted <==> InviteDue(s, c, i))
  {
    hide Expired;
  }

  /** Two updates at one time settle every reachable state. */
  lemma TwoUpdatesSettle(s: State, c: Clock)
    requires Consistent(s)
    ensures Settled(Update(Update(s, c), c), c)
  {
    hide Consistent, MarkEvents, MarkInvites, SaveToDB, Settled;
    MarksKeep(s, c);
    MarksKeep(MarkEvents(s, c), c);
    MarkedIsNothingDue(s, c);
    SaveSettles(MarkInvites(MarkEvents(s, c)), c);
    UpdateKeeps(s, c);
    SecondUpdate(Update(s, c), c);
  }
}
