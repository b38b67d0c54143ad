/** What a request leaves in the tables: each one with the rights it takes, the columns it writes,
    and the update that stores them. */
module CalendarRequests {
  import opened CalendarTables
  import opened CalendarRemap
  import opened CalendarStore
  import opened CalendarWriteBack
  import opened CalendarRuns

  // ----- copying an event -----

  /** The invites of a list that are still there, in its order. */
  function LiveOf(s: State, order: seq<nat>): seq<nat> {
    if order == [] then []
    else if LiveInvite(s, order[0]) then [order[0]] + LiveOf(s, order[1..])
    else LiveOf(s, order[1..])
  }

  /** The copy of an invite: the copier confirmed as owner, everybody else invited anew, with his
      moderator rank if he had it. */
  function Copied(row: InviteRow, n: nat, guid: nat, now: int): Invite {
    var own := row.invitee == guid;
    var rank := if own then 2 else if row.rank == 1 then 1 else 0;
    Invite.Invite(InviteRow(n, row.invitee, guid, if own then 3 else 0, now, rank, ""), false, false)
  }

  /** The invites numbered below `n` are the same. */
  predicate SameBelow(s: State, t: State, n: nat) {
    forall i: nat :: i < n ==> (i in t.invites <==> i in s.invites) && (i in s.invites ==> t.invites[i] == s.invites[i])
  }

  /** The invites of `t` from number `from` on are the copies of `live`, one for one, in order. */
  predicate EachCopied(base: State, t: State, from: nat, live: seq<nat>, n: nat, guid: nat, now: int) {
    forall k :: 0 <= k < |live| ==>
      && live[k] in base.invites && from + k in t.invites
      && t.invites[from + k] == Copied(base.invites[live[k]].row, n, guid, now)
  }

  /** `t` has the invites `live` of `base` copied behind those of `s`, all in the set of event `n`. */
  ghost predicate CopiedBehind(base: State, s: State, t: State, live: seq<nat>, n: nat, guid: nat, now: int)
    requires n in s.events && n in t.events
  {
    && t.nextInvite == s.nextInvite + |live| && SameBelow(s, t, s.nextInvite) && t.nextEvent == s.nextEvent
    && t.events == s.events[n := s.events[n].(invitees := t.events[n].invitees)] && t.tables == s.tables
    && (forall i: nat :: i in t.events[n].invitees <==> i in s.events[n].invitees || s.nextInvite <= i < t.nextInvite)
    && EachCopied(base, t, s.nextInvite, live, n, guid, now)
  }

  lemma CopyInviteExact(base: State, s: State, i: nat, n: nat, guid: nat, now: int)
    requires n in s.events && !s.events[n].row.IsGuildAnnouncement() && s.nextInvite !in s.events[n].invitees
    requires i < base.nextInvite <= s.nextInvite && SameBelow(base, s, base.nextInvite)
    ensures var t := CopyInvite(s, i, n, guid, now);
      n in t.events && CopiedBehind(base, s, t, if LiveInvite(base, i) then [i] else [], n, guid, now)
  {
  }

  lemma {:induction false} CopyInvitesExact(base: State, s: State, order: seq<nat>, n: nat, guid: nat, now: int)
    requires n in s.events && !s.events[n].row.IsGuildAnnouncement()
    requires forall i :: i in s.events[n].invitees ==> i < s.nextInvite
    requires base.nextInvite <= s.nextInvite && SameBelow(base, s, base.nextInvite)
    requires forall i :: i in order ==> i < base.nextInvite
    ensures CopiedBehind(base, s, CopyInvites(s, order, n, guid, now), LiveOf(base, order), n, guid, now)
    decreases order
  {
    hide CopyInvite, Copied;
    if order != [] {
      var i := order[0];
      assert i in order && forall j :: j in order[1..] ==> j in order;
      CopyInviteExact(base, s, i, n, guid, now);
      var s1 := CopyInvite(s, i, n, guid, now);
      CopyInvitesExact(base, s1, order[1..], n, guid, now);
      var first := if LiveInvite(base, i) then [i] else [];
      assert LiveOf(base, order) == first + LiveOf(base, order[1..]);
      CopiedTwice(base, s, s1, CopyInvites(s, order, n, guid, now), first, LiveOf(base, order[1..]), n, guid, now);
    }
  }

  lemma CopiedTwice(base: State, s: State, t: State, u: State, first: seq<nat>, rest: seq<nat>, n: nat, guid: nat,
      now: int)
    requires n in s.events && n in t.events && n in u.events
    requires CopiedBehind(base, s, t, first, n, guid, now) && CopiedBehind(base, t, u, rest, n, guid, now)
    ensures CopiedBehind(base, s, u, first + rest, n, guid, now)
  {
    hide Copied;
    EachTwice(base, t, u, s.nextInvite, first, rest, n, guid, now);
    assert u.events == s.events[n := s.events[n].(invitees := u.events[n].invitees)];
    assert SameBelow(s, u, s.nextInvite);
  }

  lemma EachTwice(base: State, t: State, u: State, from: nat, first: seq<nat>, rest: seq<nat>, n: nat, guid: nat,
      now: int)
    requires EachCopied(base, t, from, first, n, guid, now) && EachCopied(base, u, from + |first|, rest, n, guid, now)
    requires SameBelow(t, u, from + |first|)
    ensures EachCopied(base, u, from, first + rest, n, guid, now)
  {
    hide Copied;
    var live := first + rest;
    forall k | 0 <= k < |live|
      ensures live[k] in base.invites && from + k in u.invites
      ensures u.invites[from + k] == Copied(base.invites[live[k]].row, n, guid, now)
    {
      if k < |first| {
        assert live[k] == first[k] && from + k < from + |first|;
      } else {
        assert live[k] == rest[k - |first|] && from + |first| + (k - |first|) == from + k;
      }
    }
  }

  /** A copy is the old event at the new time, made by the copier, unsaved.  Its invites stand one
      for one, in order, for the live invites of the old event; a copied announcement has none.
      Everything else is unchanged, and a copy that is refused changes nothing. */
  lemma CopyExact(s: State, now: int, online: bool, e: nat, newTime: int, guid: nat, guild: nat, order: seq<nat>)
    requires Consistent(s) && (e in s.events ==> forall i :: i in order ==> i in s.events[e].invitees)
    ensures var t := CopyEvent(s, now, online, e, newTime, guid, guild, order); var n := s.nextEvent;
      if !LiveEvent(s, e) || !online || s.events[e].row.title == "" || newTime < now then t == s
      else
        var was := s.events[e].row;
        && n !in s.events && t.events.Keys == s.events.Keys + {n} && t.tables == s.tables && t.nextEvent == n + 1
        && (forall k: nat :: k in s.events ==> t.events[k] == s.events[k])
        && SameBelow(s, t, s.nextInvite)
        && t.events[n].row == was.(time := newTime, creator := guid,
             guild := if was.IsGuildEvent() || was.flags != 0 then guild else 0)
        && !t.events[n].saved && !t.events[n].deleted
        && (was.IsGuildAnnouncement() ==> t.events[n].invitees == {})
        && (!was.IsGuildAnnouncement() ==>
              && t.nextInvite == s.nextInvite + |LiveOf(s, order)|
              && (forall i: nat :: i in t.events[n].invitees <==> s.nextInvite <= i < t.nextInvite)
              && EachCopied(s, t, s.nextInvite, LiveOf(s, order), n, guid, now))
  {
    hide CopyInvites, Copied, Consistent;
    if LiveEvent(s, e) && online && s.events[e].row.title != "" && newTime >= now {
      var d := s.events[e].row.(time := newTime);
      NewCopy(s, now, online, e, d, guid, guild, order);
      hide AddEvent;
      if !d.IsGuildAnnouncement() {
        var s1 := AddEvent(s, now, online, guid, guild, d);
        CopyInvitesExact(s, s1, order, s.nextEvent, guid, now);
        var t := CopyInvites(s1, order, s.nextEvent, guid, now);
        assert EachCopied(s, t, s.nextInvite, LiveOf(s, order), s.nextEvent, guid, now);
        hide EachCopied;
      }
    }
  }

  /** The copy before it has its invites. */
  lemma NewCopy(s: State, now: int, online: bool, e: nat, d: EventRow, guid: nat, guild: nat, order: seq<nat>)
    requires Consistent(s) && LiveEvent(s, e) && online && d.title != "" && d.time >= now
    requires forall i :: i in order ==> i in s.events[e].invitees
    ensures var t := AddEvent(s, now, online, guid, guild, d); var n := s.nextEvent;
      && n !in s.events && t == s.(events := t.events, nextEvent := n + 1)
      && n in t.events && t.events == s.events[n := t.events[n]]
      && t.events[n].row == d.(creator := guid, guild := if d.IsGuildEvent() || d.flags != 0 then guild else 0)
      && t.events[n].invitees == {} && !t.events[n].saved && !t.events[n].deleted
    ensures forall i :: i in order ==> i < s.nextInvite
  {
    assert Owned(s, e, s.events[e].invitees);
  }

  // ----- what an update writes -----

  /** An update writes every entry that it does not remove. */
  lemma UpdateWrites(s: State, c: Clock)
    requires Consistent(s)
    ensures var u := Update(s, c);
      && (forall e: nat :: e in s.events && !Due(s, c, e) ==>
            && e in u.tables.events && u.tables.events[e] == s.events[e].row
            && e in u.events && u.events[e].row == s.events[e].row)
      && (forall i: nat :: i in s.invites && !InviteDue(s, c, i) ==>
            i in u.tables.invites && u.tables.invites[i] == s.invites[i].row && i in u.invites)
  {
    var m := MarkInvites(MarkEvents(s, c));
    hide Expired, Consistent, MarkEvents, MarkInvites, Due, InviteDue, SaveToDB;
    MarksKeep(s, c);
    MarksKeep(MarkEvents(s, c), c);
    MarkedEvents(s, c);
    MarkedInvites(s, c);
    MarkedIsNothingDue(s, c);
    MarkedRows(s, c);
    SaveWrites(m, c);
  }

  lemma MarkedRows(s: State, c: Clock)
    ensures var m := MarkInvites(MarkEvents(s, c));
      && (forall e: nat :: e in s.events ==> e in m.events && m.events[e].row == s.events[e].row)
      && (forall i: nat :: i in s.invites ==> i in m.invites && m.invites[i].row == s.invites[i].row)
  {
    hide Expired;
  }

  lemma SaveWrites(s: State, c: Clock)
    requires Consistent(s) && NothingDue(s, c)
    ensures var u := SaveToDB(s);
      && (forall e: nat :: LiveEvent(s, e) ==>
            && e in u.tables.events && u.tables.events[e] == s.events[e].row
            && e in u.events && u.events[e].row == s.events[e].row)
      && (forall i: nat :: LiveInvite(s, i) ==>
            i in u.tables.invites && u.tables.invites[i] == s.invites[i].row && i in u.invites)
  {
    assert EventsSaved(s) && InvitesSaved(s);
    hide Consistent, Expired, NothingDue, Orphaned;
    SaveEventsSettles(s, c);
  }

  /** The event of an invite keeps it: it stays live, unexpired, and names the invite. */
  predicate Kept(s: State, c: Clock, e: nat, i: nat) {
    InviteOf(s, e, i) && !Expired(c, s.events[e].row)
  }

  lemma KeptIsNotDue(s: State, c: Clock, e: nat, i: nat)
    requires Consistent(s) && Kept(s, c, e, i)
    ensures !Due(s, c, e) && !InviteDue(s, c, i) && s.invites[i].row.event == e
  {
    assert Owned(s, e, s.events[e].invitees);
  }

  // ----- answers and ranks -----

  /** The invitee himself, or an invitee of the event who is moderator or owner of it. */
  predicate Allowed(s: State, i: nat, guid: nat, found: nat)
    requires i in s.invites
  {
    || s.invites[i].row.invitee == guid
    || (found in s.invites && (s.invites[found].row.rank == 1 || s.invites[found].row.rank == 2))
  }

  /** An answer reaches the table with its status and time if the rights and, for the invitee's own
      button, the lock of the event allow it; otherwise the row stays as it was. */
  lemma AnswerIsStored(s: State, rsvp: bool, guid: nat, found: nat, e: nat, i: nat, status: nat, now: int, c: Clock)
    requires Consistent(s) && Kept(s, c, e, i)
    ensures var was := s.invites[i].row; var u := Update(SetStatus(s, rsvp, guid, found, e, i, status, now), c);
      i in u.tables.invites && u.tables.invites[i] ==
        if Allowed(s, i, guid, found) && !(rsvp && status != 9 && s.events[e].row.flags / 16 % 2 == 1)
        then InviteRow(e, was.invitee, was.sender, status, now, was.rank, was.text)
        else was
  {
    var t := SetStatus(s, rsvp, guid, found, e, i, status, now);
    SetStatusKeeps(s, rsvp, guid, found, e, i, status, now);
    KeptIsNotDue(s, c, e, i);
    assert Kept(t, c, e, i);
    hide Consistent, Expired, Update, SetStatus;
    KeptIsNotDue(t, c, e, i);
    UpdateWrites(t, c);
  }

  /** So does a rank, except that of the owner. */
  lemma RankIsStored(s: State, guid: nat, found: nat, e: nat, i: nat, rank: nat, c: Clock)
    requires Consistent(s) && Kept(s, c, e, i)
    ensures var was := s.invites[i].row; var u := Update(SetRank(s, guid, found, e, i, rank), c);
      i in u.tables.invites && u.tables.invites[i] ==
        if Allowed(s, i, guid, found) && rank != 2
        then InviteRow(e, was.invitee, was.sender, was.status, was.updated, rank, was.text)
        else was
  {
    var t := SetRank(s, guid, found, e, i, rank);
    SetRankKeeps(s, guid, found, e, i, rank);
    KeptIsNotDue(s, c, e, i);
    assert Kept(t, c, e, i);
    hide Consistent, Expired, Update, SetRank;
    KeptIsNotDue(t, c, e, i);
    UpdateWrites(t, c);
  }

  // ----- new invites and edited events -----

  /** A new invite to a live event is stored with what the sender said, and keeps the event; an
      invite to an announcement is never stored alive. */
  lemma InviteIsStored(s: State, e: nat, sender: nat, invitee: nat, status: nat, rank: nat, text: string, now: int,
      c: Clock)
    requires Consistent(s) && LiveEvent(s, e) && !Expired(c, s.events[e].row)
    ensures var i := s.nextInvite; var t := AddInvite(s, e, sender, invitee, status, rank, text, now);
      var u := Update(t, c);
      if s.events[e].row.flags / 64 % 2 == 1 then !LiveInvite(t, i)
      else
        && i in u.tables.invites && u.tables.invites[i] == InviteRow(e, invitee, sender, status, now, rank, text)
        && e in u.tables.events && u.tables.events[e] == s.events[e].row
  {
    var i := s.nextInvite;
    var t := AddInvite(s, e, sender, invitee, status, rank, text, now);
    AddInviteKeeps(s, e, sender, invitee, status, rank, text, now);
    assert Owned(s, e, s.events[e].invitees);
    if !s.events[e].row.IsGuildAnnouncement() {
      assert Kept(t, c, e, i);
      assert t.invites[i].row == InviteRow(e, invitee, sender, status, now, rank, text);
      assert t.events[e].row == s.events[e].row;
      hide Consistent, Expired, Update, AddInvite;
      KeptIsNotDue(t, c, e, i);
      UpdateWrites(t, c);
    }
  }

  /** An edited event is stored with the new columns, its creator and guild as they were, if the
      creator or a moderator edits it; otherwise its row stays. */
  lemma EditIsStored(s: State, guid: nat, found: nat, e: nat, d: EventRow, c: Clock)
    requires Consistent(s) && LiveEvent(s, e) && s.events[e].invitees != {}
    requires !Expired(c, s.events[e].row) && !Expired(c, d)
    ensures var was := s.events[e].row; var u := Update(UpdateEvent(s, guid, found, e, d), c);
      e in u.tables.events && u.tables.events[e] ==
        if guid == was.creator || (found in s.invites && s.invites[found].row.rank == 1)
        then EventRow(was.creator, was.guild, d.kind, d.flags, d.dungeon, d.time, d.title, d.description)
        else was
  {
    var t := UpdateEvent(s, guid, found, e, d);
    UpdateEventKeeps(s, guid, found, e, d);
    assert !Due(t, c, e);
    hide Consistent, Due, Update, UpdateEvent;
    UpdateWrites(t, c);
  }

  // ----- removals -----

  lemma NoRevival(s: State, c: Clock)
    ensures forall i: nat :: LiveInvite(Update(s, c), i) ==> LiveInvite(s, i)
  {
    hide Expired, Orphaned;
  }

  /** What is marked deleted is out of the tables after two updates. */
  lemma DeletedGoes(s: State, c: Clock)
    requires Consistent(s)
    ensures var u := Update(Update(s, c), c);
      && (forall e: nat :: !LiveEvent(s, e) ==> e !in u.tables.events)
      && (forall i: nat :: !LiveInvite(s, i) ==> i !in u.tables.invites)
  {
    hide Consistent, Update, AllSaved, NothingDue;
    TwoUpdatesSettle(s, c);
    UpdateGrows(s, c);
    UpdateGrows(Update(s, c), c);
    NoRevival(s, c);
    NoRevival(Update(s, c), c);
  }

  /** Only its creator removes an event, and then it is gone after two updates. */
  lemma RemovalIsStored(s: State, e: nat, remover: nat, c: Clock)
    requires Consistent(s) && LiveEvent(s, e) && !Due(s, c, e)
    ensures var t := RemoveEvent(s, e, remover);
      if remover == s.events[e].row.creator then e !in Update(Update(t, c), c).tables.events
      else e in Update(t, c).tables.events && Update(t, c).tables.events[e] == s.events[e].row
  {
    var t := RemoveEvent(s, e, remover);
    RemoveEventKeeps(s, e, remover);
    assert remover == s.events[e].row.creator ==> !LiveEvent(t, e);
    assert remover != s.events[e].row.creator ==> t == s;
    hide Consistent, Update, Due, RemoveEvent;
    DeletedGoes(t, c);
    UpdateWrites(t, c);
  }

  /** An invite is removed by its invitee or by a moderator or owner, but never that of the event's
      creator. */
  lemma UninviteIsStored(s: State, e: nat, i: nat, remover: nat, found: nat, c: Clock)
    requires Consistent(s) && Kept(s, c, e, i)
    ensures var t := RemoveInvite(s, e, i, remover, found);
      if Allowed(s, i, remover, found) && s.invites[i].row.invitee != s.events[e].row.creator
      then i !in Update(Update(t, c), c).tables.invites
      else i in Update(t, c).tables.invites && Update(t, c).tables.invites[i] == s.invites[i].row
  {
    var t := RemoveInvite(s, e, i, remover, found);
    var gone := Allowed(s, i, remover, found) && s.invites[i].row.invitee != s.events[e].row.creator;
    RemoveInviteKeeps(s, e, i, remover, found);
    KeptIsNotDue(s, c, e, i);
    assert gone ==> !LiveInvite(t, i);
    assert !gone ==> t == s;
    hide Consistent, Expired, Update, RemoveInvite;
    DeletedGoes(t, c);
    UpdateWrites(t, c);
  }

  /** When a player leaves, or leaves his guild, exactly his events, or those of the guild, go. */
  lemma DepartureIsStored(s: State, player: nat, guildOnly: bool, e: nat, c: Clock)
    requires Consistent(s) && LiveEvent(s, e) && !Due(s, c, e)
    ensures var was := s.events[e].row; var t := RemoveCalendar(s, player, guildOnly);
      if was.creator == player && (!guildOnly || was.flags / 1024 % 2 == 1 || was.flags / 64 % 2 == 1)
      then e !in Update(Update(t, c), c).tables.events
      else e in Update(t, c).tables.events && Update(t, c).tables.events[e] == was
  {
    var t := RemoveCalendar(s, player, guildOnly);
    RemoveCalendarKeeps(s, player, guildOnly);
    assert Leaves(s, e, player, guildOnly) ==> !LiveEvent(t, e);
    assert !Leaves(s, e, player, guildOnly) ==> t.events[e] == s.events[e];
    hide Consistent, Update, InviteLeaves, RemoveCalendar, Expired;
    DeletedGoes(t, c);
    UpdateWrites(t, c);
  }

  /** Of the invites to these events his own are gone at once, and no other invite is touched. */
  lemma DepartureOfInvites(s: State, player: nat, guildOnly: bool, e: nat, i: nat)
    requires Consistent(s) && InviteOf(s, e, i) && player != 0
    ensures var was := s.events[e].row; var t := RemoveCalendar(s, player, guildOnly);
      && i in t.invites && t.invites[i].row == s.invites[i].row
      && (LiveInvite(t, i) <==>
            !(s.invites[i].row.invitee == player && was.creator == player
              && (!guildOnly || was.flags / 1024 % 2 == 1 || was.flags / 64 % 2 == 1)))
  {
    assert Owned(s, e, s.events[e].invitees);
    if k :| k in s.events && Leaves(s, k, player, guildOnly) && i in s.events[k].invitees {
      assert Owned(s, k, s.events[k].invitees);
      assert s.invites[i].row.event == k == e;
    }
    assert Leaves(s, e, player, guildOnly) <==>
      s.events[e].row.creator == player && (!guildOnly || s.events[e].row.flags / 1024 % 2
          == 1 || s.events[e].row.flags / 64 % 2 == 1);
    hide Consistent;
  }

  /** An event with invitees stays until its time plus the configured delay has come, and for ever
      if the delay is negative. */
  lemma EventTimesOut(s: State, c: Clock, e: nat)
    requires LiveEvent(s, e) && s.events[e].invitees != {}
    ensures LiveEvent(Update(s, c), e) <==> c.delay < 0 || c.now < s.events[e].row.time + c.delay
  {
    hide Update;
    UpdateGrows(s, c);
  }
}
