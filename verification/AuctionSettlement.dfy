/** Over whole runs: who gets the item of a listed entry, and what everybody has paid for it. */
module AuctionSettlement {
  import opened AuctionHouse
  import opened AuctionEscrow
  import opened AuctionSteps
  import opened AuctionLedger
  import opened AuctionRuns

  // ----- the owners' books over runs -----

  ghost predicate Kept(w: World) { Items(w) && Books(w) && Ledgers(w) }

  /** A bid that is accepted on an auction somebody else has already won. */
  predicate LateBid(w: World, e: Event) {
    && e.op.Bid? && e.op.player != 0 && e.op.price != 0
    && CheckBid(e.env, w, e.op.player, e.op.house, e.op.id, e.op.price) == BidOk
    && !w.auctions[e.op.id].Active() && w.auctions[e.op.id].bidder != e.op.player
  }

  lemma StepLedgers(w: World, e: Event)
    requires Kept(w) && e.env.now >= 0
    ensures Kept(Step(w, e)) && (Winners(w) && !LateBid(w, e) ==> Winners(Step(w, e)))
  {
    hide Items, Books, Ledgers, Winners, AddAuction, UpdateBid, Cancel, UpdateHouse;
    StepKeeps(w, e);
    ItemsEscrowed(w);
    hide Escrowed;
    match e.op {
      case Sell(player, house, startbid, buyout, deposit, duration, cutRate) =>
        NextItem(w);
        AddLedgers(e.env, w, house, player, startbid, buyout, deposit, duration, cutRate);
      case ServerSell(house, startbid, buyout, duration, cutRate) =>
        NextItem(w);
        AddLedgers(e.env, w, house, 0, startbid, buyout, 0, duration, cutRate);
      case Bid(player, house, id, price) =>
        if id in w.auctions { UpdateBidLedgers(e.env, w, id, price, player); }
      case BotBid(id, buy) =>
        if id in w.auctions {
          var a := w.auctions[id];
          UpdateBidLedgers(e.env, w, id, if buy && a.buyout != 0 then a.buyout else BotOffer(a), 0);
        }
      case CancelOp(player, house, id) => CancelLedgers(e.env, w, player, house, id);
      case Tick =>
        HouseLedgers(e.env, w, 0);
        HouseLedgers(e.env, UpdateHouse(e.env, w, 0), 1);
        HouseLedgers(e.env, UpdateHouse(e.env, UpdateHouse(e.env, w, 0), 1), 2);
    }
  }

  lemma NextItem(w: World)
    requires Items(w)
    ensures w.nextItem >= 1
  {
  }

  lemma HouseLedgers(env: Env, w: World, house: nat)
    requires Kept(w) && env.now >= 0
    ensures var v := UpdateHouse(env, w, house); Kept(v) && (Winners(w) ==> Winners(v))
  {
    hide Items, Books, Ledgers, Winners, UpdateBelow;
    UpdateBelowLedgers(env, w, house, w.nextAuction);
  }

  lemma StartLedgers(purses: map<nat, nat>)
    ensures Ledgers(Start(purses)) && Winners(Start(purses))
  {
    var w := Start(purses);
    assert forall id :: TermsAt(w, id);
    assert forall id, p :: OwnerNet(w, id, p) == OwnerShare(w, id, p);
  }

  lemma {:induction false} RunLedgers(purses: map<nat, nat>, events: seq<Event>)
    requires Playable(purses, events)
    ensures Kept(Run(purses, events))
  {
    hide Items, Books, Ledgers, Step, Start;
    if events == [] {
      StartKeeps(purses);
      StartLedgers(purses);
    } else {
      RunLedgers(purses, events[..|events| - 1]);
      StepLedgers(Run(purses, events[..|events| - 1]), events[|events| - 1]);
    }
  }

  // ----- the winner -----

  /** No bid of the run comes late. */
  predicate OnTime(purses: map<nat, nat>, events: seq<Event>) {
    forall i :: 0 <= i < |events| ==> !LateBid(Run(purses, events[..i]), events[i])
  }

  lemma {:induction false} RunWinners(purses: map<nat, nat>, events: seq<Event>)
    requires Playable(purses, events) && OnTime(purses, events)
    ensures Winners(Run(purses, events))
  {
    hide Kept, Winners, Step, Start, LateBid;
    if events == [] {
      StartLedgers(purses);
    } else {
      var before := events[..|events| - 1];
      forall i | 0 <= i < |before| ensures !LateBid(Run(purses, before[..i]), before[i]) {
        assert before[..i] == events[..i];
      }
      RunWinners(purses, before);
      RunLedgers(purses, before);
      StepLedgers(Run(purses, before), events[|events| - 1]);
    }
  }

  /** Settlement: in every run without late bids, each won item is the one that was listed, goes
      to the bidder of its pending or sold entry, and he has paid exactly the final bid. */
  lemma WinSettles(purses: map<nat, nat>, events: seq<Event>, i: nat)
    requires Playable(purses, events) && OnTime(purses, events)
    requires i < |Run(purses, events).mails| && Run(purses, events).mails[i].kind == Won
    ensures var w := Run(purses, events); var m := w.mails[i];
      && IsWon(w, m.auction) && IsLot(w, m) && m.receiver == WonEntry(w, m.auction).bidder != 0
      && Owed(w, m.auction, m.receiver) == WonEntry(w, m.auction).bid
  {
    hide Items, Shape, OwnersBalanced;
    RunLedgers(purses, events);
    RunWinners(purses, events);
    var w := Run(purses, events);
    hide Run;
    var m := w.mails[i];
    assert Tied(w, m);
    assert Owed(w, m.auction, m.receiver) == Stake(w, m.auction, m.receiver);
  }

  /** Late bids are exactly what breaks it: a step leaves a won item with somebody who is not the
      bidder if and only if it is a late bid on an auction whose item was mailed. */
  lemma StepWinners(w: World, e: Event)
    requires Kept(w) && Winners(w) && e.env.now >= 0
    ensures !Winners(Step(w, e)) <==>
      LateBid(w, e) && exists i :: 0 <= i < |w.mails| && w.mails[i].kind == Won && w.mails[i].auction == e.op.id
  {
    hide Items, Books, Ledgers, Winners, UpdateBid, UpdateAll;
    StepLedgers(w, e);
    if LateBid(w, e) { LateBidWinners(w, e); }
  }

  /** A bid on a pending auction sends no item, only the refund. */
  lemma PendingBidMails(env: Env, w: World, id: nat, newbid: nat, bidder: nat)
    requires Items(w) && Pending(w, id)
    ensures var v := UpdateBid(env, w, id, newbid, bidder);
      OneMore(w, v, Mail(w.auctions[id].bidder, w.auctions[id].bid, 0, id, Outbidded))
  {
    hide TakeBid, AuctionBidWinning, Items;
    var amount := Capped(w.auctions[id], newbid);
    EnterBidItems(env, w, id, amount, bidder);
    TakeBidRecords(env, w, id, amount, bidder);
    var v := EnterBid(env, w, id, amount, bidder);
    ItemsEscrowed(v);
    WinRecords(env, v, id);
  }

  lemma LateBidWinners(w: World, e: Event)
    requires Kept(w) && Winners(w) && e.env.now >= 0 && LateBid(w, e)
    ensures !Winners(Step(w, e)) <==>
      exists i :: 0 <= i < |w.mails| && w.mails[i].kind == Won && w.mails[i].auction == e.op.id
  {
    hide Items, Books, Shape, OwnersBalanced, UpdateBid;
    var id := e.op.id;
    UpdateBidEntry(e.env, w, id, e.op.price, e.op.player);
    PendingBidMails(e.env, w, id, e.op.price, e.op.player);
    var v := Step(w, e);
    assert OneMore(w, v, Mail(w.auctions[id].bidder, w.auctions[id].bid, 0, id, Outbidded));
    hide Step, CheckBid;
    forall j | 0 <= j < |w.mails| ensures w.mails[j] == v.mails[j] && Tied(w, w.mails[j]) {}
    assert WonEntry(v, id).bidder == e.op.player != WonEntry(w, id).bidder;
  }

  // ----- the item -----

  lemma {:induction false} MailsWithAt(mails: seq<Mail>, g: nat)
    ensures MailsWith(mails, g) > 0 <==> exists i :: 0 <= i < |mails| && mails[i].item == g
  {
    if mails != [] {
      var front := mails[..|mails| - 1];
      MailsWithAt(front, g);
      if i :| 0 <= i < |front| && front[i].item == g { assert mails[i].item == g; }
      if i :| 0 <= i < |mails| && mails[i].item == g { assert i < |front| ==> front[i].item == g; }
    }
  }

  /** Mail `i` delivers the item of entry `id` to the one who should have it. */
  predicate Delivers(w: World, i: nat, id: nat) {
    && i < |w.mails| && IsLot(w, w.mails[i]) && w.mails[i].auction == id
    && var m := w.mails[i];
       || (m.kind == Won && IsWon(w, id))
       || (m.kind == Expired && id in w.ledger.expired && m.receiver == w.ledger.expired[id].owner)
       || (m.kind == Cancelled && id in w.ledger.cancelled && m.receiver == w.ledger.cancelled[id].owner)
  }

  lemma InEscrow(w: World, id: nat)
    requires Items(w) && Shape(w) && id in w.ledger.listed
    ensures w.ledger.listed[id].item in w.items <==> Standing(w, id)
  {
    var g := w.ledger.listed[id].item;
    if g in w.items {
      var j :| j in w.auctions && w.auctions[j].item == g;
      hide OnePlace;
      assert HoldsItem(w, w.auctions[j]);
      StandingLot(w, j);
    }
    if Standing(w, id) {
      StandingLot(w, id);
      assert HoldsItem(w, w.auctions[id]);
    }
  }

  /** The mail with the item of a closed entry is its one proper mail. */
  lemma LotMail(w: World, i: nat, id: nat)
    requires Shape(w) && Traced(w) && id in w.ledger.listed && i < |w.mails|
    requires w.mails[i].item == w.ledger.listed[id].item
    ensures Delivers(w, i, id)
  {
    hide Terms, OneOutcome;
    assert Tied(w, w.mails[i]);
    assert w.ledger.listed[id].item > 0;
  }

  lemma Closed(w: World, id: nat)
    requires Items(w) && Shape(w) && Traced(w) && id in w.ledger.listed && !Standing(w, id)
    ensures var g := w.ledger.listed[id].item;
      || (MailsWith(w.mails, g) == 0 && g in w.destroyed && id !in w.ledger.cancelled)
      || (MailsWith(w.mails, g) == 1 && g !in w.destroyed && exists i :: Delivers(w, i, id))
  {
    hide Escrowed, Traced, Terms, OneOutcome;
    var g := w.ledger.listed[id].item;
    InEscrow(w, id);
    assert Places(w, g) == 1;
    MailsWithAt(w.mails, g);
    if MailsWith(w.mails, g) > 0 {
      var i: nat :| i < |w.mails| && w.mails[i].item == g;
      LotMail(w, i, id);
    } else if id in w.ledger.cancelled {
      ReturnedLot(w, id);
      assert false;
    }
  }

  lemma ReturnedLot(w: World, id: nat)
    requires Shape(w) && Traced(w) && id in w.ledger.cancelled
    ensures exists i :: 0 <= i < |w.mails| && w.mails[i].item == w.ledger.listed[id].item
  {
    assert Returned(w, id);
    var i: nat :| i < |w.mails| && w.mails[i].kind == Cancelled && w.mails[i].auction == id;
    assert Tied(w, w.mails[i]);
  }

  /** The places of every listed item, over every run: in escrow while the auction stands and only
      then; afterwards destroyed, or in a single mail, which is the winner's for a won auction
      and the owner's for an expired or cancelled one.  A cancelled item is never destroyed. */
  lemma ItemPlaces(purses: map<nat, nat>, events: seq<Event>, id: nat)
    requires Playable(purses, events) && id in Run(purses, events).ledger.listed
    ensures var w := Run(purses, events); var g := w.ledger.listed[id].item;
      && Outcomes(w, id) == 1
      && (g in w.items <==> Standing(w, id))
      && (!Standing(w, id) ==>
            || (MailsWith(w.mails, g) == 0 && g in w.destroyed && id !in w.ledger.cancelled)
            || (MailsWith(w.mails, g) == 1 && g !in w.destroyed && exists i :: Delivers(w, i, id)))
  {
    RunLedgers(purses, events);
    var w := Run(purses, events);
    hide Run, Items, Terms, OwnItems, Books, Traced, OwnersBalanced;
    InEscrow(w, id);
    if !Standing(w, id) { Closed(w, id); }
  }

  // ----- the owner -----

  /** What an owner has paid and earned, over every run: the deposit, from the listing on; the cut
      of a cancelled auction with a bid; nothing more for an expired one; the profit of a sale. */
  lemma OwnerSettles(purses: map<nat, nat>, events: seq<Event>, id: nat, player: nat)
    requires Playable(purses, events) && player != 0
    requires id in Run(purses, events).ledger.listed && Run(purses, events).ledger.listed[id].owner == player
    ensures var w := Run(purses, events); var paid: int := w.ledger.listed[id].deposit;
      && (id in w.auctions || id in w.ledger.expired ==> OwnerNet(w, id, player) == -paid)
      && (id in w.ledger.cancelled ==>
            var a := w.ledger.cancelled[id];
            OwnerNet(w, id, player) == -paid - if a.bid != 0 then (a.bid as real * a.cutRate).Floor else 0)
      && (id in w.sold ==> OwnerNet(w, id, player) == Profit(w.sold[id]) - paid)
  {
    hide Run, Items, Shape, Books, Traced, OwnersBalanced;
    RunLedgers(purses, events);
    var w := Run(purses, events);
    OwnerSettled(w, id, player);
    if id in w.ledger.cancelled { FeeIsCut(w.ledger.cancelled[id]); }
  }

  lemma OwnerSettled(w: World, id: nat, player: nat)
    requires Shape(w) && OwnersBalanced(w) && player != 0 && id in w.ledger.listed
    requires w.ledger.listed[id].owner == player
    ensures var paid: int := w.ledger.listed[id].deposit;
      && (id in w.auctions || id in w.ledger.expired ==> OwnerNet(w, id, player) == -paid)
      && (id in w.ledger.cancelled ==> OwnerNet(w, id, player) == -paid - CancelFee(w.ledger.cancelled[id]))
      && (id in w.sold ==> OwnerNet(w, id, player) == Profit(w.sold[id]) - paid)
  {
    hide Terms, OwnItems, Profit, CancelFee;
    assert Outcomes(w, id) == 1;
    assert OwnerNet(w, id, player) == OwnerShare(w, id, player);
  }

  lemma FeeIsCut(a: Auction)
    ensures CancelFee(a) == if a.bid != 0 then (a.bid as real * a.cutRate).Floor else 0
  {
  }

  // ----- a run with a late bid -----

  lemma RunPush(purses: map<nat, nat>, events: seq<Event>, e: Event)
    ensures Run(purses, events + [e]) == Step(Run(purses, events), e)
  {
    assert (events + [e])[..|events|] == events;
  }

  /** A tick of a world in which auction 1 of house 0 is the only one there ever was. */
  lemma SingleTick(env: Env, w: World)
    requires w.nextAuction == 2 && 0 !in w.auctions && (1 in w.auctions ==> w.auctions[1].house == 0)
    ensures var v := UpdateAll(env, w);
      && v == (if 1 in w.auctions then UpdateOne(env, w, 1) else w)
      && v.nextAuction == 2 && 0 !in v.auctions && (1 in v.auctions ==> v.auctions[1].house == 0)
  {
    hide UpdateOne;
    var v := if 1 in w.auctions then UpdateOne(env, w, 1) else w;
    if 1 in w.auctions { SingleEntry(env, w); }
    SinglePass(env, w, 0);
    SinglePass(env, v, 1);
    SinglePass(env, v, 2);
  }

  lemma SinglePass(env: Env, w: World, house: nat)
    requires w.nextAuction == 2 && 0 !in w.auctions
    ensures UpdateHouse(env, w, house) ==
      if 1 in w.auctions && w.auctions[1].house == house then UpdateOne(env, w, 1) else w
  {
    hide UpdateOne;
    assert UpdateBelow(env, w, house, 0) == w;
    assert UpdateBelow(env, w, house, 1) == w;
  }

  lemma SingleEntry(env: Env, w: World)
    requires 1 in w.auctions
    ensures var v := UpdateOne(env, w, 1);
      && v.nextAuction == w.nextAuction && v.auctions.Keys <= w.auctions.Keys
      && (1 in v.auctions ==> v.auctions[1].house == w.auctions[1].house)
  {
    hide Profit;
  }

  function PartyAt(now: int): Env { Env(now, {1, 2, 3}, map[1 := 11, 2 := 12, 3 := 13]) }

  const PARTY: map<nat, nat> := map[1 := 1000, 2 := 1000, 3 := 1000]

  /** Player 1 wins at the hammer, player 2 outbids him before the money is delivered. */
  const LATE_RUN: seq<Event> := [
    Event(PartyAt(0), Sell(3, 0, 100, 0, 10, 50, 0.0)), Event(PartyAt(0), Bid(1, 0, 1, 100)),
    Event(PartyAt(100), Tick), Event(PartyAt(100), Bid(2, 0, 1, 200))]

  const LATE_LOT: Auction := Auction(0, 1, 3, 100, 0, 0, 50, 0, 0, 10, 0.0)

  /** The worlds of the run: listed, bid for, won, and bid for again. */
  const LATE_WORLD1: World := Start(PARTY).(
    auctions := map[1 := LATE_LOT], items := {1}, purses := PARTY[3 := 990], nextAuction := 2, nextItem := 2,
    ledger := NO_ENTRIES.List(1, LATE_LOT))

  const LATE_WORLD2: World := LATE_WORLD1.(
    auctions := map[1 := LATE_LOT.(bid := 100, bidder := 1)], purses := LATE_WORLD1.purses[1 := 900],
    charges := [Charge(1, 1, 100)])

  const LATE_WORLD3: World := LATE_WORLD2.(
    auctions := map[1 := LATE_LOT.(bid := 100, bidder := 1, item := 0, moneyDeliveryTime := 100 + HOUR)], items := {},
    mails := [Mail(1, 0, 1, 1, Won)])

  const LATE_WORLD4: World := LATE_WORLD3.(
    auctions := map[1 := LATE_LOT.(bid := 200, bidder := 2, item := 0, moneyDeliveryTime := 100 + HOUR)],
    purses := LATE_WORLD3.purses[2 := 800], charges := [Charge(1, 1, 100), Charge(2, 1, 200)],
    mails := [Mail(1, 0, 1, 1, Won), Mail(1, 100, 0, 1, Outbidded)])

  lemma LateListing()
    ensures Step(Start(PARTY), LATE_RUN[0]) == LATE_WORLD1
  {
  }

  lemma LateFirstBid()
    ensures Step(LATE_WORLD1, LATE_RUN[1]) == LATE_WORLD2
  {
  }

  lemma LateWin()
    ensures Step(LATE_WORLD2, LATE_RUN[2]) == LATE_WORLD3
  {
    SingleTick(PartyAt(100), LATE_WORLD2);
  }

  lemma LateSecondBid()
    ensures LateBid(LATE_WORLD3, LATE_RUN[3]) && Step(LATE_WORLD3, LATE_RUN[3]) == LATE_WORLD4
  {
  }

  lemma LateRun()
    ensures Run(PARTY, LATE_RUN[..3]) == LATE_WORLD3 && Run(PARTY, LATE_RUN) == LATE_WORLD4
  {
    hide Step;
    LateListing();
    LateFirstBid();
    LateWin();
    LateSecondBid();
    RunPush(PARTY, [], LATE_RUN[0]);
    RunPush(PARTY, LATE_RUN[..1], LATE_RUN[1]);
    RunPush(PARTY, LATE_RUN[..2], LATE_RUN[2]);
    RunPush(PARTY, LATE_RUN[..3], LATE_RUN[3]);
    assert LATE_RUN[..1] == [LATE_RUN[0]] && LATE_RUN[..2] == LATE_RUN[..1] + [LATE_RUN[1]];
    assert LATE_RUN[..3] == LATE_RUN[..2] + [LATE_RUN[2]] && LATE_RUN == LATE_RUN[..3] + [LATE_RUN[3]];
  }

  /** The late bid is accepted: player 1 has the item and his money back, player 2 has paid the
      price and gets nothing. */
  lemma LateBidPaysForNothing()
    ensures Playable(PARTY, LATE_RUN) && !OnTime(PARTY, LATE_RUN)
    ensures var w := Run(PARTY, LATE_RUN);
      && w.mails == [Mail(1, 0, 1, 1, Won), Mail(1, 100, 0, 1, Outbidded)] && Pending(w, 1) && w.auctions[1].bidder == 2
      && Owed(w, 1, 1) == 0 && Owed(w, 1, 2) == 200 && Purse(w, 2) == 800
  {
    hide Run, LateBid, Owed;
    LateRun();
    LateSecondBid();
    assert LateBid(Run(PARTY, LATE_RUN[..3]), LATE_RUN[3]);
    LateAccounts();
  }

  lemma LateAccounts()
    ensures Owed(LATE_WORLD4, 1, 1) == 0 && Owed(LATE_WORLD4, 1, 2) == 200
  {
    Append([], Mail(1, 0, 1, 1, Won));
    Append([Mail(1, 0, 1, 1, Won)], Mail(1, 100, 0, 1, Outbidded));
    AppendCharge([], Charge(1, 1, 100));
    AppendCharge([Charge(1, 1, 100)], Charge(2, 1, 200));
    assert [Charge(1, 1, 100)] + [Charge(2, 1, 200)] == LATE_WORLD4.charges;
  }
}
