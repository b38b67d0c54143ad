/** Why an item is ever destroyed: because, at the moment its auction was settled, the one who
    should have it did not exist. */
module AuctionDelivery {
  import opened AuctionHouse
  import opened AuctionEscrow
  import opened AuctionSteps
  import opened AuctionLedger
  import opened AuctionRuns
  import opened AuctionSettlement

  /** Entry `id` of `v` has expired or is won, and its owner or bidder does not exist. */
  predicate Unclaimed(env: Env, v: World, id: nat) {
    || (id in v.ledger.expired && !env.Exists(v.ledger.expired[id].owner))
    || (IsWon(v, id) && !env.Exists(WonEntry(v, id).bidder))
  }

  /** What one moment does to an entry that was listed before: outcomes stay, and its item is
      destroyed exactly if the auction stood and is settled for nobody. */
  ghost predicate SettledAt(env: Env, w: World, v: World, id: nat)
    requires id in w.ledger.listed
  {
    && (IsWon(w, id) ==> IsWon(v, id))
    && (id in w.ledger.expired ==> id in v.ledger.expired && v.ledger.expired[id] == w.ledger.expired[id])
    && (id in w.ledger.cancelled ==> id in v.ledger.cancelled)
    && (Standing(v, id) ==> Standing(w, id))
    && var g := w.ledger.listed[id].item;
       g in v.destroyed <==> g in w.destroyed || (Standing(w, id) && Unclaimed(env, v, id))
  }

  function ListedItems(w: World): set<nat> { set id | id in w.ledger.listed :: w.ledger.listed[id].item }

  /** The same for all entries, and nothing else is destroyed. */
  ghost predicate Settles(env: Env, w: World, v: World) {
    && (forall id :: id in w.ledger.listed ==> id in v.ledger.listed && v.ledger.listed[id] == w.ledger.listed[id])
    && (forall id :: id in v.ledger.listed && id !in w.ledger.listed ==> Standing(v, id))
    && (forall id :: id in w.ledger.listed ==> SettledAt(env, w, v, id))
    && w.destroyed <= v.destroyed <= w.destroyed + ListedItems(w)
  }

  // ----- one operation -----

  /** An operation on entry `id` that destroys its item exactly if it settles it for nobody. */
  ghost predicate Touches(env: Env, w: World, v: World, id: nat) {
    && (EntrySet(w, v, id) || EntryClosed(w, v, id))
    && v.destroyed == w.destroyed + if Standing(w, id) && Unclaimed(env, v, id) then {w.auctions[id].item} else {}
  }

  lemma TouchedSettles(env: Env, w: World, v: World, id: nat)
    requires Shape(w) && Touches(env, w, v, id)
    ensures Settles(env, w, v)
  {
    hide SettledAt, SameTerms;
    if Standing(w, id) { StandingLot(w, id); }
    forall i | i in w.ledger.listed ensures SettledAt(env, w, v, i) { TouchedAt(env, w, v, id, i); }
  }

  lemma TouchedAt(env: Env, w: World, v: World, id: nat, i: nat)
    requires Shape(w) && Touches(env, w, v, id) && i in w.ledger.listed
    ensures SettledAt(env, w, v, i)
  {
    OpenEntry(w, id);
    assert TermsAt(w, id) && Outcomes(w, i) == 1;
    assert w.ledger.listed[i].item == w.ledger.listed[id].item ==> i == id;
    hide Shape, SameTerms;
  }

  lemma WinDestroys(env: Env, w: World, id: nat)
    requires id in w.auctions && Escrowed(w)
    ensures var a := w.auctions[id];
      AuctionBidWinning(env, w, id).destroyed
      == w.destroyed + if a.Active() && !env.Exists(a.bidder) then {a.item} else {}
  {
    assert HoldsItem(w, w.auctions[id]);
  }

  lemma WinTouches(env: Env, w: World, id: nat)
    requires id in w.auctions && Escrowed(w) && Shape(w) && env.now >= 0
    ensures var v := AuctionBidWinning(env, w, id); Touches(env, w, v, id) && SameWinners(w, v)
  {
    hide Shape, Escrowed, AuctionBidWinning, SameWinners;
    OpenEntry(w, id);
    WinRecords(env, w, id);
    WinDestroys(env, w, id);
    EntrySetShape(w, AuctionBidWinning(env, w, id), id);
  }

  /** The records of a bid: nobody's item is destroyed unless the bid buys out. */
  lemma UpdateBidRecords(env: Env, w: World, id: nat, newbid: nat, bidder: nat)
    requires id in w.auctions && Items(w) && env.now >= 0
    ensures var a := w.auctions[id]; var v := UpdateBid(env, w, id, newbid, bidder);
      var bought := a.buyout != 0 && newbid >= a.buyout;
      && v.ledger == w.ledger && v.nextItem == w.nextItem && id in v.auctions
      && v.auctions[id].moneyDeliveryTime == (if bought then env.now + HOUR else a.moneyDeliveryTime)
      && v.destroyed == w.destroyed + if bought && a.Active() && !env.Exists(bidder) then {a.item} else {}
  {
    hide TakeBid, AuctionBidWinning, Items, Escrowed;
    var a := w.auctions[id];
    var amount := Capped(a, newbid);
    TakeBidRecords(env, w, id, amount, bidder);
    EnterBidItems(env, w, id, amount, bidder);
    TakeBidPlaces(env, w, id, amount, bidder);
    var v := EnterBid(env, w, id, amount, bidder);
    ItemsEscrowed(v);
    if a.buyout != 0 && newbid >= a.buyout {
      WinRecords(env, v, id);
      WinDestroys(env, v, id);
    }
  }

  lemma TakeBidPlaces(env: Env, w: World, id: nat, amount: nat, bidder: nat)
    requires id in w.auctions
    ensures TakeBid(env, w, id, amount, bidder).destroyed == w.destroyed
  {
  }

  lemma UpdateBidTouches(env: Env, w: World, id: nat, newbid: nat, bidder: nat)
    requires id in w.auctions && Items(w) && Shape(w) && env.now >= 0
    ensures var v := UpdateBid(env, w, id, newbid, bidder);
      && Touches(env, w, v, id)
      && (w.auctions[id].Active() || bidder == w.auctions[id].bidder ==> SameWinners(w, v))
  {
    hide Items, Shape, UpdateBid, SameWinners;
    OpenEntry(w, id);
    UpdateBidEntry(env, w, id, newbid, bidder);
    UpdateBidRecords(env, w, id, newbid, bidder);
    EntrySetShape(w, UpdateBid(env, w, id, newbid, bidder), id);
  }

  lemma DeliverTouches(env: Env, w: World, id: nat)
    requires Pending(w, id) && Shape(w)
    ensures var v := Deliver(env, w, id); Touches(env, w, v, id) && SameWinners(w, v)
  {
    hide Shape, SameWinners, Profit;
    var v := Deliver(env, w, id);
    EntryClosedShape(w, v, id);
  }

  lemma ExpireDestroys(env: Env, w: World, id: nat)
    requires Standing(w, id) && Escrowed(w)
    ensures var a := w.auctions[id];
      Expire(env, w, id).destroyed == w.destroyed + if !env.Exists(a.owner) then {a.item} else {}
  {
    assert HoldsItem(w, w.auctions[id]);
  }

  lemma ExpireTouches(env: Env, w: World, id: nat)
    requires Standing(w, id) && Escrowed(w) && Shape(w)
    ensures var v := Expire(env, w, id); Touches(env, w, v, id) && SameWinners(w, v)
  {
    hide Shape, Escrowed, Expire, SameWinners;
    OpenEntry(w, id);
    ExpireRecords(env, w, id);
    ExpireDestroys(env, w, id);
    EntryClosedShape(w, Expire(env, w, id), id);
  }

  lemma CancelPlaces(env: Env, w: World, player: nat, house: nat, id: nat)
    ensures Cancel(env, w, player, house, id).destroyed == w.destroyed
  {
  }

  lemma CancelTouches(env: Env, w: World, player: nat, house: nat, id: nat)
    requires MayCancel(w, player, house, id) && Escrowed(w) && Shape(w)
    ensures var v := Cancel(env, w, player, house, id); Touches(env, w, v, id) && SameWinners(w, v)
  {
    hide Shape, Cancel, SameWinners;
    OpenEntry(w, id);
    CancelRecords(env, w, player, house, id);
    CancelPlaces(env, w, player, house, id);
    assert HoldsItem(w, w.auctions[id]);
    EntryClosedShape(w, Cancel(env, w, player, house, id), id);
  }

  // ----- one moment -----

  lemma SettlesSelf(env: Env, w: World)
    requires OneOutcome(w)
    ensures Settles(env, w, w) && SameWinners(w, w)
  {
    forall id | id in w.ledger.listed ensures SettledAt(env, w, w, id) { assert Outcomes(w, id) == 1; }
  }

  /** Two operations at one moment that keep the winners. */
  lemma SettlesTwice(env: Env, w: World, v: World, u: World)
    requires Settles(env, w, v) && Settles(env, v, u) && v.ledger.listed == w.ledger.listed
    requires SameWinners(v, u) && OneOutcome(v) && OneOutcome(u)
    ensures Settles(env, w, u)
  {
    hide SettledAt, SameWinners, OneOutcome, Standing;
    forall id | id in w.ledger.listed ensures SettledAt(env, w, u, id) {
      SettledTwice(env, w, v, u, id);
    }
  }

  lemma SettledTwice(env: Env, w: World, v: World, u: World, id: nat)
    requires id in w.ledger.listed && v.ledger.listed == w.ledger.listed && id in u.ledger.listed
    requires SettledAt(env, w, v, id) && SettledAt(env, v, u, id) && SameWinners(v, u)
    requires OneOutcome(v) && OneOutcome(u)
    ensures SettledAt(env, w, u, id)
  {
    assert Outcomes(v, id) == 1 && Outcomes(u, id) == 1;
    hide OneOutcome;
  }

  lemma UpdateOneSettles(env: Env, w: World, id: nat)
    requires id in w.auctions && Items(w) && Shape(w) && env.now >= 0
    ensures var v := UpdateOne(env, w, id);
      Settles(env, w, v) && SameWinners(w, v) && v.ledger.listed == w.ledger.listed
  {
    hide Items, Deliver, Expire, AuctionBidWinning, Settles, SameWinners, Touches, Terms, OneOutcome, OwnItems;
    ItemsEscrowed(w);
    hide Escrowed;
    SettlesSelf(env, w);
    var a := w.auctions[id];
    var v := UpdateOne(env, w, id);
    if !a.Active() {
      DeliverTouches(env, w, id);
    } else if a.bid == 0 {
      ExpireTouches(env, w, id);
    } else {
      WinTouches(env, w, id);
    }
    if v != w {
      TouchedSettles(env, w, v, id);
      TouchedListed(env, w, v, id);
    }
  }

  lemma TouchedListed(env: Env, w: World, v: World, id: nat)
    requires Touches(env, w, v, id)
    ensures v.ledger.listed == w.ledger.listed
  {
  }

  lemma {:induction false} UpdateBelowSettles(env: Env, w: World, house: nat, n: nat)
    requires Kept(w) && env.now >= 0
    ensures var v := UpdateBelow(env, w, house, n);
      Kept(v) && Settles(env, w, v) && SameWinners(w, v) && v.ledger.listed == w.ledger.listed
  {
    hide Items, Books, Shape, Traced, OwnersBalanced, Settles, SameWinners, UpdateOne;
    if n == 0 {
      KeptOutcomes(w);
      SettlesSelf(env, w);
    } else {
      UpdateBelowSettles(env, w, house, n - 1);
      UpdateBelowLedgers(env, w, house, n);
      var v := UpdateBelow(env, w, house, n - 1);
      if n - 1 in v.auctions && v.auctions[n - 1].house == house {
        UpdateOneSettles(env, v, n - 1);
        Compose(env, w, v, UpdateOne(env, v, n - 1));
      }
    }
  }

  lemma KeptOutcomes(w: World)
    requires Kept(w)
    ensures OneOutcome(w) && Shape(w)
  {
  }

  lemma Compose(env: Env, w: World, v: World, u: World)
    requires Settles(env, w, v) && SameWinners(w, v) && v.ledger.listed == w.ledger.listed
    requires Settles(env, v, u) && SameWinners(v, u) && u.ledger.listed == v.ledger.listed
    requires Kept(v) && Kept(u)
    ensures Settles(env, w, u) && SameWinners(w, u)
  {
    KeptOutcomes(v);
    KeptOutcomes(u);
    hide Kept, Settles;
    SettlesTwice(env, w, v, u);
  }

  lemma TickSettles(env: Env, w: World)
    requires Kept(w) && env.now >= 0
    ensures Settles(env, w, UpdateAll(env, w)) && SameWinners(w, UpdateAll(env, w))
  {
    hide Kept, Settles, SameWinners, UpdateBelow;
    var w1 := UpdateHouse(env, w, 0);
    var w2 := UpdateHouse(env, w1, 1);
    var w3 := UpdateHouse(env, w2, 2);
    UpdateBelowSettles(env, w, 0, w.nextAuction);
    UpdateBelowSettles(env, w1, 1, w1.nextAuction);
    UpdateBelowSettles(env, w2, 2, w2.nextAuction);
    Compose(env, w, w1, w2);
    Compose(env, w, w2, w3);
  }

  lemma AddSettles(env: Env, w: World, house: nat, owner: nat, startbid: nat, buyout: nat, deposit: nat, duration: nat,
                   cutRate: Rate)
    requires Shape(w)
    ensures var v := AddAuction(env, w, house, owner, startbid, buyout, deposit, duration, cutRate);
      Settles(env, w, v) && SameWinners(w, v)
  {
    hide Terms, OneOutcome, SameWinners, Settles;
    Unlisted(w);
    var v := AddAuction(env, w, house, owner, startbid, buyout, deposit, duration, cutRate);
    AddedSettles(env, w, v, v.auctions[w.nextAuction]);
  }

  lemma AddedSettles(env: Env, w: World, v: World, a: Auction)
    requires OneOutcome(w) && EntryAdded(w, v, a) && w.nextAuction !in w.ledger.listed && v.destroyed == w.destroyed
    ensures Settles(env, w, v) && SameWinners(w, v)
  {
    AddRest(w, v, a);
    forall id | id in w.ledger.listed ensures SettledAt(env, w, v, id) {
      assert Outcomes(w, id) == 1 && Outcomes(v, id) == 1 && id != w.nextAuction;
    }
  }

  lemma BidSettles(env: Env, w: World, id: nat, newbid: nat, bidder: nat)
    requires Kept(w) && id in w.auctions && env.now >= 0
    ensures var v := UpdateBid(env, w, id, newbid, bidder);
      && Settles(env, w, v)
      && (w.auctions[id].Active() || bidder == w.auctions[id].bidder ==> SameWinners(w, v))
  {
    hide Items, Books, Shape, Traced, OwnersBalanced, Settles, SameWinners, UpdateBid, Touches;
    UpdateBidTouches(env, w, id, newbid, bidder);
    TouchedSettles(env, w, UpdateBid(env, w, id, newbid, bidder), id);
  }

  lemma CancelSettles(env: Env, w: World, player: nat, house: nat, id: nat)
    requires Kept(w)
    ensures var v := Cancel(env, w, player, house, id); Settles(env, w, v) && SameWinners(w, v)
  {
    KeptOutcomes(w);
    hide Books, Shape, Traced, OwnersBalanced, Settles, SameWinners, Touches, SettleCancelled, OneOutcome;
    SettlesSelf(env, w);
    if MayCancel(w, player, house, id) {
      CancelTouches(env, w, player, house, id);
      TouchedSettles(env, w, Cancel(env, w, player, house, id), id);
    }
  }

  lemma StepSettles(w: World, e: Event)
    requires Kept(w) && e.env.now >= 0
    ensures Settles(e.env, w, Step(w, e)) && (!LateBid(w, e) ==> SameWinners(w, Step(w, e)))
  {
    hide Kept, Settles, SameWinners, Shape, OneOutcome, AddAuction, UpdateBid, Cancel, UpdateAll;
    KeptOutcomes(w);
    SettlesSelf(e.env, w);
    match e.op {
      case Sell(player, house, startbid, buyout, deposit, duration, cutRate) =>
        AddSettles(e.env, w, house, player, startbid, buyout, deposit, duration, cutRate);
      case ServerSell(house, startbid, buyout, duration, cutRate) =>
        AddSettles(e.env, w, house, 0, startbid, buyout, 0, duration, cutRate);
      case Bid(player, house, id, price) =>
        if id in w.auctions { BidSettles(e.env, w, id, price, player); }
      case BotBid(id, buy) =>
        if id in w.auctions {
          var a := w.auctions[id];
          BidSettles(e.env, w, id, if buy && a.buyout != 0 then a.buyout else BotOffer(a), 0);
        }
      case CancelOp(player, house, id) => CancelSettles(e.env, w, player, house, id);
      case Tick => TickSettles(e.env, w);
    }
  }

  // ----- what destroys an item -----

  /** An auction with item `g` stood in `w`, and what leads to `v` settles it for nobody. */
  ghost predicate LostBetween(env: Env, w: World, v: World, g: nat) {
    exists id :: id in w.ledger.listed && w.ledger.listed[id].item == g && Standing(w, id) && Unclaimed(env, v, id)
  }

  /** A step destroys an item if and only if its auction stood before and the step settles it for
      somebody who does not exist: the owner of an expired, the bidder of a won entry. */
  lemma StepDestroys(w: World, e: Event, g: nat)
    requires Kept(w) && e.env.now >= 0
    ensures g in Step(w, e).destroyed <==> g in w.destroyed || LostBetween(e.env, w, Step(w, e), g)
  {
    hide Kept, Step, SameWinners, Unclaimed, Standing;
    StepSettles(w, e);
    SettlesDestroys(e.env, w, Step(w, e), g);
  }

  lemma SettlesDestroys(env: Env, w: World, v: World, g: nat)
    requires Settles(env, w, v)
    ensures g in v.destroyed <==> g in w.destroyed || LostBetween(env, w, v, g)
  {
    hide Unclaimed, Standing;
    if g in v.destroyed && g !in w.destroyed {
      assert g in ListedItems(w);
      var id :| id in w.ledger.listed && w.ledger.listed[id].item == g;
      assert SettledAt(env, w, v, id);
      assert Standing(w, id) && Unclaimed(env, v, id);
      assert LostBetween(env, w, v, g);
    }
    if LostBetween(env, w, v, g) {
      var id :| id in w.ledger.listed && w.ledger.listed[id].item == g && Standing(w, id) && Unclaimed(env, v, id);
      assert SettledAt(env, w, v, id);
    }
  }

  /** Event `k` of the run settles an auction with item `g` for nobody. */
  ghost predicate LostAt(purses: map<nat, nat>, events: seq<Event>, k: nat, g: nat)
    requires k < |events|
  {
    LostBetween(events[k].env, Run(purses, events[..k]), Run(purses, events[..k + 1]), g)
  }

  /** Over every run exactly those items are destroyed whose auction some event settled for nobody. */
  lemma {:induction false} RunDestroys(purses: map<nat, nat>, events: seq<Event>, n: nat, g: nat)
    requires Playable(purses, events) && n <= |events|
    ensures g in Run(purses, events[..n]).destroyed <==> exists k :: 0 <= k < n && LostAt(purses, events, k, g)
    decreases n
  {
    hide Kept, Step, LostBetween;
    if n > 0 {
      assert events[..n][..n - 1] == events[..n - 1];
      RunDestroys(purses, events, n - 1, g);
      RunLedgers(purses, events[..n - 1]);
      StepDestroys(Run(purses, events[..n - 1]), events[n - 1], g);
      assert LostAt(purses, events, n - 1, g) <==>
        LostBetween(events[n - 1].env, Run(purses, events[..n - 1]), Run(purses, events[..n]), g);
    }
  }

  // ----- who gets the item -----

  /** The one who should have the item of a settled entry. */
  predicate Receives(w: World, id: nat, player: nat) {
    || (id in w.ledger.expired && w.ledger.expired[id].owner == player)
    || (IsWon(w, id) && WonEntry(w, id).bidder == player)
  }

  /** No item that `player` should have is destroyed. */
  ghost predicate Arrived(w: World, player: nat) {
    forall id :: id in w.ledger.listed && Receives(w, id, player) ==> w.ledger.listed[id].item !in w.destroyed
  }

  lemma StepArrived(w: World, e: Event, player: nat)
    requires Kept(w) && e.env.now >= 0 && !LateBid(w, e) && Arrived(w, player) && e.env.Exists(player)
    ensures Arrived(Step(w, e), player)
  {
    hide Items, Books, Traced, OwnersBalanced, Terms, OwnItems, Step, LateBid;
    StepSettles(w, e);
    StepLedgers(w, e);
    var v := Step(w, e);
    forall id | id in v.ledger.listed && Receives(v, id, player)
      ensures v.ledger.listed[id].item !in v.destroyed
    {
      if id in w.ledger.listed && Standing(w, id) { StandingIntact(w, id); }
      SettledArrives(e.env, w, v, id, player);
    }
  }

  lemma StandingIntact(w: World, id: nat)
    requires Items(w) && Shape(w) && id in w.ledger.listed && Standing(w, id)
    ensures w.ledger.listed[id].item !in w.destroyed
  {
    hide Terms, OneOutcome, Escrowed;
    InEscrow(w, id);
    assert Places(w, w.ledger.listed[id].item) == 1;
  }

  lemma SettledArrives(env: Env, w: World, v: World, id: nat, player: nat)
    requires Settles(env, w, v) && SameWinners(w, v) && OneOutcome(w) && OneOutcome(v)
    requires Arrived(w, player) && env.Exists(player) && id in v.ledger.listed && Receives(v, id, player)
    requires id in w.ledger.listed && Standing(w, id) ==> w.ledger.listed[id].item !in w.destroyed
    ensures v.ledger.listed[id].item !in v.destroyed
  {
    assert Outcomes(v, id) == 1;
    if id in w.ledger.listed {
      assert Outcomes(w, id) == 1 && SettledAt(env, w, v, id);
      hide OneOutcome;
      assert !Unclaimed(env, v, id);
      assert w.ledger.listed[id].item in w.destroyed ==> Standing(w, id) || Receives(w, id, player);
    }
  }

  predicate Present(events: seq<Event>, player: nat) {
    forall i :: 0 <= i < |events| ==> events[i].env.Exists(player)
  }

  lemma {:induction false} RunArrived(purses: map<nat, nat>, events: seq<Event>, player: nat)
    requires Playable(purses, events) && OnTime(purses, events) && Present(events, player)
    ensures Arrived(Run(purses, events), player)
  {
    hide Kept, Arrived, Step, LateBid;
    if events == [] {
      StartArrived(purses, player);
    } else {
      var before := events[..|events| - 1];
      forall i | 0 <= i < |before| ensures !LateBid(Run(purses, before[..i]), before[i]) {
        assert before[..i] == events[..i];
      }
      RunArrived(purses, before, player);
      RunLedgers(purses, before);
      StepArrived(Run(purses, before), events[|events| - 1], player);
    }
  }

  lemma StartArrived(purses: map<nat, nat>, player: nat)
    ensures Arrived(Start(purses), player)
  {
  }

  /** Arrival: in every run without late bids, whoever exists throughout gets what is his.  The
      item of an auction that he won, or of one of his that expired, is in one single mail, and
      that mail is addressed to him. */
  lemma ItemArrives(purses: map<nat, nat>, events: seq<Event>, id: nat, player: nat)
    requires Playable(purses, events) && OnTime(purses, events) && Present(events, player)
    requires id in Run(purses, events).ledger.listed && Receives(Run(purses, events), id, player)
    ensures var w := Run(purses, events); var g := w.ledger.listed[id].item;
      && g !in w.destroyed && MailsWith(w.mails, g) == 1
      && exists i: nat :: Delivers(w, i, id) && w.mails[i].receiver == player
  {
    RunLedgers(purses, events);
    RunWinners(purses, events);
    RunArrived(purses, events, player);
    ArrivesAt(Run(purses, events), id, player);
  }

  lemma ArrivesAt(w: World, id: nat, player: nat)
    requires Kept(w) && Winners(w) && Arrived(w, player) && id in w.ledger.listed && Receives(w, id, player)
    ensures var g := w.ledger.listed[id].item;
      && g !in w.destroyed && MailsWith(w.mails, g) == 1
      && exists i: nat :: Delivers(w, i, id) && w.mails[i].receiver == player
  {
    hide Escrowed, OnePlace, Books, Traced, OwnersBalanced, Terms, OwnItems;
    assert Outcomes(w, id) == 1;
    Closed(w, id);
    var i: nat :| Delivers(w, i, id);
    assert w.mails[i].kind == Won ==> w.mails[i].receiver == WonEntry(w, id).bidder;
  }

  /** The fate of every listed item, over every run: in escrow while the auction stands and only
      then; afterwards in a single mail, which is the winner's for a won auction and the owner's
      for an expired or cancelled one; or destroyed, exactly if some event settled the auction for
      an owner or bidder who did not exist then.  A cancelled item is never destroyed. */
  lemma ItemFate(purses: map<nat, nat>, events: seq<Event>, id: nat)
    requires Playable(purses, events) && id in Run(purses, events).ledger.listed
    ensures var w := Run(purses, events); var g := w.ledger.listed[id].item;
      && Outcomes(w, id) == 1
      && (g in w.items <==> Standing(w, id))
      && (g in w.destroyed <==> exists k :: 0 <= k < |events| && LostAt(purses, events, k, g))
      && (id in w.ledger.cancelled ==> g !in w.destroyed)
      && (g !in w.items && g !in w.destroyed ==> MailsWith(w.mails, g) == 1 && exists i: nat :: Delivers(w, i, id))
      && (g in w.items || g in w.destroyed ==> MailsWith(w.mails, g) == 0 && !(g in w.items && g in w.destroyed))
  {
    hide LostAt, Delivers, Step;
    assert events[..|events|] == events;
    var g := Run(purses, events).ledger.listed[id].item;
    RunDestroys(purses, events, |events|, g);
    ItemPlaces(purses, events, id);
    RunKeeps(purses, events);
    RunLedgers(purses, events);
    OnePlaceOf(Run(purses, events), id);
  }

  lemma OnePlaceOf(w: World, id: nat)
    requires Items(w) && Shape(w) && id in w.ledger.listed
    ensures Places(w, w.ledger.listed[id].item) == 1
  {
    hide Terms, OneOutcome, Escrowed;
  }
}
