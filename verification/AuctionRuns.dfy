/** Whole runs of the auction house, and what a single bid or settlement does. */
module AuctionRuns {
  import opened MapSum
  import opened AuctionHouse
  import opened AuctionMoney
  import opened AuctionEscrow
  import opened AuctionSteps
  import opened AuctionLedger

  datatype Op =
    | Sell(player: nat, house: nat, startbid: nat, buyout: nat, deposit: nat, duration: nat, cutRate: Rate)
    | ServerSell(house: nat, startbid: nat, buyout: nat, duration: nat, cutRate: Rate)
    | Bid(player: nat, house: nat, id: nat, price: nat)
    | BotBid(id: nat, buy: bool)
    | CancelOp(player: nat, house: nat, id: nat)
    | Tick

  datatype Event = Event(env: Env, op: Op)

  function Step(w: World, e: Event): World {
    match e.op
    case Sell(player, house, startbid, buyout, deposit, duration, cutRate) =>
      if player == 0 || startbid == 0 || Purse(w, player) < deposit then w
      else AddAuction(e.env, w, house, player, startbid, buyout, deposit, duration, cutRate)
    case ServerSell(house, startbid, buyout, duration, cutRate) =>
      AddAuction(e.env, w, house, 0, startbid, buyout, 0, duration, cutRate)
    case Bid(player, house, id, price) => if player == 0 then w else PlaceBid(e.env, w, player, house, id, price)
    case BotBid(id, buy) => ServerBid(e.env, w, id, buy)
    case CancelOp(player, house, id) => if player == 0 then w else Cancel(e.env, w, player, house, id)
    case Tick => UpdateAll(e.env, w)
  }

  /** An auction house that has just opened; players own what they own. */
  function Start(purses: map<nat, nat>): World {
    World(map[], {}, purses, [], {}, 0, 0, 1, 1, [], [], map[], NO_ENTRIES)
  }

  function Run(purses: map<nat, nat>, events: seq<Event>): World {
    if events == [] then Start(purses)
    else Step(Run(purses, events[..|events| - 1]), events[|events| - 1])
  }

  /** Purses within the limit at the start, and a clock that never shows a negative time. */
  ghost predicate Playable(purses: map<nat, nat>, events: seq<Event>) {
    && (forall p :: p in purses ==> purses[p] <= MAX_MONEY)
    && (forall i :: 0 <= i < |events| ==> events[i].env.now >= 0)
  }

  // ----- one player bid -----

  /** What an accepted bid means, without any wrap-around: the sums involved fit because the
      price is covered by a purse. */
  lemma AcceptedBid(env: Env, w: World, player: nat, house: nat, id: nat, price: nat)
    requires Books(w) && price != 0 && player != 0 && CheckBid(env, w, player, house, id, price) == BidOk
    ensures id in w.auctions
    ensures var a := w.auctions[id];
      && a.house == house && a.owner != player && a.startbid <= price <= Purse(w, player) <= MAX_MONEY
      && a.bid < price && a.bid <= Capped(a, price)
      && (a.buyout == 0 || price < a.buyout ==> price >= a.bid + a.OutBid())
  {
    assert SoundAuction(w.auctions[id]);
  }

  /** Bid discipline: an accepted bid on an active auction either raises the bid by at least
      the outbid step and stays below the buyout, or buys the item out. */
  lemma BidDiscipline(env: Env, w: World, player: nat, house: nat, id: nat, price: nat)
    requires Items(w) && Books(w) && env.now >= 0 && price != 0 && player != 0
    requires CheckBid(env, w, player, house, id, price) == BidOk && w.auctions[id].Active()
    ensures var a := w.auctions[id]; var v := PlaceBid(env, w, player, house, id, price);
      && id in v.auctions && v.auctions[id].bidder == player && v.auctions[id].bid == Capped(a, price) > a.bid
      && (v.auctions[id].Active() ==>
          v.auctions[id].bid >= a.bid + a.OutBid() && (a.buyout != 0 ==> v.auctions[id].bid < a.buyout))
      && (!v.auctions[id].Active() ==> v.auctions[id].bid == a.buyout && v.auctions[id].item == 0)
      && (v.auctions[id].bid >= a.startbid <==> a.buyout == 0 || a.buyout >= a.startbid)
      && Purse(v, player) == Purse(w, player) - (Capped(a, price) - if a.bidder == player then a.bid else 0)
  {
    AcceptedBid(env, w, player, house, id, price);
    var a := w.auctions[id];
    var amount := Capped(a, price);
    assert SoundAuction(a);
    EnterBidItems(env, w, id, amount, player);
    TakeBidEffect(env, w, id, amount, player);
    PaidInFull(env, w, id, amount, player);
    hide TakeBid, SamePlaces, Balanced, OnePlace, AuctionBidWinning;
    var v := EnterBid(env, w, id, amount, player);
    if !(amount < a.buyout || a.buyout == 0) { WinEffect(env, v, id); }
  }

  lemma PaidInFull(env: Env, w: World, id: nat, amount: nat, bidder: nat)
    requires id in w.auctions && bidder != 0 && amount <= Purse(w, bidder) <= MAX_MONEY
    requires bidder == w.auctions[id].bidder ==> w.auctions[id].bid <= amount
    ensures Purse(TakeBid(env, w, id, amount, bidder), bidder)
         == Purse(w, bidder) - (amount - if w.auctions[id].bidder == bidder then w.auctions[id].bid else 0)
  {
  }

  /** What a bid on any auction leaves: the entry with the capped price, all else unchanged. */
  lemma UpdateBidEntry(env: Env, w: World, id: nat, newbid: nat, bidder: nat)
    requires id in w.auctions && Items(w) && env.now >= 0
    ensures var a := w.auctions[id]; var v := UpdateBid(env, w, id, newbid, bidder);
      && id in v.auctions && v.auctions == w.auctions[id := v.auctions[id]] && v.sold == w.sold
      && v.nextAuction == w.nextAuction
      && SameTerms(a, v.auctions[id]) && v.auctions[id].bid == Capped(a, newbid) && v.auctions[id].bidder == bidder
      && (v.auctions[id].Active() ==> a.Active() && v.auctions[id].item == a.item)
  {
    hide TakeBid, AuctionBidWinning, Items, Escrowed;
    var a := w.auctions[id];
    var amount := Capped(a, newbid);
    TakeBidRecords(env, w, id, amount, bidder);
    if !(amount < a.buyout || a.buyout == 0) {
      EnterBidItems(env, w, id, amount, bidder);
      var v := EnterBid(env, w, id, amount, bidder);
      ItemsEscrowed(v);
      WinRecords(env, v, id);
    }
  }

  /** The bot offers the outbid step itself, not the bid plus the step: unless it buys out, its
      offer lowers the bid exactly when there is a regular bid of at least 2. */
  lemma BotBidDrops(env: Env, w: World, id: nat, buy: bool)
    requires Items(w) && Books(w) && env.now >= 0 && id in w.auctions && w.auctions[id].Active()
    ensures var a := w.auctions[id]; var v := ServerBid(env, w, id, buy);
      && id in v.auctions
      && (v.auctions[id].bid < a.bid <==> !(buy && a.buyout != 0) && a.bid >= a.startbid && a.bid >= 2)
  {
    var a := w.auctions[id];
    assert SoundAuction(a);
    hide Items, Books, UpdateBid;
    UpdateBidEntry(env, w, id, if buy && a.buyout != 0 then a.buyout else BotOffer(a), 0);
  }

  // ----- runs -----

  lemma SellKeeps(w: World, e: Event)
    requires Items(w) && Books(w) && (e.op.Sell? || e.op.ServerSell?)
    ensures var v := Step(w, e); Items(v) && Books(v) && Total(v) == Total(w)
  {
    hide Items, Books, Total, AddAuction;
    UnderLimit(w);
    match e.op {
      case Sell(player, house, startbid, buyout, deposit, duration, cutRate) =>
        AddItems(e.env, w, house, player, startbid, buyout, deposit, duration, cutRate);
        AddBooks(e.env, w, house, player, startbid, buyout, deposit, duration, cutRate);
        if player != 0 && startbid != 0 && Purse(w, player) >= deposit {
          AddAuctionTotal(e.env, w, house, player, startbid, buyout, deposit, duration, cutRate);
        }
      case ServerSell(house, startbid, buyout, duration, cutRate) =>
        AddItems(e.env, w, house, 0, startbid, buyout, 0, duration, cutRate);
        AddBooks(e.env, w, house, 0, startbid, buyout, 0, duration, cutRate);
        AddAuctionTotal(e.env, w, house, 0, startbid, buyout, 0, duration, cutRate);
    }
  }

  lemma UnderLimit(w: World)
    requires Books(w)
    ensures forall p :: Purse(w, p) <= MAX_MONEY
  {
  }

  lemma BidKeeps(w: World, e: Event)
    requires Items(w) && Books(w) && e.env.now >= 0 && (e.op.Bid? || e.op.BotBid?)
    ensures var v := Step(w, e); Items(v) && Books(v) && Total(v) == Total(w)
  {
    hide Items, Books, Total, UpdateBid;
    match e.op {
      case Bid(player, house, id, price) =>
        if player != 0 && price != 0 && CheckBid(e.env, w, player, house, id, price) == BidOk {
          AcceptedBid(e.env, w, player, house, id, price);
          UpdateBidKeeps(e.env, w, id, price, player);
          UpdateBidTotal(e.env, w, id, price, player);
        }
      case BotBid(id, buy) =>
        if id in w.auctions && w.auctions[id].Active() {
          var a := w.auctions[id];
          var price := if buy && a.buyout != 0 then a.buyout else BotOffer(a);
          UpdateBidKeeps(e.env, w, id, price, 0);
          UpdateBidTotal(e.env, w, id, price, 0);
        }
    }
  }

  lemma {:induction false} UpdateBelowTotal(env: Env, w: World, house: nat, n: nat)
    ensures Total(UpdateBelow(env, w, house, n)) == Total(w)
  {
    hide Total, UpdateOne;
    if n > 0 {
      UpdateBelowTotal(env, w, house, n - 1);
      var v := UpdateBelow(env, w, house, n - 1);
      if n - 1 in v.auctions { UpdateOneTotal(env, v, n - 1); }
    }
  }

  lemma HouseKeeps(env: Env, w: World, house: nat)
    requires Items(w) && Books(w) && env.now >= 0
    ensures var v := UpdateHouse(env, w, house); Items(v) && Books(v) && Total(v) == Total(w)
  {
    hide Items, Books, Total, UpdateBelow;
    UpdateBelowKeeps(env, w, house, w.nextAuction);
    UpdateBelowTotal(env, w, house, w.nextAuction);
  }

  lemma StepKeeps(w: World, e: Event)
    requires Items(w) && Books(w) && e.env.now >= 0
    ensures var v := Step(w, e); Items(v) && Books(v) && Total(v) == Total(w)
  {
    hide Items, Books, Total, AddAuction, PlaceBid, ServerBid, Cancel, UpdateHouse;
    match e.op {
      case Sell(_, _, _, _, _, _, _) => SellKeeps(w, e);
      case ServerSell(_, _, _, _, _) => SellKeeps(w, e);
      case Bid(_, _, _, _) => BidKeeps(w, e);
      case BotBid(_, _) => BidKeeps(w, e);
      case CancelOp(player, house, id) =>
        UnderLimit(w);
        CancelKeeps(e.env, w, player, house, id);
        CancelTotal(e.env, w, player, house, id);
      case Tick =>
        HouseKeeps(e.env, w, 0);
        HouseKeeps(e.env, UpdateHouse(e.env, w, 0), 1);
        HouseKeeps(e.env, UpdateHouse(e.env, UpdateHouse(e.env, w, 0), 1), 2);
    }
  }

  lemma StartKeeps(purses: map<nat, nat>)
    requires forall p :: p in purses ==> purses[p] <= MAX_MONEY
    ensures Items(Start(purses)) && Books(Start(purses)) && Total(Start(purses)) == Sum(AsInts(purses))
  {
    assert Held(map[]) == map[];
    assert AsInts(Start(purses).purses) == AsInts(purses);
  }

  /** Over every run, in three houses at once: items match auctions and are in one place each,
      bids are sound, every bidder's account is his stake, and the money total never changes. */
  lemma {:induction false} RunKeeps(purses: map<nat, nat>, events: seq<Event>)
    requires Playable(purses, events)
    ensures var w := Run(purses, events); Items(w) && Books(w) && Total(w) == Sum(AsInts(purses))
  {
    hide Items, Books, Total, Step, Start;
    if events == [] {
      StartKeeps(purses);
    } else {
      RunKeeps(purses, events[..|events| - 1]);
      StepKeeps(Run(purses, events[..|events| - 1]), events[|events| - 1]);
    }
  }

  /** Winners, losers and asserts: after any run an outbid bidder whose refunds all arrived has
      paid nothing, a standing or winning one exactly his bid; no pending auction holds an item;
      and the next item to be sold is not in escrow already. */
  lemma RunSettles(purses: map<nat, nat>, events: seq<Event>, id: nat, player: nat)
    requires Playable(purses, events)
    requires player != 0
    ensures var w := Run(purses, events);
      && ((forall i :: 0 <= i < |w.lost| ==> w.lost[i].player != player) ==>
            Charged(w.charges, id, player) - Refunded(w.mails, id, player) == Stake(w, id, player))
      && (id in w.auctions && !w.auctions[id].Active() ==> w.auctions[id].item == 0)
      && w.nextItem !in w.items
  {
    RunKeeps(purses, events);
    var w := Run(purses, events);
    assert Owed(w, id, player) == Stake(w, id, player);
    if forall i :: 0 <= i < |w.lost| ==> w.lost[i].player != player { NothingLost(w.lost, id, player); }
  }

  lemma {:induction false} NothingLost(lost: seq<Charge>, id: nat, player: nat)
    requires forall i :: 0 <= i < |lost| ==> lost[i].player != player
    ensures Charged(lost, id, player) == 0
  {
    if lost != [] { NothingLost(lost[..|lost| - 1], id, player); }
  }
}
