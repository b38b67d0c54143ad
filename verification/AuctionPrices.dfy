/** Bids and money over whole runs: bids only rise, an owner's profit is exact, and a purse is
    what it was less what was charged. */
module AuctionPrices {
  import opened AuctionHouse
  import opened AuctionEscrow
  import opened AuctionSteps
  import opened AuctionLedger
  import opened AuctionRuns
  import opened AuctionSettlement

  // ----- steps that place no bid -----

  /** Entries may close, but their terms and bids stay. */
  ghost predicate QuietAt(w: World, v: World, id: nat) {
    && (id in v.auctions ==>
          id in w.auctions && SameTerms(w.auctions[id], v.auctions[id]) && v.auctions[id].bid == w.auctions[id].bid)
    && (id in v.sold && id !in w.sold ==>
          id in w.auctions && SameTerms(w.auctions[id], v.sold[id]) && v.sold[id].bid == w.auctions[id].bid)
    && (id in w.sold ==> id in v.sold && v.sold[id] == w.sold[id])
  }

  ghost predicate Quiet(w: World, v: World) {
    v.nextAuction == w.nextAuction && forall id :: QuietAt(w, v, id)
  }

  lemma QuietTwice(w: World, v: World, u: World)
    requires Quiet(w, v) && Quiet(v, u)
    ensures Quiet(w, u)
  {
    forall id ensures QuietAt(w, u, id) { assert QuietAt(w, v, id) && QuietAt(v, u, id); }
  }

  /** One entry is closed, sold, or won; the others stay. */
  lemma EntryQuiet(w: World, v: World, id: nat)
    requires id in w.auctions && id !in w.sold && v.nextAuction == w.nextAuction
    requires || (v.auctions == w.auctions - {id} && (v.sold == w.sold || v.sold == w.sold[id := w.auctions[id]]))
             || (v.sold == w.sold && id in v.auctions && v.auctions == w.auctions[id := v.auctions[id]]
                 && SameTerms(w.auctions[id], v.auctions[id]) && v.auctions[id].bid == w.auctions[id].bid)
    ensures Quiet(w, v)
  {
    forall i ensures QuietAt(w, v, i) {}
  }

  lemma UpdateOneQuiet(env: Env, w: World, id: nat)
    requires id in w.auctions && id !in w.sold
    ensures Quiet(w, UpdateOne(env, w, id))
  {
    hide Profit, Quiet;
    if UpdateOne(env, w, id) == w {
      QuietSelf(w);
    } else {
      EntryQuiet(w, UpdateOne(env, w, id), id);
    }
  }

  lemma {:induction false} UpdateBelowQuiet(env: Env, w: World, house: nat, n: nat)
    requires Items(w) && Books(w) && env.now >= 0
    ensures Quiet(w, UpdateBelow(env, w, house, n))
  {
    hide Items, Books, UpdateOne, Quiet;
    if n == 0 {
      QuietSelf(w);
    } else {
      UpdateBelowQuiet(env, w, house, n - 1);
      UpdateBelowKeeps(env, w, house, n - 1);
      var v := UpdateBelow(env, w, house, n - 1);
      if n - 1 in v.auctions {
        OpenUnsold(v, n - 1);
        UpdateOneQuiet(env, v, n - 1);
        QuietTwice(w, v, UpdateOne(env, v, n - 1));
      }
    }
  }

  lemma QuietSelf(w: World)
    ensures Quiet(w, w)
  {
    forall id ensures QuietAt(w, w, id) {}
  }

  lemma OpenUnsold(w: World, id: nat)
    requires Books(w) && id in w.auctions
    ensures id !in w.sold
  {
  }

  lemma TickQuiet(env: Env, w: World)
    requires Items(w) && Books(w) && env.now >= 0
    ensures Quiet(w, UpdateAll(env, w))
  {
    hide Items, Books, Quiet, UpdateBelow;
    var w1 := UpdateHouse(env, w, 0);
    var w2 := UpdateHouse(env, w1, 1);
    HouseKeeps(env, w, 0);
    HouseKeeps(env, w1, 1);
    UpdateBelowQuiet(env, w, 0, w.nextAuction);
    UpdateBelowQuiet(env, w1, 1, w1.nextAuction);
    UpdateBelowQuiet(env, w2, 2, w2.nextAuction);
    QuietTwice(w, w1, w2);
    QuietTwice(w, w2, UpdateAll(env, w));
  }

  lemma CancelQuiet(env: Env, w: World, player: nat, house: nat, id: nat)
    requires Books(w)
    ensures Quiet(w, Cancel(env, w, player, house, id))
  {
    hide Quiet;
    if MayCancel(w, player, house, id) {
      OpenUnsold(w, id);
      CancelRecords(env, w, player, house, id);
      EntryQuiet(w, Cancel(env, w, player, house, id), id);
    } else {
      QuietSelf(w);
    }
  }

  // ----- bids never drop -----

  /** The bot lowers the bid of auction `id`. */
  predicate BotLowers(w: World, e: Event, id: nat) {
    && e.op.BotBid? && e.op.id == id && Standing(w, id)
    && var a := w.auctions[id];
       !(e.op.buy && a.buyout != 0) && a.bid >= a.startbid && a.bid >= 2
  }

  /** In one step an entry that stays open keeps its bid or raises it, unless the bot lowers it. */
  lemma StepKeepsBid(w: World, e: Event, id: nat)
    requires Items(w) && Books(w) && e.env.now >= 0
    ensures var v := Step(w, e);
      && w.nextAuction <= v.nextAuction
      && (id in v.auctions && id < w.nextAuction ==>
            id in w.auctions && (v.auctions[id].bid < w.auctions[id].bid <==> BotLowers(w, e, id)))
  {
    hide Items, Books, UpdateBid, UpdateAll, ServerBid, Cancel, CheckBid;
    match e.op {
      case Bid(player, house, i, price) =>
        if player != 0 && price != 0 && CheckBid(e.env, w, player, house, i, price) == BidOk {
          AcceptedBid(e.env, w, player, house, i, price);
          UpdateBidEntry(e.env, w, i, price, player);
        }
      case BotBid(i, buy) => BotKeepsBid(e.env, w, i, buy, id);
      case CancelOp(player, house, i) =>
        CancelQuiet(e.env, w, player, house, i);
        QuietOpen(w, Cancel(e.env, w, player, house, i), id);
      case Tick =>
        TickQuiet(e.env, w);
        QuietOpen(w, UpdateAll(e.env, w), id);
      case _ =>
    }
  }

  lemma QuietOpen(w: World, v: World, id: nat)
    requires Quiet(w, v)
    ensures QuietAt(w, v, id)
  {
  }

  lemma BotKeepsBid(env: Env, w: World, i: nat, buy: bool, id: nat)
    requires Items(w) && Books(w) && env.now >= 0
    ensures var v := ServerBid(env, w, i, buy);
      && v.nextAuction == w.nextAuction
      && (id in v.auctions ==>
            && id in w.auctions
            && (v.auctions[id].bid < w.auctions[id].bid <==> BotLowers(w, Event(env, BotBid(i, buy)), id)))
  {
    hide Items, Books, UpdateBid;
    if Standing(w, i) {
      var a := w.auctions[i];
      UpdateBidEntry(env, w, i, if buy && a.buyout != 0 then a.buyout else BotOffer(a), 0);
      BotBidDrops(env, w, i, buy);
    }
  }

  ghost predicate KeptBetween(purses: map<nat, nat>, events: seq<Event>, i: nat, j: nat, id: nat)
    requires i <= j <= |events|
  {
    forall k :: i <= k < j ==> !BotLowers(Run(purses, events[..k]), events[k], id)
  }

  /** Between any two moments of a run at which an auction is open, its bid has not dropped,
      unless the bot lowered it in between. */
  lemma {:induction false} BidNeverDrops(purses: map<nat, nat>, events: seq<Event>, i: nat, j: nat, id: nat)
    requires Playable(purses, events) && i <= j <= |events| && KeptBetween(purses, events, i, j, id)
    requires id in Run(purses, events[..i]).auctions && id in Run(purses, events[..j]).auctions
    ensures Run(purses, events[..i]).auctions[id].bid <= Run(purses, events[..j]).auctions[id].bid
    decreases j
  {
    hide Step, Items, Books, BotLowers;
    if i < j {
      assert events[..j][..j - 1] == events[..j - 1];
      RunKeeps(purses, events[..j - 1]);
      StepKeepsBid(Run(purses, events[..j - 1]), events[j - 1], id);
      IdsGrow(purses, events, i, j - 1, id);
      BidNeverDrops(purses, events, i, j - 1, id);
    }
  }

  lemma {:induction false} IdsGrow(purses: map<nat, nat>, events: seq<Event>, i: nat, j: nat, id: nat)
    requires Playable(purses, events) && i <= j <= |events| && id in Run(purses, events[..i]).auctions
    ensures id < Run(purses, events[..j]).nextAuction
    decreases j
  {
    hide Step, Books, OnePlace, Matched;
    RunKeeps(purses, events[..i]);
    if i < j {
      hide Items;
      assert events[..j][..j - 1] == events[..j - 1];
      RunKeeps(purses, events[..j - 1]);
      StepKeepsBid(Run(purses, events[..j - 1]), events[j - 1], id);
      IdsGrow(purses, events, i, j - 1, id);
    }
  }

  // ----- bids and deposits over runs -----

  predicate NoBots(events: seq<Event>) { forall i :: 0 <= i < |events| ==> !events[i].op.BotBid? }

  /** The highest price the bot can be brought to pay. */
  function TopBid(a: Auction): nat { if a.buyout != 0 then a.buyout else a.startbid }

  predicate StartWithinBuyout(a: Auction) { a.buyout == 0 || a.buyout >= a.startbid }

  /** Purses bound deposits and bids of players; a first bid is the start bid at least. */
  predicate Priced(a: Auction, bots: bool) {
    && a.deposit <= MAX_MONEY
    && (a.bid <= MAX_MONEY || (bots && a.bid <= TopBid(a)))
    && (!bots && StartWithinBuyout(a) ==> a.bid == 0 || a.bid >= a.startbid)
  }

  ghost predicate AllPriced(w: World, bots: bool) {
    && (forall id :: id in w.auctions ==> Priced(w.auctions[id], bots))
    && (forall id :: id in w.sold ==> Priced(w.sold[id], bots))
  }

  lemma QuietPriced(w: World, v: World, bots: bool)
    requires Quiet(w, v) && AllPriced(w, bots)
    ensures AllPriced(v, bots)
  {
    forall id | id in v.auctions ensures Priced(v.auctions[id], bots) { assert QuietAt(w, v, id); }
    forall id | id in v.sold ensures Priced(v.sold[id], bots) { assert QuietAt(w, v, id); }
  }

  lemma StepPriced(w: World, e: Event, bots: bool)
    requires Items(w) && Books(w) && e.env.now >= 0 && AllPriced(w, bots) && (e.op.BotBid? ==> bots)
    ensures AllPriced(Step(w, e), bots)
  {
    hide Items, Books, UpdateBid, UpdateAll, Cancel, CheckBid;
    UnderLimit(w);
    match e.op {
      case Bid(player, house, i, price) =>
        if player != 0 && price != 0 && CheckBid(e.env, w, player, house, i, price) == BidOk {
          AcceptedBid(e.env, w, player, house, i, price);
          UpdateBidEntry(e.env, w, i, price, player);
        }
      case BotBid(i, buy) =>
        if Standing(w, i) {
          var a := w.auctions[i];
          UpdateBidEntry(e.env, w, i, if buy && a.buyout != 0 then a.buyout else BotOffer(a), 0);
        }
      case CancelOp(player, house, i) =>
        CancelQuiet(e.env, w, player, house, i);
        QuietPriced(w, Cancel(e.env, w, player, house, i), bots);
      case Tick =>
        TickQuiet(e.env, w);
        QuietPriced(w, UpdateAll(e.env, w), bots);
      case _ =>
    }
  }

  lemma {:induction false} RunPriced(purses: map<nat, nat>, events: seq<Event>, bots: bool)
    requires Playable(purses, events) && (bots || NoBots(events))
    ensures AllPriced(Run(purses, events), bots)
  {
    hide Step, Items, Books;
    if events != [] {
      RunPriced(purses, events[..|events| - 1], bots);
      RunKeeps(purses, events[..|events| - 1]);
      StepPriced(Run(purses, events[..|events| - 1]), events[|events| - 1], bots);
    }
  }

  /** Without bot bids a standing bid reaches the start bid if and only if the buyout allows it. */
  lemma BidsReachStart(purses: map<nat, nat>, events: seq<Event>, id: nat)
    requires Playable(purses, events) && NoBots(events)
    requires id in Run(purses, events).auctions && Run(purses, events).auctions[id].bid != 0
    ensures var a := Run(purses, events).auctions[id]; a.bid >= a.startbid <==> StartWithinBuyout(a)
  {
    RunPriced(purses, events, false);
    RunKeeps(purses, events);
    var w := Run(purses, events);
    hide Run, Items, PursesCapped, Balanced;
    assert SoundAuction(w.auctions[id]);
  }

  // ----- the profit of a sale -----

  /** What a bid leaves when the house has taken its cut. */
  function Net(bid: nat, cutRate: Rate): int { bid - (bid as real * cutRate).Floor }

  lemma NetMonotone(x: nat, y: nat, cutRate: Rate)
    requires x <= y
    ensures Net(x, cutRate) <= Net(y, cutRate)
  {
    assert (y as real - x as real) * cutRate <= (y as real - x as real) * 1.0;
    assert y as real * cutRate <= x as real * cutRate + (y - x) as real;
  }

  lemma ProfitWithin(a: Auction, bots: bool)
    requires Priced(a, bots) && (bots ==> Net(TopBid(a), a.cutRate) + a.deposit < UINT32_SIZE)
    ensures Profit(a) == Net(a.bid, a.cutRate) + a.deposit
  {
    assert Net(a.bid, a.cutRate) == a.bid - a.Cut();
    if a.bid > MAX_MONEY { NetMonotone(a.bid, TopBid(a), a.cutRate); }
  }

  /** Settlement of a sale: in every run without bot bids, and with bot bids whenever the highest
      price the bot may pay leaves a uint32, the owner's profit is bid and deposit less the cut:
      with the deposit he paid, the sale has brought him the bid less the cut. */
  lemma SaleSettles(purses: map<nat, nat>, events: seq<Event>, id: nat)
    requires Playable(purses, events) && id in Run(purses, events).sold
    requires var a := Run(purses, events).sold[id];
      NoBots(events) || Net(TopBid(a), a.cutRate) + a.deposit < UINT32_SIZE
    ensures var w := Run(purses, events); var a := w.sold[id];
      && Profit(a) == Net(a.bid, a.cutRate) + a.deposit
      && (a.owner != 0 ==> OwnerNet(w, id, a.owner) == Net(a.bid, a.cutRate))
  {
    var bots := !NoBots(events);
    RunPriced(purses, events, bots);
    RunLedgers(purses, events);
    var w := Run(purses, events);
    var a := w.sold[id];
    assert Outcomes(w, id) == 1 && TermsAt(w, id) by { hide Run; }
    ProfitWithin(a, bots);
    hide Profit;
    if a.owner != 0 { OwnerSettles(purses, events, id, a.owner); }
  }

  // ----- a sale to the bot that wraps -----

  /** The bot buys the one listed entry at its highest price, and time does the rest. */
  function BotRun(player: nat, startbid: nat, buyout: nat, deposit: nat, duration: nat, cutRate: Rate): seq<Event> {
    [Event(Env(0, {}, map[]), Sell(player, 0, startbid, buyout, deposit, duration, cutRate)),
     Event(Env(0, {}, map[]), BotBid(1, true)),
     Event(Env(duration + 1, {}, map[]), Tick),
     Event(Env(duration + HOUR + 2, {}, map[]), Tick)]
  }

  /** The only entry, with its terms and the bot's highest price. */
  predicate OnlyLot(w: World, a: Auction) {
    && w.nextAuction == 2 && 0 !in w.auctions
    && (1 in w.auctions ==> SameTerms(a, w.auctions[1]) && w.auctions[1].bid == TopBid(a) != 0 && a.house == 0)
    && (1 !in w.auctions ==> 1 in w.sold && SameTerms(a, w.sold[1]) && w.sold[1].bid == TopBid(a))
  }

  lemma TickOnly(env: Env, w: World, a: Auction)
    requires OnlyLot(w, a)
    ensures OnlyLot(UpdateAll(env, w), a) && (1 !in w.auctions ==> UpdateAll(env, w) == w)
    ensures 1 in w.auctions && !w.auctions[1].Active() && env.now > w.auctions[1].moneyDeliveryTime ==>
      1 in UpdateAll(env, w).sold && 1 !in UpdateAll(env, w).auctions
    ensures 1 in w.auctions && 1 in UpdateAll(env, w).auctions && env.now > a.expireTime && env.now >= 0 ==>
      !UpdateAll(env, w).auctions[1].Active()
      && UpdateAll(env, w).auctions[1].moneyDeliveryTime in {w.auctions[1].moneyDeliveryTime, env.now + HOUR}
  {
    hide UpdateAll, Profit;
    SingleTick(env, w);
  }

  /** The bot's highest price is reachable, so the condition of SaleSettles is exact: a listing
      whose highest price leaves more than a uint32 is sold by this run for too little. */
  lemma ProfitWraps(player: nat, startbid: nat, buyout: nat, deposit: nat, duration: nat, cutRate: Rate)
    requires player != 0 && 0 < startbid < UINT32_SIZE && buyout < UINT32_SIZE && deposit <= MAX_MONEY
    requires Net(if buyout != 0 then buyout else startbid, cutRate) + deposit >= UINT32_SIZE
    ensures var purses := map[player := deposit];
      var events := BotRun(player, startbid, buyout, deposit, duration, cutRate);
      var w := Run(purses, events);
      && Playable(purses, events) && 1 in w.sold && w.sold[1].bid == TopBid(w.sold[1])
      && Profit(w.sold[1]) < Net(w.sold[1].bid, cutRate) + deposit
  {
    var purses := map[player := deposit];
    var es := BotRun(player, startbid, buyout, deposit, duration, cutRate);
    var w := Run(purses, es);
    BotRunSells(player, startbid, buyout, deposit, duration, cutRate);
    hide Run;
    var a := w.sold[1];
    assert a.bid + a.deposit - a.Cut() == Net(a.bid, cutRate) + deposit;
  }

  lemma BotRunSells(player: nat, startbid: nat, buyout: nat, deposit: nat, duration: nat, cutRate: Rate)
    requires player != 0 && startbid != 0 && deposit <= MAX_MONEY
    ensures var w := Run(map[player := deposit], BotRun(player, startbid, buyout, deposit, duration, cutRate));
      var a := Auction(0, 1, player, startbid, 0, buyout, duration, 0, 0, deposit, cutRate);
      1 in w.sold && SameTerms(a, w.sold[1]) && w.sold[1].bid == TopBid(a)
  {
    var purses := map[player := deposit];
    var es := BotRun(player, startbid, buyout, deposit, duration, cutRate);
    var a := Auction(0, 1, player, startbid, 0, buyout, duration, 0, 0, deposit, cutRate);
    BotBuys(player, startbid, buyout, deposit, duration, cutRate);
    RunOfFour(purses, es[0], es[1], es[2], es[3]);
    var w2 := Step(Step(Start(purses), es[0]), es[1]);
    assert Run(purses, es) == UpdateAll(es[3].env, UpdateAll(es[2].env, w2));
    hide Step, Run, Start, TopBid;
    TwoTicks(es[2].env, es[3].env, w2, a);
  }

  lemma RunOfFour(purses: map<nat, nat>, e0: Event, e1: Event, e2: Event, e3: Event)
    ensures Run(purses, [e0, e1, e2, e3]) == Step(Step(Step(Step(Start(purses), e0), e1), e2), e3)
  {
    hide Step;
    RunPush(purses, [], e0);
    RunPush(purses, [e0], e1);
    RunPush(purses, [e0, e1], e2);
    RunPush(purses, [e0, e1, e2], e3);
    assert [] + [e0] == [e0] && [e0] + [e1] == [e0, e1] && [e0, e1] + [e2] == [e0, e1, e2];
    assert [e0, e1, e2] + [e3] == [e0, e1, e2, e3];
  }

  lemma TwoTicks(env: Env, later: Env, w: World, a: Auction)
    requires OnlyLot(w, a) && 1 in w.auctions && w.auctions[1].moneyDeliveryTime in {0, HOUR}
    requires env.now > a.expireTime && env.now >= 0 && later.now > env.now + HOUR
    ensures var v := UpdateAll(later, UpdateAll(env, w));
      1 in v.sold && SameTerms(a, v.sold[1]) && v.sold[1].bid == TopBid(a)
  {
    hide UpdateAll, SameTerms, TopBid;
    TickOnly(env, w, a);
    TickOnly(later, UpdateAll(env, w), a);
  }

  lemma BotBuys(player: nat, startbid: nat, buyout: nat, deposit: nat, duration: nat, cutRate: Rate)
    requires player != 0 && startbid != 0 && deposit <= MAX_MONEY
    ensures var es := BotRun(player, startbid, buyout, deposit, duration, cutRate);
      var a := Auction(0, 1, player, startbid, 0, buyout, duration, 0, 0, deposit, cutRate);
      var w := Step(Step(Start(map[player := deposit]), es[0]), es[1]);
      OnlyLot(w, a) && 1 in w.auctions && w.auctions[1].moneyDeliveryTime in {0, HOUR}
  {
    var es := BotRun(player, startbid, buyout, deposit, duration, cutRate);
    var a := Auction(0, 1, player, startbid, 0, buyout, duration, 0, 0, deposit, cutRate);
    assert Step(Start(map[player := deposit]), es[0]).auctions == map[1 := a];
  }

  // ----- purses -----

  function Paid(charges: seq<Charge>, player: nat): int {
    if charges == [] then 0
    else
      var c := charges[|charges| - 1];
      Paid(charges[..|charges| - 1], player) + if c.player == player then c.amount else 0
  }

  lemma PaidAppend(charges: seq<Charge>, c: Charge)
    ensures forall p :: Paid(charges + [c], p) == Paid(charges, p) + (if c.player == p then c.amount else 0)
  {
    assert (charges + [c])[..|charges|] == charges;
  }

  /** Purse and payments of `p` together. */
  function Wealth(w: World, p: nat): int { Purse(w, p) + Paid(w.charges, p) + Paid(w.ledger.fees, p) }

  ghost predicate SameWealth(w: World, v: World) { forall p :: p != 0 ==> Wealth(v, p) == Wealth(w, p) }

  lemma PayWealth(w: World, player: nat, amount: int)
    requires 0 <= amount <= Purse(w, player) <= MAX_MONEY
    ensures var v := Pay(w, player, amount);
      forall p :: Wealth(v, p) == Wealth(w, p) - if p == player then amount else 0
  {
    assert ModifyMoney(Purse(w, player), -amount) == Purse(w, player) - amount;
  }

  lemma PayBidWealth(w: World, player: nat, amount: int, id: nat)
    requires 0 <= amount <= Purse(w, player) <= MAX_MONEY
    ensures SameWealth(w, PayBid(w, player, amount, id))
  {
    PayWealth(w, player, amount);
    PaidAppend(w.charges, Charge(player, id, amount));
    hide Pay, Purse, Paid;
    var u, v := Pay(w, player, amount), PayBid(w, player, amount, id);
    assert v.purses == u.purses && u.charges == w.charges;
    forall p | p != 0 ensures Wealth(v, p) == Wealth(w, p) { PursesOnly(u, v, p); }
  }

  lemma PursesOnly(w: World, v: World, p: nat)
    requires v.purses == w.purses
    ensures Purse(v, p) == Purse(w, p)
  {
  }

  lemma AddWealth(env: Env, w: World, house: nat, owner: nat, startbid: nat, buyout: nat, deposit: nat, duration: nat,
                  cutRate: Rate)
    requires owner != 0 ==> deposit <= Purse(w, owner) <= MAX_MONEY
    ensures SameWealth(w, AddAuction(env, w, house, owner, startbid, buyout, deposit, duration, cutRate))
  {
    PaidAppend(w.ledger.fees, Charge(owner, w.nextAuction, deposit));
    var v := AddAuction(env, w, house, owner, startbid, buyout, deposit, duration, cutRate);
    if owner != 0 { PayWealth(w, owner, deposit); }
    var u := if owner != 0 then Pay(w, owner, deposit) else w;
    assert v.purses == u.purses && v.charges == w.charges;
    hide Pay, Purse, Paid;
    forall p | p != 0 ensures Wealth(v, p) == Wealth(w, p) { PursesOnly(u, v, p); }
  }

  lemma TakeBidWealth(env: Env, w: World, id: nat, amount: nat, bidder: nat)
    requires id in w.auctions
    requires bidder != 0 ==> amount <= Purse(w, bidder) <= MAX_MONEY
    requires bidder != 0 && bidder == w.auctions[id].bidder ==> w.auctions[id].bid <= amount
    ensures SameWealth(w, TakeBid(env, w, id, amount, bidder))
  {
    var paid := if bidder == w.auctions[id].bidder then amount - w.auctions[id].bid else amount;
    if bidder != 0 { PayBidWealth(w, bidder, paid, id); }
    var u := if bidder != 0 then PayBid(w, bidder, paid, id) else w;
    var v := TakeBid(env, w, id, amount, bidder);
    assert v.purses == u.purses && v.charges == u.charges && v.ledger == u.ledger;
    hide TakeBid, PayBid, Purse, Paid;
    forall p | p != 0 ensures Wealth(v, p) == Wealth(u, p) { PursesOnly(u, v, p); }
  }

  lemma UpdateBidWealth(env: Env, w: World, id: nat, newbid: nat, bidder: nat)
    requires id in w.auctions
    requires bidder != 0 ==> Capped(w.auctions[id], newbid) <= Purse(w, bidder) <= MAX_MONEY
    requires bidder != 0 && bidder == w.auctions[id].bidder ==> w.auctions[id].bid <= Capped(w.auctions[id], newbid)
    ensures SameWealth(w, UpdateBid(env, w, id, newbid, bidder))
  {
    var amount := Capped(w.auctions[id], newbid);
    TakeBidWealth(env, w, id, amount, bidder);
    hide TakeBid;
    var v := EnterBid(env, w, id, amount, bidder);
    var u := UpdateBid(env, w, id, newbid, bidder);
    assert u.purses == v.purses && u.charges == v.charges && u.ledger == v.ledger;
  }

  /** What a cancellation does to the owner's purse and to the fees. */
  lemma CancelPurses(env: Env, w: World, player: nat, house: nat, id: nat)
    requires MayCancel(w, player, house, id)
    ensures var a := w.auctions[id]; var v := Cancel(env, w, player, house, id);
      && v.purses == (if a.bid != 0 then Pay(w, player, a.Cut()).purses else w.purses) && v.charges == w.charges
      && v.ledger.fees == if a.bid != 0 then w.ledger.fees + [Charge(player, id, a.Cut())] else w.ledger.fees
  {
  }

  lemma CancelWealth(env: Env, w: World, player: nat, house: nat, id: nat)
    requires Purse(w, player) <= MAX_MONEY
    ensures SameWealth(w, Cancel(env, w, player, house, id))
  {
    if MayCancel(w, player, house, id) {
      CancelPurses(env, w, player, house, id);
      var a := w.auctions[id];
      var u := if a.bid != 0 then Pay(w, player, a.Cut()) else w;
      if a.bid != 0 { PayWealth(w, player, a.Cut()); }
      PaidAppend(w.ledger.fees, Charge(player, id, a.Cut()));
      var v := Cancel(env, w, player, house, id);
      hide Cancel, Pay, Purse, Paid;
      forall p | p != 0 ensures Wealth(v, p) == Wealth(w, p) { PursesOnly(u, v, p); }
    }
  }

  lemma {:induction false} UpdateBelowWealth(env: Env, w: World, house: nat, n: nat)
    ensures SameWealth(w, UpdateBelow(env, w, house, n))
  {
    hide SameWealth, UpdateOne;
    if n == 0 {
      WealthTwice(w, w, w);
    } else {
      UpdateBelowWealth(env, w, house, n - 1);
      var v := UpdateBelow(env, w, house, n - 1);
      if n - 1 in v.auctions {
        UpdateOneWealth(env, v, n - 1);
        WealthTwice(w, v, UpdateOne(env, v, n - 1));
      }
    }
  }

  lemma WealthTwice(w: World, v: World, u: World)
    ensures SameWealth(w, w) && (SameWealth(w, v) && SameWealth(v, u) ==> SameWealth(w, u))
  {
  }

  lemma UpdateOneWealth(env: Env, w: World, id: nat)
    requires id in w.auctions
    ensures SameWealth(w, UpdateOne(env, w, id))
  {
    hide Profit;
    var v := UpdateOne(env, w, id);
    assert v.purses == w.purses && v.charges == w.charges && v.ledger.fees == w.ledger.fees;
  }

  lemma StepWealth(w: World, e: Event)
    requires Books(w)
    ensures SameWealth(w, Step(w, e))
  {
    UnderLimit(w);
    hide SameWealth, Books, AddAuction, UpdateBid, Cancel, UpdateBelow, CheckBid;
    WealthTwice(w, w, w);
    match e.op {
      case Sell(player, house, startbid, buyout, deposit, duration, cutRate) =>
        if player != 0 && Purse(w, player) >= deposit {
          AddWealth(e.env, w, house, player, startbid, buyout, deposit, duration, cutRate);
        }
      case ServerSell(house, startbid, buyout, duration, cutRate) =>
        AddWealth(e.env, w, house, 0, startbid, buyout, 0, duration, cutRate);
      case Bid(player, house, id, price) =>
        if player != 0 && price != 0 && CheckBid(e.env, w, player, house, id, price) == BidOk {
          AcceptedBid(e.env, w, player, house, id, price);
          UpdateBidWealth(e.env, w, id, price, player);
        }
      case BotBid(id, buy) =>
        if Standing(w, id) {
          var a := w.auctions[id];
          UpdateBidWealth(e.env, w, id, if buy && a.buyout != 0 then a.buyout else BotOffer(a), 0);
        }
      case CancelOp(player, house, id) => CancelWealth(e.env, w, player, house, id);
      case Tick =>
        var w1 := UpdateHouse(e.env, w, 0);
        var w2 := UpdateHouse(e.env, w1, 1);
        UpdateBelowWealth(e.env, w, 0, w.nextAuction);
        UpdateBelowWealth(e.env, w1, 1, w1.nextAuction);
        UpdateBelowWealth(e.env, w2, 2, w2.nextAuction);
        WealthTwice(w, w1, w2);
        WealthTwice(w, w2, UpdateHouse(e.env, w2, 2));
    }
  }

  /** The charges are real: over every run a purse is what it was at the start less all that its
      player was charged for bids, deposits and cuts; no payment was cut short. */
  lemma {:induction false} PursesExact(purses: map<nat, nat>, events: seq<Event>, player: nat)
    requires Playable(purses, events) && player != 0
    ensures var w := Run(purses, events);
      Purse(w, player) == Purse(Start(purses), player) - Paid(w.charges, player) - Paid(w.ledger.fees, player)
  {
    hide Step, Items, Books;
    if events != [] {
      PursesExact(purses, events[..|events| - 1], player);
      RunKeeps(purses, events[..|events| - 1]);
      var w := Run(purses, events[..|events| - 1]);
      StepWealth(w, events[|events| - 1]);
      assert Wealth(Step(w, events[|events| - 1]), player) == Wealth(w, player);
    }
  }
}
