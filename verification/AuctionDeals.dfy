/** Who gets a deal and on what terms: the bids and cancellations that are accepted, and what they
    leave in the books, the purses and the mail. */
module AuctionDeals {
  import opened AuctionHouse
  import opened AuctionEscrow
  import opened AuctionSteps
  import opened AuctionLedger
  import opened AuctionRuns
  import opened AuctionSettlement
  import opened AuctionPrices
  import opened AuctionTicks

  // ----- bids -----

  /** The smallest raise: 5 for every full 100, and at least 1. */
  function Raise(bid: nat): nat { if bid < 100 then 1 else bid / 100 * 5 }

  /** The account of a character; 0, as for nobody, if there is none. */
  function AccountOf(env: Env, player: nat): nat {
    if player == 0 || player !in env.accounts then 0 else env.accounts[player]
  }

  /** A bid that should be accepted: on somebody else's auction of that house, covered, at least
      the start bid, and a proper raise or a buyout. */
  predicate Acceptable(env: Env, w: World, player: nat, house: nat, id: nat, price: nat) {
    && id in w.auctions
    && var a := w.auctions[id];
       && a.house == house && a.owner != player
       && (a.owner in env.online || AccountOf(env, a.owner) != AccountOf(env, player))
       && a.startbid <= price <= Purse(w, player) && a.bid < price
       && (price >= a.bid + Raise(a.bid) || (a.buyout != 0 && price >= a.buyout))
  }

  /** The checks accept exactly the acceptable bids, wrap-around or not. */
  lemma AcceptedIff(env: Env, w: World, player: nat, house: nat, id: nat, price: nat)
    requires Books(w)
    ensures CheckBid(env, w, player, house, id, price) == BidOk <==> Acceptable(env, w, player, house, id, price)
  {
    UnderLimit(w);
    if id in w.auctions { RaiseIsOutBid(w.auctions[id]); }
    hide Books, Raise;
  }

  lemma RaiseIsOutBid(a: Auction)
    ensures a.OutBid() == Raise(a.bid) <= a.bid + 1
  {
  }

  /** A mail if its receiver is online or has an account. */
  function MailTo(env: Env, m: Mail): seq<Mail> {
    if m.receiver != 0 && (m.receiver in env.online || AccountOf(env, m.receiver) != 0) then [m] else []
  }

  /** An acceptable bid on a standing auction: the entry has bidder and price, capped at the
      buyout; the old bidder gets all of his bid back; the difference leaves the purse; and a
      buyout sends the item at once.  Any other bid on it changes nothing. */
  lemma BidExact(env: Env, w: World, player: nat, house: nat, id: nat, price: nat)
    requires Items(w) && Books(w) && env.now >= 0 && Standing(w, id)
    ensures var a := w.auctions[id]; var v := Step(w, Event(env, Bid(player, house, id, price)));
      if player == 0 || price == 0 || !Acceptable(env, w, player, house, id, price) then v == w
      else
        var bought := a.buyout != 0 && price >= a.buyout;
        var amount := if bought then a.buyout else price;
        var refund :=
          if a.bidder != 0 && a.bidder != player then MailTo(env, Mail(a.bidder, a.bid, 0, id, Outbidded)) else [];
        var lot := if bought then MailTo(env, Mail(player, 0, a.item, id, Won)) else [];
        && id in v.auctions && v.auctions[id].bidder == player && v.auctions[id].bid == amount
        && v.auctions[id].moneyDeliveryTime == (if bought then env.now + 3600 else 0)
        && v.mails == w.mails + refund + lot
        && Purse(v, player) == Purse(w, player) - (if a.bidder == player then amount - a.bid else amount)
  {
    AcceptedIff(env, w, player, house, id, price);
    hide Acceptable, Books, Items;
    if player != 0 && price != 0 && CheckBid(env, w, player, house, id, price) == BidOk {
      AcceptedBid(env, w, player, house, id, price);
      hide CheckBid;
      AcceptedBidExact(env, w, player, house, id, price);
    }
  }

  lemma AcceptedBidExact(env: Env, w: World, player: nat, house: nat, id: nat, price: nat)
    requires Items(w) && Books(w) && env.now >= 0 && Standing(w, id) && player != 0
    requires var a := w.auctions[id]; a.bid < price && a.owner != player && price <= Purse(w, player) <= MAX_MONEY
    ensures var a := w.auctions[id]; var v := UpdateBid(env, w, id, price, player);
      var bought := a.buyout != 0 && price >= a.buyout;
      var amount := if bought then a.buyout else price;
      var refund :=
        if a.bidder != 0 && a.bidder != player then MailTo(env, Mail(a.bidder, a.bid, 0, id, Outbidded)) else [];
      var lot := if bought then MailTo(env, Mail(player, 0, a.item, id, Won)) else [];
      && id in v.auctions && v.auctions[id].bidder == player && v.auctions[id].bid == amount
      && v.auctions[id].moneyDeliveryTime == (if bought then env.now + 3600 else 0)
      && v.mails == w.mails + refund + lot
      && Purse(v, player) == Purse(w, player) - (if a.bidder == player then amount - a.bid else amount)
  {
    var a := w.auctions[id];
    var amount := Capped(a, price);
    assert SoundAuction(a);
    hide Books;
    BidTaken(env, w, id, amount, player);
    EnterBidItems(env, w, id, amount, player);
    TakeBidRecords(env, w, id, amount, player);
    PaidInFull(env, w, id, amount, player);
    hide TakeBid, Items, AuctionBidWinning;
    var v := EnterBid(env, w, id, amount, player);
    ItemsEscrowed(v);
    if a.buyout != 0 && price >= a.buyout { WinExact(env, v, id); }
  }

  /** The mail that taking a bid sends. */
  lemma BidTaken(env: Env, w: World, id: nat, amount: nat, bidder: nat)
    requires id in w.auctions && bidder != 0
    ensures var a := w.auctions[id];
      TakeBid(env, w, id, amount, bidder).mails == w.mails +
        if a.bidder != 0 && a.bidder != bidder then MailTo(env, Mail(a.bidder, a.bid, 0, id, Outbidded)) else []
  {
    assert w.mails + [] == w.mails;
  }

  lemma WinExact(env: Env, w: World, id: nat)
    requires id in w.auctions && Escrowed(w) && w.auctions[id].Active()
    ensures var a := w.auctions[id]; var v := AuctionBidWinning(env, w, id);
      && v.mails == w.mails + MailTo(env, Mail(a.bidder, 0, a.item, id, Won)) && v.purses == w.purses
      && v.auctions == w.auctions[id := a.(moneyDeliveryTime := env.now + 3600, item := 0)]
  {
    assert HoldsItem(w, w.auctions[id]);
    assert w.mails + [] == w.mails;
    WinEffect(env, w, id);
    hide Escrowed;
  }

  // ----- the bot -----

  /** The bot on a standing auction: a buyout if it wants one and there is one, else a single step,
      or the start bid where no bid reaches that, and never more than the buyout. */
  lemma BotBidExact(env: Env, w: World, id: nat, buy: bool)
    requires Items(w) && env.now >= 0 && Standing(w, id)
    ensures var a := w.auctions[id]; var v := Step(w, Event(env, BotBid(id, buy)));
      var offer := if buy && a.buyout != 0 then a.buyout else if a.bid >= a.startbid then Raise(a.bid) else a.startbid;
      && id in v.auctions && v.auctions[id].bidder == 0
      && v.auctions[id].bid == if a.buyout != 0 && offer > a.buyout then a.buyout else offer
  {
    hide Items, UpdateBid;
    RaiseIsOutBid(w.auctions[id]);
    var a := w.auctions[id];
    UpdateBidEntry(env, w, id, if buy && a.buyout != 0 then a.buyout else BotOffer(a), 0);
  }

  // ----- sales -----

  /** A sale lists the next item under the next id with the seller's terms, ends after its
      duration, and takes the deposit; without start bid or money for the deposit it is refused. */
  lemma SaleExact(env: Env, w: World, player: nat, house: nat, startbid: nat, buyout: nat, deposit: nat, duration: nat,
                  cutRate: Rate)
    requires Items(w) && Books(w) && player != 0
    ensures var v := Step(w, Event(env, Sell(player, house, startbid, buyout, deposit, duration, cutRate)));
      var id := w.nextAuction;
      if startbid == 0 || deposit > Purse(w, player) then v == w
      else
        && id !in w.auctions && v.auctions.Keys == w.auctions.Keys + {id} && w.nextItem in v.items
        && (forall i :: i in w.auctions ==> v.auctions[i] == w.auctions[i])
        && v.auctions[id]
           == Auction(house, w.nextItem, player, startbid, 0, buyout, env.now + duration, 0, 0, deposit, cutRate)
        && Purse(v, player) == Purse(w, player) - deposit && v.mails == w.mails
  {
    UnderLimit(w);
    AddItems(env, w, house, player, startbid, buyout, deposit, duration, cutRate);
    hide Books, Items;
  }

  /** What the terms of a sale mean: as long as nobody has bid, another player may bid the start
      bid or more, and at the end of the duration, and not before, the item goes home. */
  lemma SaleTerms(env: Env, w: World, player: nat, house: nat, startbid: nat, buyout: nat, deposit: nat, duration: nat,
                  cutRate: Rate, later: Env, bidder: nat, price: nat)
    requires Items(w) && Books(w) && player != 0 && 0 < startbid && deposit <= Purse(w, player) && house < 3
    requires bidder != player && player in later.online && price > 0
    ensures var v := Step(w, Event(env, Sell(player, house, startbid, buyout, deposit, duration, cutRate)));
      var id := w.nextAuction;
      && (CheckBid(later, v, bidder, house, id, price) == BidOk <==> startbid <= price <= Purse(v, bidder))
      && (if later.now > env.now + duration then HasExpired(v, UpdateAll(later, v), id)
          else Agree(v, UpdateAll(later, v), id))
  {
    var e := Event(env, Sell(player, house, startbid, buyout, deposit, duration, cutRate));
    var v := Step(w, e);
    SaleExact(env, w, player, house, startbid, buyout, deposit, duration, cutRate);
    SellKeeps(w, e);
    NextIsNew(w, v);
    hide Step, Items, Books, UpdateAll, CheckBid;
    AcceptedIff(later, v, bidder, house, w.nextAuction, price);
    OpenIdsBelow(v, w.nextAuction);
    TickExact(later, v, w.nextAuction);
  }

  lemma NextIsNew(w: World, v: World)
    requires Items(w) && v.auctions.Keys == w.auctions.Keys + {w.nextAuction}
    ensures w.nextAuction in v.auctions && w.nextAuction !in w.auctions
  {
    assert w.nextAuction in v.auctions.Keys;
  }

  // ----- cancellations -----

  /** The cut of a bid in exact arithmetic. */
  function CutOf(a: Auction): int { (a.bid as real * a.cutRate).Floor }

  /** An owner may cancel his standing auction if he can pay the cut of its bid.  The bidder, if
      there is one, gets his bid back, the owner pays the cut and gets the item, and the auction is
      gone; any other cancellation changes nothing. */
  lemma CancelExact(env: Env, w: World, player: nat, house: nat, id: nat)
    requires Items(w) && Books(w) && player != 0
    ensures var v := Step(w, Event(env, CancelOp(player, house, id)));
      if !Standing(w, id) || w.auctions[id].house != house || w.auctions[id].owner != player
         || (w.auctions[id].bid != 0 && Purse(w, player) < CutOf(w.auctions[id]))
      then v == w
      else
        var a := w.auctions[id];
        var refund :=
          if a.bid != 0 && a.bidder != 0 then MailTo(env, Mail(a.bidder, a.bid, 0, id, CancelledToBidder)) else [];
        && v.auctions == w.auctions - {id} && id in v.ledger.cancelled && v.ledger.cancelled[id] == a
        && v.mails == w.mails + refund + [Mail(player, 0, a.item, id, Cancelled)]
        && Purse(v, player) == Purse(w, player) - (if a.bid != 0 then CutOf(a) else 0)
  {
    StandingInItems(w, id);
    if id in w.auctions { assert CutOf(w.auctions[id]) == w.auctions[id].Cut(); }
    UnderLimit(w);
    if MayCancel(w, player, house, id) { AllowedCancel(env, w, player, house, id); }
    hide Items, Books, Cancel;
  }

  lemma StandingInItems(w: World, id: nat)
    requires Items(w)
    ensures id in w.auctions ==> (w.auctions[id].item in w.items <==> Standing(w, id))
  {
    if id in w.auctions { assert HoldsItem(w, w.auctions[id]); }
  }

  lemma AllowedCancel(env: Env, w: World, player: nat, house: nat, id: nat)
    requires MayCancel(w, player, house, id) && Purse(w, player) <= MAX_MONEY
    ensures var v := Cancel(env, w, player, house, id); var a := w.auctions[id];
      var refund :=
        if a.bid != 0 && a.bidder != 0 then MailTo(env, Mail(a.bidder, a.bid, 0, id, CancelledToBidder)) else [];
      && v.auctions == w.auctions - {id} && id in v.ledger.cancelled && v.ledger.cancelled[id] == a
      && v.mails == w.mails + refund + [Mail(player, 0, a.item, id, Cancelled)]
      && Purse(v, player) == Purse(w, player) - (if a.bid != 0 then a.Cut() else 0)
  {
    assert w.mails + [] == w.mails;
  }
}
