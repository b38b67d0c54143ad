/** The auction house as functions on the whole world it touches: auctions, items in escrow,
    purses and mails.  Money the code destroys or creates is booked on `house` and `minted`. */
module AuctionHouse {

  const UINT32_SIZE: nat := 0x1_0000_0000
  const MAX_MONEY: nat := 0x7FFF_FFFE
  const HOUR: nat := 3600

  /** The share of the bid the house keeps: cut percentage times the configured rate. */
  type Rate = r: real | 0.0 <= r <= 1.0 witness 0.0

  /** An AuctionEntry.  Player and owner 0 stand for the server, item 0 for "already sent". */
  datatype Auction = Auction(
    house: nat, item: nat, owner: nat, startbid: nat, bid: nat, buyout: nat,
    expireTime: int, moneyDeliveryTime: int, bidder: nat, deposit: nat, cutRate: Rate)
  {
    predicate Active() { moneyDeliveryTime == 0 }

    function OutBid(): nat {
      var outbid := bid / 100 * 5;
      if outbid == 0 then 1 else outbid
    }

    /** GetAuctionCut in exact arithmetic. */
    function Cut(): (cut: nat)
      ensures cut <= bid
    {
      CutWithinBid(bid, cutRate);
      (bid as real * cutRate).Floor
    }
  }

  lemma CutWithinBid(bid: nat, cutRate: Rate)
    ensures 0 <= (bid as real * cutRate).Floor <= bid
  {
    assert 0.0 <= bid as real * cutRate <= bid as real * 1.0;
  }

  datatype MailKind = Won | Successful | Expired | Outbidded | CancelledToBidder | Cancelled

  /** A mail sent by the auction house; item 0 means none. */
  datatype Mail = Mail(receiver: nat, money: nat, item: nat, auction: nat, kind: MailKind)

  /** Money taken from a player's purse for a bid (or owed to one, in `lost`). */
  datatype Charge = Charge(player: nat, auction: nat, amount: int)

  /** The owners' record: every entry as it was listed, the final entries of expired and cancelled
      auctions, the deposits and cuts that owners paid, and the profits that reached nobody. */
  datatype Ledger = Ledger(
    listed: map<nat, Auction>, expired: map<nat, Auction>, cancelled: map<nat, Auction>,
    fees: seq<Charge>, unpaid: seq<Charge>)
  {
    function List(id: nat, a: Auction): Ledger {
      this.(listed := listed[id := a], fees := if a.owner != 0 then fees + [Charge(a.owner, id, a.deposit)] else fees)
    }

    function Expire(id: nat, a: Auction): Ledger { this.(expired := expired[id := a]) }

    function Cancel(id: nat, a: Auction): Ledger {
      this.(cancelled := cancelled[id := a], fees := if a.bid != 0 then fees + [Charge(a.owner, id, a.Cut())] else fees)
    }

    function Miss(id: nat, a: Auction, profit: nat): Ledger {
      this.(unpaid := unpaid + [Charge(a.owner, id, profit)])
    }
  }

  const NO_ENTRIES: Ledger := Ledger(map[], map[], map[], [], [])

  /** Besides the real state there are records: `charges` of what bidders paid, `lost` of refunds
      that reached nobody, `sold` of the final entries of delivered auctions, and the ledger. */
  datatype World = World(
    auctions: map<nat, Auction>, items: set<nat>, purses: map<nat, nat>, mails: seq<Mail>, destroyed: set<nat>,
    house: int, minted: nat, nextAuction: nat, nextItem: nat,
    charges: seq<Charge>, lost: seq<Charge>, sold: map<nat, Auction>, ledger: Ledger)

  /** What one call sees: the time, who is online, and the accounts of all characters. */
  datatype Env = Env(now: int, online: set<nat>, accounts: map<nat, nat>)
  {
    function Account(player: nat): nat {
      if player != 0 && player in accounts then accounts[player] else 0
    }

    /** A mail receiver: an online player or a character with an account. */
    predicate Exists(player: nat) {
      player != 0 && (player in online || Account(player) != 0)
    }
  }

  // ----- money -----

  function Purse(w: World, player: nat): nat {
    if player in w.purses then w.purses[player] else 0
  }

  /** Player::ModifyMoney: a purse never drops below zero nor rises above the limit. */
  function ModifyMoney(money: nat, d: int): nat {
    if d < 0 then (if money > -d then money + d else 0)
    else if money < MAX_MONEY - d then money + d else MAX_MONEY
  }

  function Pay(w: World, player: nat, amount: int): World {
    w.(purses := w.purses[player := ModifyMoney(Purse(w, player), -amount)])
  }

  function PayBid(w: World, player: nat, amount: int, id: nat): World {
    Pay(w, player, amount).(charges := w.charges + [Charge(player, id, amount)])
  }

  /** The bid of `a` goes back to its bidder by mail, or is lost with a vanished character. */
  function Refund(env: Env, w: World, id: nat, a: Auction, kind: MailKind): World {
    if env.Exists(a.bidder) then w.(mails := w.mails + [Mail(a.bidder, a.bid, 0, id, kind)])
    else w.(house := w.house + a.bid, lost := w.lost + [Charge(a.bidder, id, a.bid)])
  }

  /** An escrowed item leaves for a receiver, or is destroyed if there is none. */
  function SendItem(env: Env, w: World, id: nat, receiver: nat, kind: MailKind): World
    requires id in w.auctions
  {
    var a := w.auctions[id];
    if a.item !in w.items then w
    else
      var w1 := w.(items := w.items - {a.item}, auctions := w.auctions[id := a.(item := 0)]);
      if env.Exists(receiver) then w1.(mails := w.mails + [Mail(receiver, 0, a.item, id, kind)])
      else w1.(destroyed := w.destroyed + {a.item})
  }

  // ----- AddAuction -----

  /** A sale: the deposit is paid (by the server out of nothing) and a fresh item is escrowed. */
  function AddAuction(env: Env, w: World, house: nat, owner: nat, startbid: nat, buyout: nat, deposit: nat,
                      duration: nat, cutRate: Rate): World
  {
    var a := Auction(house, w.nextItem, owner, startbid, 0, buyout, env.now + duration, 0, 0, deposit, cutRate);
    var w1 := if owner != 0 then Pay(w, owner, deposit) else w.(minted := w.minted + deposit);
    w1.(auctions := w.auctions[w.nextAuction := a], items := w.items + {w.nextItem},
        nextAuction := w.nextAuction + 1, nextItem := w.nextItem + 1, ledger := w.ledger.List(w.nextAuction, a))
  }

  // ----- UpdateBid -----

  /** The price after capping it at the buyout. */
  function Capped(a: Auction, price: nat): nat {
    if a.buyout != 0 && price > a.buyout then a.buyout else price
  }

  /** The money side of UpdateBid: the new bidder pays, the old bid goes back. */
  function TakeBid(env: Env, w: World, id: nat, amount: nat, bidder: nat): World
    requires id in w.auctions
  {
    var a := w.auctions[id];
    if bidder != 0 && bidder == a.bidder then
      PayBid(w, bidder, amount - a.bid, id)
    else
      var w1 := if bidder != 0 then PayBid(w, bidder, amount, id) else w.(minted := w.minted + amount);
      if a.bidder != 0 then Refund(env, w1, id, a, Outbidded) else w1.(house := w1.house + a.bid)
  }

  function UpdateBid(env: Env, w: World, id: nat, newbid: nat, bidder: nat): World
    requires id in w.auctions
  {
    var a := w.auctions[id];
    var amount := Capped(a, newbid);
    var w1 := TakeBid(env, w, id, amount, bidder);
    var w2 := w1.(auctions := w1.auctions[id := a.(bidder := bidder, bid := amount)]);
    if amount < a.buyout || a.buyout == 0 then w2 else AuctionBidWinning(env, w2, id)
  }

  function AuctionBidWinning(env: Env, w: World, id: nat): World
    requires id in w.auctions
  {
    var a := w.auctions[id].(moneyDeliveryTime := env.now + HOUR);
    SendItem(env, w.(auctions := w.auctions[id := a]), id, a.bidder, Won)
  }

  // ----- HandleAuctionPlaceBid -----

  datatype BidResult = BidOwn | HigherBid | BidIncrement | NotEnoughMoney | BelowStart | BidOk

  function CheckBid(env: Env, w: World, player: nat, house: nat, id: nat, price: nat): BidResult {
    if id !in w.auctions || w.auctions[id].house != house || w.auctions[id].owner == player then BidOwn
    else
      var a := w.auctions[id];
      if a.owner !in env.online && env.Account(a.owner) == env.Account(player) then BidOwn
      else if price <= a.bid then HigherBid
      else if (price < a.buyout || a.buyout == 0) && price < (a.bid + a.OutBid()) % UINT32_SIZE then BidIncrement
      else if price > Purse(w, player) then NotEnoughMoney
      else if price < a.startbid then BelowStart
      else BidOk
  }

  function PlaceBid(env: Env, w: World, player: nat, house: nat, id: nat, price: nat): World {
    if price != 0 && CheckBid(env, w, player, house, id, price) == BidOk
    then UpdateBid(env, w, id, price, player) else w
  }

  /** What the buyer bot offers for an auction that it does not buy out. */
  function BotOffer(a: Auction): nat {
    if a.bid >= a.startbid then a.OutBid() else a.startbid
  }

  /** The buyer bot on an active auction; whether it buys out, where it can, is up to its dice. */
  function ServerBid(env: Env, w: World, id: nat, buy: bool): World {
    if id !in w.auctions || !w.auctions[id].Active() then w
    else
      var a := w.auctions[id];
      UpdateBid(env, w, id, if buy && a.buyout != 0 then a.buyout else BotOffer(a), 0)
  }

  // ----- HandleAuctionRemoveItem -----

  predicate MayCancel(w: World, player: nat, house: nat, id: nat) {
    && id in w.auctions && w.auctions[id].house == house && w.auctions[id].owner == player
    && w.auctions[id].item in w.items
    && (w.auctions[id].bid != 0 ==> Purse(w, player) >= w.auctions[id].Cut())
  }

  /** A cancelled auction with a bid: the bidder is refunded and the owner pays the cut. */
  function SettleCancelled(env: Env, w: World, player: nat, id: nat): World
    requires id in w.auctions
  {
    var a := w.auctions[id];
    if a.bidder != 0 then ToHouse(Pay(Refund(env, w, id, a, CancelledToBidder), player, a.Cut()), a.Cut())
    else ToHouse(Pay(w, player, a.Cut()), a.bid + a.Cut())
  }

  function Cancel(env: Env, w: World, player: nat, house: nat, id: nat): World {
    if !MayCancel(w, player, house, id) then w
    else
      var a := w.auctions[id];
      var w1 := if a.bid == 0 then w else SettleCancelled(env, w, player, id);
      ToHouse(w1.(mails := w1.mails + [Mail(player, 0, a.item, id, Cancelled)],
                  items := w1.items - {a.item}, auctions := w1.auctions - {id},
                  ledger := w1.ledger.Cancel(id, a)), a.deposit)
  }

  function ToHouse(w: World, amount: int): World {
    w.(house := w.house + amount)
  }

  // ----- AuctionHouseObject::Update -----

  /** The owner's profit, a uint32. */
  function Profit(a: Auction): nat
  {
    (a.bid + a.deposit - a.Cut()) % UINT32_SIZE
  }

  /** SendAuctionSuccessfulMail and removal. */
  function Deliver(env: Env, w: World, id: nat): World
    requires id in w.auctions
  {
    var a := w.auctions[id];
    var w1 := w.(auctions := w.auctions - {id}, sold := w.sold[id := a]);
    if env.Exists(a.owner) then
      ToHouse(w1.(mails := w.mails + [Mail(a.owner, Profit(a), 0, id, Successful)]), a.bid + a.deposit - Profit(a))
    else ToHouse(w1.(ledger := w.ledger.Miss(id, a, Profit(a))), a.bid + a.deposit)
  }

  /** SendAuctionExpiredMail and removal; the deposit is lost. */
  function Expire(env: Env, w: World, id: nat): World
    requires id in w.auctions
  {
    var a := w.auctions[id];
    var w1 := SendItem(env, w, id, a.owner, Expired);
    ToHouse(w1.(auctions := w1.auctions - {id}, ledger := w.ledger.Expire(id, a)), a.deposit)
  }

  function UpdateOne(env: Env, w: World, id: nat): World
    requires id in w.auctions
  {
    var a := w.auctions[id];
    if !a.Active() then
      if env.now > a.moneyDeliveryTime then Deliver(env, w, id) else w
    else if env.now > a.expireTime then
      if a.bid != 0 then AuctionBidWinning(env, w, id) else Expire(env, w, id)
    else w
  }

  /** The auctions of one house, in the order of their ids. */
  function UpdateBelow(env: Env, w: World, house: nat, n: nat): World {
    if n == 0 then w
    else
      var v := UpdateBelow(env, w, house, n - 1);
      if n - 1 in v.auctions && v.auctions[n - 1].house == house then UpdateOne(env, v, n - 1) else v
  }

  function UpdateHouse(env: Env, w: World, house: nat): World {
    UpdateBelow(env, w, house, w.nextAuction)
  }

  function UpdateAll(env: Env, w: World): World {
    UpdateHouse(env, UpdateHouse(env, UpdateHouse(env, w, 0), 1), 2)
  }
}
