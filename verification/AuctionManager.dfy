/** The auction house object: maps, purses and outbox as fields, the handlers as methods, each
    tied to the function of the same name. */
module AuctionManager {
  import opened AuctionHouse

  class AuctionHouseMgr {
    var auctions: map<nat, Auction>
    var items: set<nat>
    var purses: map<nat, nat>
    var mails: seq<Mail>
    var destroyed: set<nat>
    var house: int
    var minted: nat
    var nextAuction: nat
    var nextItem: nat
    var charges: seq<Charge>
    var lost: seq<Charge>
    var sold: map<nat, Auction>
    var ledger: Ledger

    function View(): World
      reads this
    {
      World(auctions, items, purses, mails, destroyed, house, minted, nextAuction, nextItem, charges, lost, sold,
          ledger)
    }

    constructor (purses: map<nat, nat>)
      ensures View() == World(map[], {}, purses, [], {}, 0, 0, 1, 1, [], [], map[], NO_ENTRIES)
    {
      auctions, items, this.purses, mails, destroyed := map[], {}, purses, [], {};
      house, minted, nextAuction, nextItem := 0, 0, 1, 1;
      charges, lost, sold, ledger := [], [], map[], NO_ENTRIES;
    }

    method ChangeMoney(player: nat, d: int)
      modifies `purses
      ensures View() == Pay(old(View()), player, -d)
    {
      var money := if player in purses then purses[player] else 0;
      if d < 0 {
        money := if money > -d then money + d else 0;
      } else {
        money := if money < MAX_MONEY - d then money + d else MAX_MONEY;
      }
      purses := purses[player := money];
    }

    /** SendAuctionOutbiddedMail and SendAuctionCancelledToBidderMail. */
    method SendRefund(env: Env, id: nat, a: Auction, kind: MailKind)
      modifies `mails, `house, `lost
      ensures View() == Refund(env, old(View()), id, a, kind)
    {
      if env.Exists(a.bidder) {
        mails := mails + [Mail(a.bidder, a.bid, 0, id, kind)];
      } else {
        house := house + a.bid;
        lost := lost + [Charge(a.bidder, id, a.bid)];
      }
    }

    /** The item part of SendAuctionWonMail and SendAuctionExpiredMail. */
    method SendItemMail(env: Env, id: nat, receiver: nat, kind: MailKind)
      requires id in auctions
      modifies `auctions, `items, `mails, `destroyed
      ensures View() == SendItem(env, old(View()), id, receiver, kind)
    {
      var a := auctions[id];
      if a.item !in items { return; }
      items := items - {a.item};
      auctions := auctions[id := a.(item := 0)];
      if env.Exists(receiver) {
        mails := mails + [Mail(receiver, 0, a.item, id, kind)];
      } else {
        destroyed := destroyed + {a.item};
      }
    }

    method AddAuction(env: Env, houseId: nat, owner: nat, startbid: nat, buyout: nat, deposit: nat, duration: nat,
                      cutRate: Rate)
      requires nextItem !in items
      modifies this
      ensures View() == AuctionHouse.AddAuction(env, old(View()), houseId, owner, startbid, buyout, deposit, duration,
          cutRate)
    {
      hide Pay;
      if owner != 0 {
        ChangeMoney(owner, -(deposit as int));
      } else {
        minted := minted + deposit;
      }
      Escrow(Auction(houseId, nextItem, owner, startbid, 0, buyout, env.now + duration, 0, 0, deposit, cutRate));
    }

    /** The new entry, its item, and its line in the owners' record. */
    method Escrow(a: Auction)
      modifies `auctions, `ledger, `items, `nextAuction, `nextItem
      ensures auctions == old(auctions)[old(nextAuction) := a] && ledger == old(ledger).List(old(nextAuction), a)
      ensures items == old(items) + {old(nextItem)} && nextAuction == old(nextAuction) + 1
      ensures nextItem == old(nextItem) + 1
    {
      auctions := auctions[nextAuction := a];
      ledger := ledger.List(nextAuction, a);
      items := items + {nextItem};
      nextAuction := nextAuction + 1;
      nextItem := nextItem + 1;
    }

    /** The payments of UpdateBid. */
    method TakeBid(env: Env, id: nat, newbid: nat, bidder: nat)
      requires id in auctions
      modifies `purses, `charges, `minted, `mails, `house, `lost
      ensures View() == AuctionHouse.TakeBid(env, old(View()), id, newbid, bidder)
    {
      var a := auctions[id];
      if bidder != 0 && bidder == a.bidder {
        ChangeMoney(bidder, -(newbid - a.bid));
        charges := charges + [Charge(bidder, id, newbid - a.bid)];
        return;
      }
      if bidder != 0 {
        ChangeMoney(bidder, -(newbid as int));
        charges := charges + [Charge(bidder, id, newbid)];
      } else {
        minted := minted + newbid;
      }
      if a.bidder != 0 {
        SendRefund(env, id, a, Outbidded);
      } else {
        house := house + a.bid;
      }
    }

    /** Returns whether this was a normal bid rather than a buyout; bidder 0 is the server. */
    method UpdateBid(env: Env, id: nat, price: nat, bidder: nat) returns (normal: bool)
      requires id in auctions
      modifies this
      ensures View() == AuctionHouse.UpdateBid(env, old(View()), id, price, bidder)
      ensures normal == (Capped(old(auctions)[id], price) < old(auctions)[id].buyout || old(auctions)[id].buyout == 0)
    {
      hide AuctionHouse.TakeBid, AuctionHouse.AuctionBidWinning;
      var a := auctions[id];
      var newbid := price;
      if a.buyout != 0 && newbid > a.buyout { newbid := a.buyout; }
      TakeBid(env, id, newbid, bidder);
      auctions := auctions[id := a.(bidder := bidder, bid := newbid)];
      if newbid < a.buyout || a.buyout == 0 { return true; }
      AuctionBidWinning(env, id);
      return false;
    }

    method AuctionBidWinning(env: Env, id: nat)
      requires id in auctions
      modifies `auctions, `items, `mails, `destroyed
      ensures View() == AuctionHouse.AuctionBidWinning(env, old(View()), id)
    {
      auctions := auctions[id := auctions[id].(moneyDeliveryTime := env.now + HOUR)];
      SendItemMail(env, id, auctions[id].bidder, Won);
    }

    method HandleAuctionPlaceBid(env: Env, player: nat, houseId: nat, id: nat, price: nat)
      modifies this
      ensures View() == PlaceBid(env, old(View()), player, houseId, id, price)
    {
      if price == 0 || CheckBid(env, View(), player, houseId, id, price) != BidOk { return; }
      var _ := UpdateBid(env, id, price, player);
    }

    /** The refund and the cut of a cancelled auction that has a bid. */
    method SettleCancelled(env: Env, player: nat, id: nat)
      requires id in auctions
      modifies `purses, `mails, `house, `lost
      ensures View() == AuctionHouse.SettleCancelled(env, old(View()), player, id)
    {
      var a := auctions[id];
      var cut := a.Cut();
      if a.bidder != 0 {
        SendRefund(env, id, a, CancelledToBidder);
      } else {
        house := house + a.bid;
      }
      ChangeMoney(player, -(cut as int));
      house := house + cut;
    }

    method HandleAuctionRemoveItem(env: Env, player: nat, houseId: nat, id: nat)
      modifies this
      ensures View() == Cancel(env, old(View()), player, houseId, id)
    {
      hide AuctionHouse.SettleCancelled;
      if id !in auctions || auctions[id].house != houseId || auctions[id].owner != player { return; }
      var a := auctions[id];
      if a.item !in items { return; }
      if a.bid != 0 {
        if Purse(View(), player) < a.Cut() { return; }
        SettleCancelled(env, player, id);
      }
      mails := mails + [Mail(player, 0, a.item, id, Cancelled)];
      items := items - {a.item};
      auctions := auctions - {id};
      house := house + a.deposit;
      ledger := ledger.Cancel(id, a);
    }

    /** AuctionBotBuyer: one auction of its list. */
    method BotBid(env: Env, id: nat, buy: bool)
      modifies this
      ensures View() == ServerBid(env, old(View()), id, buy)
    {
      if id !in auctions || auctions[id].moneyDeliveryTime != 0 { return; }
      var a := auctions[id];
      var bidPrice := a.startbid;
      if a.bid >= a.startbid { bidPrice := a.OutBid(); }
      if buy && a.buyout != 0 { bidPrice := a.buyout; }
      var _ := UpdateBid(env, id, bidPrice, 0);
    }

    /** AuctionHouseMgr::Update over its three houses. */
    method Update(env: Env)
      modifies this
      ensures View() == UpdateAll(env, old(View()))
    {
      UpdateHouse(env, 0);
      UpdateHouse(env, 1);
      UpdateHouse(env, 2);
    }

    method UpdateHouse(env: Env, houseId: nat)
      modifies this
      ensures View() == AuctionHouse.UpdateHouse(env, old(View()), houseId)
    {
      hide AuctionHouse.UpdateOne;
      for id := 0 to nextAuction
        invariant nextAuction == old(nextAuction)
        invariant View() == UpdateBelow(env, old(View()), houseId, id)
      {
        if id in auctions && auctions[id].house == houseId { UpdateOne(env, id); }
      }
    }

    method UpdateOne(env: Env, id: nat)
      requires id in auctions
      modifies this
      ensures View() == AuctionHouse.UpdateOne(env, old(View()), id)
      ensures nextAuction == old(nextAuction)
    {
      var a := auctions[id];
      if a.moneyDeliveryTime != 0 {
        if env.now > a.moneyDeliveryTime { SendSuccessfulAndRemove(env, id); }
      } else if env.now > a.expireTime {
        if a.bid != 0 {
          AuctionBidWinning(env, id);
        } else {
          SendItemMail(env, id, a.owner, Expired);
          auctions := auctions - {id};
          house := house + a.deposit;
          ledger := ledger.Expire(id, a);
        }
      }
    }

    method SendSuccessfulAndRemove(env: Env, id: nat)
      requires id in auctions
      modifies `auctions, `mails, `house, `sold, `ledger
      ensures View() == Deliver(env, old(View()), id)
    {
      var a := auctions[id];
      if env.Exists(a.owner) {
        var profit := (a.bid + a.deposit - a.Cut()) % UINT32_SIZE;
        mails := mails + [Mail(a.owner, profit, 0, id, Successful)];
        house := house + (a.bid + a.deposit - profit);
      } else {
        house := house + (a.bid + a.deposit);
        ledger := ledger.Miss(id, a, (a.bid + a.deposit - a.Cut()) % UINT32_SIZE);
      }
      auctions, sold := auctions - {id}, sold[id := a];
    }
  }
}
