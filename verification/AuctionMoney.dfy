/** Money accounting: no operation creates or destroys money unbooked, and what a bidder has
    paid into an auction is exactly his standing bid. */
module AuctionMoney {
  import opened MapSum
  import opened AuctionHouse

  function MailMoney(mails: seq<Mail>): nat {
    if mails == [] then 0 else MailMoney(mails[..|mails| - 1]) + mails[|mails| - 1].money
  }

  /** Bid and deposit held for each auction. */
  function Held(auctions: map<nat, Auction>): map<nat, int> {
    map id | id in auctions :: auctions[id].bid + auctions[id].deposit
  }

  function AsInts(purses: map<nat, nat>): map<nat, int> {
    map p | p in purses :: purses[p]
  }

  /** Purses, mails, escrowed bids and deposits, and the house, less what the server created. */
  ghost function Total(w: World): int {
    Sum(AsInts(w.purses)) + MailMoney(w.mails) + Sum(Held(w.auctions)) + w.house - w.minted
  }

  lemma MailMoneyAppend(mails: seq<Mail>, m: Mail)
    ensures MailMoney(mails + [m]) == MailMoney(mails) + m.money
  {
    assert (mails + [m])[..|mails|] == mails;
  }

  lemma HeldSet(auctions: map<nat, Auction>, id: nat, a: Auction)
    ensures Sum(Held(auctions[id := a])) ==
      Sum(Held(auctions)) + a.bid + a.deposit - if id in auctions then auctions[id].bid + auctions[id].deposit else 0
  {
    SumSet(Held(auctions), id, a.bid + a.deposit);
    assert Held(auctions[id := a]) == Held(auctions)[id := a.bid + a.deposit];
  }

  lemma HeldRemove(auctions: map<nat, Auction>, id: nat)
    requires id in auctions
    ensures Sum(Held(auctions - {id})) == Sum(Held(auctions)) - auctions[id].bid - auctions[id].deposit
  {
    SumRemove(Held(auctions), id);
    assert Held(auctions - {id}) == Held(auctions) - {id};
  }

  /** A payment that the purse can bear leaves it in full. */
  lemma PayTotal(w: World, player: nat, amount: int)
    requires 0 <= amount <= Purse(w, player) <= MAX_MONEY
    ensures Total(Pay(w, player, amount)) == Total(w) - amount
    ensures Purse(Pay(w, player, amount), player) == Purse(w, player) - amount
  {
    var left := Purse(w, player) - amount;
    assert Pay(w, player, amount).purses == w.purses[player := left];
    SumSet(AsInts(w.purses), player, left);
    assert AsInts(w.purses[player := left]) == AsInts(w.purses)[player := left];
  }

  lemma RefundTotal(env: Env, w: World, id: nat, a: Auction, kind: MailKind)
    ensures Total(Refund(env, w, id, a, kind)) == Total(w) + a.bid
  {
    MailMoneyAppend(w.mails, Mail(a.bidder, a.bid, 0, id, kind));
  }

  lemma SendItemTotal(env: Env, w: World, id: nat, receiver: nat, kind: MailKind)
    requires id in w.auctions
    ensures Total(SendItem(env, w, id, receiver, kind)) == Total(w)
  {
    var a := w.auctions[id];
    HeldSet(w.auctions, id, a.(item := 0));
    MailMoneyAppend(w.mails, Mail(receiver, 0, a.item, id, kind));
  }

  lemma AddAuctionTotal(env: Env, w: World, house: nat, owner: nat, startbid: nat, buyout: nat, deposit: nat,
                        duration: nat, cutRate: Rate)
    requires w.nextAuction !in w.auctions
    requires owner != 0 ==> deposit <= Purse(w, owner) <= MAX_MONEY
    ensures Total(AddAuction(env, w, house, owner, startbid, buyout, deposit, duration, cutRate)) == Total(w)
  {
    var a := Auction(house, w.nextItem, owner, startbid, 0, buyout, env.now + duration, 0, 0, deposit, cutRate);
    HeldSet(w.auctions, w.nextAuction, a);
    if owner != 0 { PayTotal(w, owner, deposit); }
  }

  /** Taking a bid moves exactly the difference between the new and the old bid. */
  lemma TakeBidTotal(env: Env, w: World, id: nat, amount: nat, bidder: nat)
    requires id in w.auctions
    requires bidder != 0 ==> amount <= Purse(w, bidder) <= MAX_MONEY
    requires bidder != 0 && bidder == w.auctions[id].bidder ==> w.auctions[id].bid <= amount
    ensures Total(TakeBid(env, w, id, amount, bidder)) == Total(w) - amount + w.auctions[id].bid
  {
    var a := w.auctions[id];
    if bidder != 0 && bidder == a.bidder {
      PayTotal(w, bidder, amount - a.bid);
    } else {
      if bidder != 0 { PayTotal(w, bidder, amount); }
      var w1 := if bidder != 0 then PayBid(w, bidder, amount, id) else w.(minted := w.minted + amount);
      assert Total(w1) == Total(w) - amount;
      RefundTotal(env, w1, id, a, Outbidded);
    }
  }

  lemma UpdateBidTotal(env: Env, w: World, id: nat, newbid: nat, bidder: nat)
    requires id in w.auctions
    requires bidder != 0 ==> Capped(w.auctions[id], newbid) <= Purse(w, bidder) <= MAX_MONEY
    requires bidder != 0 && bidder == w.auctions[id].bidder ==> w.auctions[id].bid <= Capped(w.auctions[id], newbid)
    ensures Total(UpdateBid(env, w, id, newbid, bidder)) == Total(w)
  {
    var a := w.auctions[id];
    var amount := Capped(a, newbid);
    TakeBidTotal(env, w, id, amount, bidder);
    var w1 := TakeBid(env, w, id, amount, bidder);
    assert w1.auctions == w.auctions;
    var a2 := a.(bidder := bidder, bid := amount);
    HeldSet(w1.auctions, id, a2);
    var w2 := w1.(auctions := w1.auctions[id := a2]);
    assert Total(w2) == Total(w);
    WinningTotal(env, w2, id);
  }

  lemma WinningTotal(env: Env, w: World, id: nat)
    requires id in w.auctions
    ensures Total(AuctionBidWinning(env, w, id)) == Total(w)
  {
    var a := w.auctions[id].(moneyDeliveryTime := env.now + HOUR);
    HeldSet(w.auctions, id, a);
    SendItemTotal(env, w.(auctions := w.auctions[id := a]), id, a.bidder, Won);
  }

  /** The money side of a cancellation: bidder's refund and owner's cut. */
  lemma SettleCancelledTotal(env: Env, w: World, player: nat, id: nat)
    requires id in w.auctions && w.auctions[id].Cut() <= Purse(w, player) <= MAX_MONEY
    ensures var a := w.auctions[id]; var v := SettleCancelled(env, w, player, id);
      Total(v) == Total(w) + a.bid && v.auctions == w.auctions
  {
    var a := w.auctions[id];
    hide Total;
    if a.bidder != 0 {
      RefundTotal(env, w, id, a, CancelledToBidder);
      PayTotal(Refund(env, w, id, a, CancelledToBidder), player, a.Cut());
      ToHouseTotal(Pay(Refund(env, w, id, a, CancelledToBidder), player, a.Cut()), a.Cut());
    } else {
      PayTotal(w, player, a.Cut());
      ToHouseTotal(Pay(w, player, a.Cut()), a.bid + a.Cut());
    }
  }

  lemma ToHouseTotal(w: World, amount: int)
    ensures Total(ToHouse(w, amount)) == Total(w) + amount
  {
  }

  /** An auction and what it held disappear; a mail carries some of it away. */
  lemma CloseTotal(w: World, id: nat, mails: seq<Mail>, m: Mail, items: set<nat>, sold: map<nat, Auction>)
    requires id in w.auctions && mails == w.mails + [m]
    ensures var v := w.(auctions := w.auctions - {id}, mails := mails, items := items, sold := sold);
      Total(v) == Total(w) - w.auctions[id].bid - w.auctions[id].deposit + m.money
  {
    HeldRemove(w.auctions, id);
    MailMoneyAppend(w.mails, m);
  }

  lemma CancelTotal(env: Env, w: World, player: nat, house: nat, id: nat)
    requires Purse(w, player) <= MAX_MONEY
    ensures Total(Cancel(env, w, player, house, id)) == Total(w)
  {
    if MayCancel(w, player, house, id) {
      hide Total, SettleCancelled;
      var a := w.auctions[id];
      var w1 := if a.bid == 0 then w else SettleCancelled(env, w, player, id);
      if a.bid != 0 { SettleCancelledTotal(env, w, player, id); }
      var m := Mail(player, 0, a.item, id, Cancelled);
      CancelledTotal(w1, id, m, a);
    }
  }

  lemma CancelledTotal(w: World, id: nat, m: Mail, a: Auction)
    requires id in w.auctions && m.money == 0
    ensures var v := w.(mails := w.mails + [m], items := w.items - {a.item}, auctions := w.auctions - {id},
                        ledger := w.ledger.Cancel(id, a));
      Total(ToHouse(v, a.deposit)) == Total(w) - w.auctions[id].bid - w.auctions[id].deposit + a.deposit
  {
    CloseTotal(w, id, w.mails + [m], m, w.items - {a.item}, w.sold);
  }

  lemma DeliverTotal(env: Env, w: World, id: nat)
    requires id in w.auctions
    ensures Total(Deliver(env, w, id)) == Total(w)
  {
    hide Total, Profit;
    var a := w.auctions[id];
    var w1 := w.(auctions := w.auctions - {id}, sold := w.sold[id := a]);
    if env.Exists(a.owner) {
      var m := Mail(a.owner, Profit(a), 0, id, Successful);
      CloseTotal(w, id, w.mails + [m], m, w.items, w.sold[id := a]);
      ToHouseTotal(w1.(mails := w.mails + [m]), a.bid + a.deposit - Profit(a));
    } else {
      RemoveTotal(w, id, w.sold[id := a], w.ledger.Miss(id, a, Profit(a)));
      ToHouseTotal(w1.(ledger := w.ledger.Miss(id, a, Profit(a))), a.bid + a.deposit);
    }
  }

  lemma RemoveTotal(w: World, id: nat, sold: map<nat, Auction>, ledger: Ledger)
    requires id in w.auctions
    ensures var a := w.auctions[id];
      Total(w.(auctions := w.auctions - {id}, sold := sold, ledger := ledger)) == Total(w) - a.bid - a.deposit
  {
    HeldRemove(w.auctions, id);
  }

  lemma ExpireTotal(env: Env, w: World, id: nat)
    requires id in w.auctions && w.auctions[id].bid == 0
    ensures Total(Expire(env, w, id)) == Total(w)
  {
    hide Total;
    var a := w.auctions[id];
    SendItemTotal(env, w, id, a.owner, Expired);
    var w1 := SendItem(env, w, id, a.owner, Expired);
    RemoveTotal(w1, id, w1.sold, w.ledger.Expire(id, a));
    ToHouseTotal(w1.(auctions := w1.auctions - {id}, ledger := w.ledger.Expire(id, a)), a.deposit);
  }

  lemma UpdateOneTotal(env: Env, w: World, id: nat)
    requires id in w.auctions
    ensures Total(UpdateOne(env, w, id)) == Total(w)
  {
    hide Total, AuctionBidWinning, Expire, Deliver;
    var a := w.auctions[id];
    if !a.Active() {
      DeliverTotal(env, w, id);
    } else if a.bid != 0 {
      WinningTotal(env, w, id);
    } else {
      ExpireTotal(env, w, id);
    }
  }
}
