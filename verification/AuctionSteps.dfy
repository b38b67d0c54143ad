/** Every operation of the auction house keeps the invariants of AuctionEscrow. */
module AuctionSteps {
  import opened AuctionHouse
  import opened AuctionEscrow

  ghost predicate Items(w: World) { Escrowed(w) && OnePlace(w) }

  ghost predicate Books(w: World) { SoundAuctions(w) && PursesCapped(w) && Balanced(w) }

  /** The same places, for worlds whose mails differ by item-less ones only. */
  ghost predicate SamePlaces(w: World, v: World) {
    && v.items == w.items && v.destroyed == w.destroyed && v.nextItem == w.nextItem
    && forall g: nat :: g != 0 ==> MailsWith(v.mails, g) == MailsWith(w.mails, g)
  }

  lemma OnePlaceFrame(w: World, v: World)
    requires OnePlace(w) && SamePlaces(w, v)
    ensures OnePlace(v)
  {
    forall g: nat | g != 0
      ensures Places(v, g) == Places(w, g)
    {
    }
  }

  // ----- AddAuction -----

  lemma AddItems(env: Env, w: World, house: nat, owner: nat, startbid: nat, buyout: nat, deposit: nat, duration: nat,
                 cutRate: Rate)
    requires Items(w)
    ensures Items(AddAuction(env, w, house, owner, startbid, buyout, deposit, duration, cutRate))
    ensures w.nextItem !in w.items && w.nextAuction !in w.auctions
  {
    var v := AddAuction(env, w, house, owner, startbid, buyout, deposit, duration, cutRate);
    assert v.mails == w.mails && v.destroyed == w.destroyed && v.items == w.items + {w.nextItem};
    assert v.nextItem == w.nextItem + 1 && v.nextAuction == w.nextAuction + 1;
    assert v.auctions == w.auctions[w.nextAuction := v.auctions[w.nextAuction]];
    hide AddAuction;
    AddEscrowed(w, v);
    AddOnePlace(w, v);
  }

  lemma AddEscrowed(w: World, v: World)
    requires Escrowed(w) && v.nextItem == w.nextItem + 1 && v.nextAuction == w.nextAuction + 1
    requires v.items == w.items + {w.nextItem} && w.nextAuction in v.auctions
    requires v.auctions == w.auctions[w.nextAuction := v.auctions[w.nextAuction]]
    requires v.auctions[w.nextAuction].Active() && v.auctions[w.nextAuction].item == w.nextItem
    ensures Escrowed(v)
  {
    forall g | g in v.items
      ensures exists id :: id in v.auctions && v.auctions[id].item == g
    {
      if g == w.nextItem {
        assert v.auctions[w.nextAuction].item == g;
      } else {
        var id :| id in w.auctions && w.auctions[id].item == g;
        assert v.auctions[id].item == g;
      }
    }
  }

  lemma AddOnePlace(w: World, v: World)
    requires OnePlace(w) && w.nextItem >= 1 && v.nextItem == w.nextItem + 1
    requires v.mails == w.mails && v.destroyed == w.destroyed && v.items == w.items + {w.nextItem}
    ensures OnePlace(v)
  {
    forall g: nat | g != 0
      ensures Places(v, g) == Places(w, g) + (if g == w.nextItem then 1 else 0)
    {
      assert Places(w, w.nextItem) == 0;
    }
  }

  lemma AddBooks(env: Env, w: World, house: nat, owner: nat, startbid: nat, buyout: nat, deposit: nat, duration: nat,
                 cutRate: Rate)
    requires Books(w) && w.nextAuction !in w.auctions
    ensures Books(AddAuction(env, w, house, owner, startbid, buyout, deposit, duration, cutRate))
  {
    var v := AddAuction(env, w, house, owner, startbid, buyout, deposit, duration, cutRate);
    forall id, p | p != 0
      ensures Owed(v, id, p) == Stake(v, id, p)
    {
      assert Owed(w, id, p) == Stake(w, id, p);
    }
  }

  // ----- UpdateBid -----

  /** Taking a bid: the new bidder now owes it, the old one owes nothing. */
  lemma TakeBidEffect(env: Env, w: World, id: nat, amount: nat, bidder: nat)
    requires id in w.auctions
    ensures var v := TakeBid(env, w, id, amount, bidder);
      && v.auctions == w.auctions && v.sold == w.sold && v.nextAuction == w.nextAuction && SamePlaces(w, v)
      && forall i, p :: p != 0 ==>
           Owed(v, i, p) == Owed(w, i, p) + (if i == id && p == bidder then amount else 0)
                            - (if i == id && p == w.auctions[id].bidder then w.auctions[id].bid else 0)
  {
    var a := w.auctions[id];
    AppendCharge(w.charges, Charge(bidder, id, amount));
    AppendCharge(w.charges, Charge(bidder, id, amount - a.bid));
    AppendCharge(w.lost, Charge(a.bidder, id, a.bid));
    Append(w.mails, Mail(a.bidder, a.bid, 0, id, Outbidded));
  }

  lemma TakeBidPurses(env: Env, w: World, id: nat, amount: nat, bidder: nat)
    requires id in w.auctions && PursesCapped(w)
    ensures PursesCapped(TakeBid(env, w, id, amount, bidder))
  {
  }

  /** The world after the new bid is entered, before a buyout is settled. */
  function EnterBid(env: Env, w: World, id: nat, amount: nat, bidder: nat): World
    requires id in w.auctions
  {
    var w1 := TakeBid(env, w, id, amount, bidder);
    w1.(auctions := w1.auctions[id := w.auctions[id].(bidder := bidder, bid := amount)])
  }

  lemma EnterBidItems(env: Env, w: World, id: nat, amount: nat, bidder: nat)
    requires id in w.auctions && Items(w)
    ensures Items(EnterBid(env, w, id, amount, bidder))
  {
    TakeBidEffect(env, w, id, amount, bidder);
    hide TakeBid;
    var v := EnterBid(env, w, id, amount, bidder);
    OnePlaceFrame(w, v);
    assert forall i :: i in w.auctions ==> v.auctions[i].item == w.auctions[i].item;
    forall g | g in v.items
      ensures exists i :: i in v.auctions && v.auctions[i].item == g
    {
      var i :| i in w.auctions && w.auctions[i].item == g;
      assert v.auctions[i].item == g;
    }
  }

  lemma EnterBidBalanced(env: Env, w: World, id: nat, amount: nat, bidder: nat)
    requires id in w.auctions && Books(w)
    ensures Balanced(EnterBid(env, w, id, amount, bidder)) && PursesCapped(EnterBid(env, w, id, amount, bidder))
  {
    TakeBidEffect(env, w, id, amount, bidder);
    TakeBidPurses(env, w, id, amount, bidder);
    hide TakeBid, SamePlaces;
    var v := EnterBid(env, w, id, amount, bidder);
    forall i, p | p != 0
      ensures Owed(v, i, p) == Stake(v, i, p)
    {
      assert Owed(w, i, p) == Stake(w, i, p);
      hide Owed;
    }
  }

  /** A win sends the item and leaves the auction pending. */
  lemma WinItems(env: Env, w: World, id: nat)
    requires id in w.auctions && Items(w) && env.now >= 0
    ensures Items(AuctionBidWinning(env, w, id))
  {
    var w1 := w.(auctions := w.auctions[id := w.auctions[id].(moneyDeliveryTime := env.now + HOUR)]);
    MarkedEscrowed(w, id, env.now + HOUR);
    SendItemEffect(env, w1, id, w1.auctions[id].bidder, Won);
    OnePlaceFrame(w, w1);
    SendItemOnePlace(env, w1, id, w1.auctions[id].bidder, Won);
  }

  lemma MarkedEscrowed(w: World, id: nat, time: int)
    requires Escrowed(w) && id in w.auctions
    ensures EscrowedBut(w.(auctions := w.auctions[id := w.auctions[id].(moneyDeliveryTime := time)]), id)
  {
    var v := w.(auctions := w.auctions[id := w.auctions[id].(moneyDeliveryTime := time)]);
    forall g | g in v.items
      ensures exists i :: i in v.auctions && v.auctions[i].item == g
    {
      var i :| i in w.auctions && w.auctions[i].item == g;
      assert v.auctions[i].item == g;
    }
  }

  lemma WinBooks(env: Env, w: World, id: nat)
    requires id in w.auctions && Escrowed(w) && PursesCapped(w) && Balanced(w) && env.now >= 0
    requires forall i :: i in w.auctions && i != id ==> SoundAuction(w.auctions[i])
    requires SoundAuction(w.auctions[id].(moneyDeliveryTime := env.now + HOUR))
    ensures Books(AuctionBidWinning(env, w, id))
  {
    hide SendItem, Balanced, OnePlace;
    WinEffect(env, w, id);
    var v := AuctionBidWinning(env, w, id);
    hide AuctionBidWinning, Escrowed;
    assert SoundAuctions(v);
    WinBalanced(w, id, v);
  }

  lemma WinEffect(env: Env, w: World, id: nat)
    requires id in w.auctions && Escrowed(w)
    ensures var v := AuctionBidWinning(env, w, id);
      && v.auctions == w.auctions[id := w.auctions[id].(moneyDeliveryTime := env.now + HOUR, item := 0)]
      && SameBooks(w, v)
  {
    hide SendItem, EscrowedBut;
    var w1 := w.(auctions := w.auctions[id := w.auctions[id].(moneyDeliveryTime := env.now + HOUR)]);
    MarkedEscrowed(w, id, env.now + HOUR);
    SendItemEffect(env, w1, id, w1.auctions[id].bidder, Won);
  }

  lemma WinBalanced(w: World, id: nat, v: World)
    requires id in w.auctions && id in v.auctions && v.auctions == w.auctions[id := v.auctions[id]]
    requires v.auctions[id].bidder == w.auctions[id].bidder && v.auctions[id].bid == w.auctions[id].bid
    requires SameBooks(w, v) && Balanced(w)
    ensures Balanced(v)
  {
    forall i, p | p != 0
      ensures Owed(v, i, p) == Stake(v, i, p)
    {
      assert Owed(w, i, p) == Stake(w, i, p);
    }
  }

  lemma UpdateBidKeeps(env: Env, w: World, id: nat, newbid: nat, bidder: nat)
    requires id in w.auctions && Items(w) && Books(w) && env.now >= 0
    requires bidder != 0 ==> bidder != w.auctions[id].owner && newbid != 0
    requires !w.auctions[id].Active() ==> newbid != 0
    ensures var v := UpdateBid(env, w, id, newbid, bidder); Items(v) && Books(v)
  {
    var a := w.auctions[id];
    var amount := Capped(a, newbid);
    EnterBidItems(env, w, id, amount, bidder);
    EnterBidBalanced(env, w, id, amount, bidder);
    TakeBidEffect(env, w, id, amount, bidder);
    hide TakeBid, SamePlaces, Balanced, OnePlace, AuctionBidWinning;
    var v := EnterBid(env, w, id, amount, bidder);
    assert v.auctions == w.auctions[id := a.(bidder := bidder, bid := amount)];
    if amount < a.buyout || a.buyout == 0 {
      assert SoundAuction(v.auctions[id]);
    } else {
      WinItems(env, v, id);
      WinBooks(env, v, id);
    }
  }

  // ----- closing an auction -----

  /** Removing an auction that holds no item, and whose bidders are settled. */
  lemma RemoveItems(w: World, id: nat, v: World)
    requires EscrowedBut(w, id) && OnePlace(w) && w.auctions[id].item == 0
    requires v.auctions == w.auctions - {id} && SamePlaces(w, v) && v.nextAuction == w.nextAuction
    ensures Items(v)
  {
    OnePlaceFrame(w, v);
    forall g | g in v.items
      ensures exists i :: i in v.auctions && v.auctions[i].item == g
    {
      var i :| i in w.auctions && w.auctions[i].item == g;
      assert v.auctions[i].item == g;
    }
  }

  lemma DeliverKeeps(env: Env, w: World, id: nat)
    requires id in w.auctions && Items(w) && Books(w) && !w.auctions[id].Active()
    ensures var v := Deliver(env, w, id); Items(v) && Books(v)
  {
    var a := w.auctions[id];
    var v := Deliver(env, w, id);
    Append(w.mails, Mail(a.owner, Profit(a), 0, id, Successful));
    assert SamePlaces(w, v);
    hide OnePlace, SamePlaces;
    RemoveItems(w, id, v);
    ClosedBalanced(w, id, v);
  }

  /** A closed auction owes its bidder his final bid if it was sold, and nothing otherwise. */
  lemma ClosedBalanced(w: World, id: nat, v: World)
    requires id in w.auctions && v.auctions == w.auctions - {id} && v.nextAuction == w.nextAuction && Balanced(w)
    requires id < w.nextAuction
    requires v.sold == w.sold[id := w.auctions[id]] || (v.sold == w.sold && w.auctions[id].bidder == 0)
    requires v.charges == w.charges && v.lost == w.lost
    requires forall i, p :: Refunded(v.mails, i, p) == Refunded(w.mails, i, p)
    ensures Balanced(v)
  {
    forall i, p | p != 0
      ensures Owed(v, i, p) == Stake(v, i, p)
    {
      assert Owed(w, i, p) == Stake(w, i, p);
    }
  }

  lemma ExpireKeeps(env: Env, w: World, id: nat)
    requires id in w.auctions && Items(w) && Books(w) && w.auctions[id].bid == 0
    ensures var v := Expire(env, w, id); Items(v) && Books(v)
  {
    hide SendItem, OnePlace, Balanced;
    var a := w.auctions[id];
    assert SoundAuction(a);
    SendItemEffect(env, w, id, a.owner, Expired);
    SendItemOnePlace(env, w, id, a.owner, Expired);
    var w1 := SendItem(env, w, id, a.owner, Expired);
    var v := Expire(env, w, id);
    hide Escrowed;
    RemoveItems(w1, id, v);
    assert v.auctions == w.auctions - {id};
    ClosedBalanced(w, id, v);
  }

  // ----- Cancel -----

  lemma SettleCancelledEffect(env: Env, w: World, player: nat, id: nat)
    requires id in w.auctions && PursesCapped(w)
    ensures var v := SettleCancelled(env, w, player, id);
      && v.auctions == w.auctions && v.sold == w.sold && v.nextAuction == w.nextAuction && SamePlaces(w, v)
      && PursesCapped(v)
      && forall i, p :: p != 0 ==>
           Owed(v, i, p) == Owed(w, i, p) - (if i == id && p == w.auctions[id].bidder then w.auctions[id].bid else 0)
  {
    var a := w.auctions[id];
    AppendCharge(w.lost, Charge(a.bidder, id, a.bid));
    Append(w.mails, Mail(a.bidder, a.bid, 0, id, CancelledToBidder));
  }

  /** The cancelled item goes back to its owner. */
  lemma ReturnItem(w: World, id: nat, v: World, m: Mail)
    requires Items(w) && id in w.auctions && w.auctions[id].item in w.items && m.item == w.auctions[id].item
    requires v.auctions == w.auctions - {id} && v.items == w.items - {m.item} && v.mails == w.mails + [m]
    requires v.destroyed == w.destroyed && v.nextItem == w.nextItem && v.nextAuction == w.nextAuction
    ensures Items(v)
  {
    Append(w.mails, m);
    forall g | g in v.items
      ensures exists i :: i in v.auctions && v.auctions[i].item == g
    {
      var i :| i in w.auctions && w.auctions[i].item == g;
      assert v.auctions[i].item == g;
    }
    forall g: nat | g != 0
      ensures Places(v, g) == Places(w, g)
    {
    }
  }

  lemma CancelKeeps(env: Env, w: World, player: nat, house: nat, id: nat)
    requires Items(w) && Books(w)
    ensures var v := Cancel(env, w, player, house, id); Items(v) && Books(v)
  {
    if MayCancel(w, player, house, id) {
      var a := w.auctions[id];
      var w1 := if a.bid == 0 then w else SettleCancelled(env, w, player, id);
      assert SoundAuction(a);
      if a.bid != 0 { SettleCancelledEffect(env, w, player, id); }
      hide SettleCancelled, OnePlace, SamePlaces, Balanced;
      var m := Mail(player, 0, a.item, id, Cancelled);
      var v := Cancel(env, w, player, house, id);
      SameItems(w, w1);
      ReturnItem(w1, id, v, m);
      Append(w1.mails, m);
      hide Items;
      CancelledBalanced(w, id, v);
    }
  }

  /** After a cancellation nobody has a stake in the auction any more. */
  lemma CancelledBalanced(w: World, id: nat, v: World)
    requires id in w.auctions && v.auctions == w.auctions - {id} && v.nextAuction == w.nextAuction && Balanced(w)
    requires v.sold == w.sold
    requires forall i, p :: p != 0 ==>
      Owed(v, i, p) == Owed(w, i, p) - (if i == id && p == w.auctions[id].bidder then w.auctions[id].bid else 0)
    ensures Balanced(v)
  {
    forall i, p | p != 0
      ensures Owed(v, i, p) == Stake(v, i, p)
    {
      assert Owed(w, i, p) == Stake(w, i, p);
      hide Owed;
    }
  }

  lemma SameItems(w: World, v: World)
    requires Items(w) && v.auctions == w.auctions && v.nextAuction == w.nextAuction && SamePlaces(w, v)
    ensures Items(v)
  {
    OnePlaceFrame(w, v);
  }

  // ----- Update -----

  lemma UpdateOneKeeps(env: Env, w: World, id: nat)
    requires id in w.auctions && Items(w) && Books(w) && env.now >= 0
    ensures var v := UpdateOne(env, w, id); Items(v) && Books(v)
  {
    hide Items, Balanced, PursesCapped, Deliver, Expire, AuctionBidWinning;
    var a := w.auctions[id];
    assert SoundAuction(a);
    if !a.Active() {
      DeliverKeeps(env, w, id);
    } else if a.bid == 0 {
      ExpireKeeps(env, w, id);
    } else {
      ItemsEscrowed(w);
      WinItems(env, w, id);
      WinBooks(env, w, id);
    }
  }

  lemma ItemsEscrowed(w: World)
    requires Items(w)
    ensures Escrowed(w)
  {
  }

  lemma {:induction false} UpdateBelowKeeps(env: Env, w: World, house: nat, n: nat)
    requires Items(w) && Books(w) && env.now >= 0
    ensures var v := UpdateBelow(env, w, house, n); Items(v) && Books(v)
  {
    hide Items, Books, UpdateOne;
    if n > 0 {
      UpdateBelowKeeps(env, w, house, n - 1);
      var v := UpdateBelow(env, w, house, n - 1);
      if n - 1 in v.auctions { UpdateOneKeeps(env, v, n - 1); }
    }
  }
}
