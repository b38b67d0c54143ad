/** The owners' side of the auction house: how every listed entry ends, where its item goes, and
    what its owner has paid and earned. */
module AuctionLedger {
  import opened AuctionHouse
  import opened AuctionEscrow
  import opened AuctionSteps

  // ----- the invariants -----

  /** An entry keeps the terms it was listed with. */
  predicate SameTerms(l: Auction, a: Auction) {
    a == l.(bid := a.bid, bidder := a.bidder, moneyDeliveryTime := a.moneyDeliveryTime, item := a.item)
  }

  predicate Pending(w: World, id: nat) { id in w.auctions && !w.auctions[id].Active() }

  predicate Standing(w: World, id: nat) { id in w.auctions && w.auctions[id].Active() }

  predicate Listed(w: World, id: nat, a: Auction) {
    id in w.ledger.listed && SameTerms(w.ledger.listed[id], a)
  }

  ghost predicate TermsAt(w: World, id: nat) {
    && (id in w.auctions ==> Listed(w, id, w.auctions[id]))
    && (Standing(w, id) ==> w.auctions[id].item == w.ledger.listed[id].item)
    && (id in w.sold ==> Listed(w, id, w.sold[id]))
    && (id in w.ledger.expired ==> Listed(w, id, w.ledger.expired[id]))
    && (id in w.ledger.cancelled ==> Listed(w, id, w.ledger.cancelled[id]))
  }

  /** Every entry, open or closed, has the terms of its listing. */
  ghost predicate Terms(w: World) { forall id :: TermsAt(w, id) }

  function Outcomes(w: World, id: nat): nat {
    (if id in w.auctions then 1 else 0) + (if id in w.sold then 1 else 0)
    + (if id in w.ledger.expired then 1 else 0) + if id in w.ledger.cancelled then 1 else 0
  }

  /** Every listed id is open, sold, expired or cancelled, and only one of these. */
  ghost predicate OneOutcome(w: World) {
    forall id :: Outcomes(w, id) == if id in w.ledger.listed then 1 else 0
  }

  /** Each listing had an item of its own. */
  ghost predicate OwnItems(w: World) {
    && (forall id :: id in w.ledger.listed ==> id < w.nextAuction && 0 < w.ledger.listed[id].item < w.nextItem)
    && (forall i, j ::
          i in w.ledger.listed && j in w.ledger.listed && w.ledger.listed[i].item == w.ledger.listed[j].item ==>
            i == j)
  }

  /** The entry a won item belongs to: pending, or already sold. */
  predicate IsWon(w: World, id: nat) { Pending(w, id) || id in w.sold }

  function WonEntry(w: World, id: nat): Auction
    requires IsWon(w, id)
  {
    if id in w.auctions then w.auctions[id] else w.sold[id]
  }

  /** What a mail says about its auction. */
  predicate Tied(w: World, m: Mail) {
    match m.kind
    case Won => IsWon(w, m.auction) && IsLot(w, m) && m.money == 0 && m.receiver != 0
    case Expired =>
      m.auction in w.ledger.expired && IsLot(w, m) && m.money == 0
      && m.receiver == w.ledger.expired[m.auction].owner
    case Cancelled =>
      m.auction in w.ledger.cancelled && IsLot(w, m) && m.money == 0
      && m.receiver == w.ledger.cancelled[m.auction].owner
    case Successful =>
      m.auction in w.sold && m.item == 0 && m.receiver == w.sold[m.auction].owner
      && m.money == Profit(w.sold[m.auction])
    case Outbidded => m.item == 0
    case CancelledToBidder => m.item == 0
  }

  /** The mail carries the item that was listed. */
  predicate IsLot(w: World, m: Mail) {
    m.auction in w.ledger.listed && m.item == w.ledger.listed[m.auction].item
  }

  /** The item of a cancelled auction was mailed back. */
  ghost predicate Returned(w: World, id: nat) {
    exists i :: 0 <= i < |w.mails| && w.mails[i].kind == Cancelled && w.mails[i].auction == id
  }

  ghost predicate Traced(w: World) {
    && (forall i :: 0 <= i < |w.mails| ==> Tied(w, w.mails[i]))
    && (forall id :: id in w.ledger.cancelled ==> Returned(w, id))
  }

  /** Every won item went to the bidder of its entry. */
  ghost predicate Winners(w: World) {
    forall i :: 0 <= i < |w.mails| && w.mails[i].kind == Won && IsWon(w, w.mails[i].auction) ==>
      w.mails[i].receiver == WonEntry(w, w.mails[i].auction).bidder
  }

  // ----- an owner's account -----

  predicate IsProfit(m: Mail, id: nat, player: nat) {
    m.kind == Successful && m.auction == id && m.receiver == player
  }

  function Earned(mails: seq<Mail>, id: nat, player: nat): int {
    if mails == [] then 0
    else
      var m := mails[|mails| - 1];
      Earned(mails[..|mails| - 1], id, player) + if IsProfit(m, id, player) then m.money else 0
  }

  /** What `player` has earned with auction `id` less what he paid for it, counting profits that
      were lost because his character was gone. */
  function OwnerNet(w: World, id: nat, player: nat): int {
    Earned(w.mails, id, player) + Charged(w.ledger.unpaid, id, player) - Charged(w.ledger.fees, id, player)
  }

  function CancelFee(a: Auction): nat {
    if a.bid != 0 then a.Cut() else 0
  }

  /** What it should be: the deposit gone, the profit of a sale, the cut of a cancellation. */
  function OwnerShare(w: World, id: nat, player: nat): int {
    if id !in w.ledger.listed || w.ledger.listed[id].owner != player then 0
    else
      (if id in w.sold then Profit(w.sold[id]) else 0)
      - (if id in w.ledger.cancelled then CancelFee(w.ledger.cancelled[id]) else 0)
      - w.ledger.listed[id].deposit
  }

  ghost predicate OwnersBalanced(w: World) {
    forall id, p :: p != 0 ==> OwnerNet(w, id, p) == OwnerShare(w, id, p)
  }

  ghost predicate Shape(w: World) { Terms(w) && OneOutcome(w) && OwnItems(w) }

  ghost predicate Ledgers(w: World) { Shape(w) && Traced(w) && OwnersBalanced(w) }

  const NO_MAIL: Mail := Mail(0, 0, 0, 0, Outbidded)

  // ----- frames -----

  lemma EarnedAppend(mails: seq<Mail>, m: Mail)
    ensures forall id, p ::
      Earned(mails + [m], id, p) == Earned(mails, id, p) + (if IsProfit(m, id, p) then m.money else 0)
  {
    assert (mails + [m])[..|mails|] == mails;
  }

  /** Nothing written down is lost, and a won entry stays won. */
  ghost predicate Extends(w: World, v: World) {
    && (forall id :: id in w.ledger.listed ==> id in v.ledger.listed && v.ledger.listed[id] == w.ledger.listed[id])
    && (forall id :: id in w.ledger.expired ==> id in v.ledger.expired && v.ledger.expired[id] == w.ledger.expired[id])
    && (forall id :: id in w.ledger.cancelled ==>
        id in v.ledger.cancelled && v.ledger.cancelled[id] == w.ledger.cancelled[id])
    && (forall id :: id in w.sold ==> id in v.sold && v.sold[id] == w.sold[id])
    && (forall id :: IsWon(w, id) ==> IsWon(v, id))
  }

  lemma TiedStays(w: World, v: World, m: Mail)
    requires Extends(w, v) && Tied(w, m)
    ensures Tied(v, m)
  {
  }

  /** The mails of `v` are those of `w`, and perhaps one more. */
  predicate OneMore(w: World, v: World, m: Mail) {
    v.mails == w.mails || v.mails == w.mails + [m]
  }

  lemma TracedMore(w: World, v: World, m: Mail)
    requires Extends(w, v) && Traced(w) && OneMore(w, v, m) && (v.mails != w.mails ==> Tied(v, m))
    requires v.ledger.cancelled == w.ledger.cancelled || (
      v.mails != w.mails && m.kind == Cancelled && v.ledger.cancelled.Keys == w.ledger.cancelled.Keys + {m.auction})
    ensures Traced(v)
  {
    hide Extends, Tied;
    forall i | 0 <= i < |v.mails| ensures Tied(v, v.mails[i]) {
      if i < |w.mails| { TiedStays(w, v, w.mails[i]); }
    }
    forall id | id in v.ledger.cancelled ensures Returned(v, id) {
      if id in w.ledger.cancelled {
        var i :| 0 <= i < |w.mails| && w.mails[i].kind == Cancelled && w.mails[i].auction == id;
        assert v.mails[i] == w.mails[i];
      } else {
        assert v.mails[|w.mails|] == m;
      }
    }
  }

  /** Won entries keep their bidders. */
  ghost predicate SameWinners(w: World, v: World) {
    forall id :: IsWon(w, id) ==> IsWon(v, id) && WonEntry(v, id).bidder == WonEntry(w, id).bidder
  }

  /** A mail that is no won item, or goes to the bidder, added to a world with right winners. */
  lemma WinnersMore(w: World, v: World, m: Mail)
    requires Winners(w) && Traced(w) && SameWinners(w, v) && OneMore(w, v, m)
    requires m.kind == Won && IsWon(v, m.auction) ==> m.receiver == WonEntry(v, m.auction).bidder
    ensures Winners(v)
  {
    forall i | 0 <= i < |v.mails| && v.mails[i].kind == Won && IsWon(v, v.mails[i].auction)
      ensures v.mails[i].receiver == WonEntry(v, v.mails[i].auction).bidder
    {
      if i < |w.mails| { assert Tied(w, w.mails[i]); }
    }
  }

  /** No profit mail, no new fee: the owners' accounts stand. */
  lemma OwnersSame(w: World, v: World, m: Mail)
    requires v.ledger == w.ledger && v.sold == w.sold && OwnersBalanced(w)
    requires OneMore(w, v, m) && m.kind != Successful
    ensures OwnersBalanced(v)
  {
    EarnedAppend(w.mails, m);
    forall id, p | p != 0 ensures OwnerNet(v, id, p) == OwnerShare(v, id, p) {
      assert OwnerNet(w, id, p) == OwnerShare(w, id, p);
    }
  }

  /** An open entry changes its bid or becomes pending. */
  ghost predicate EntrySet(w: World, v: World, id: nat) {
    && id in w.auctions && id in v.auctions && v.auctions == w.auctions[id := v.auctions[id]]
    && v.ledger == w.ledger && v.sold == w.sold && v.nextAuction == w.nextAuction && v.nextItem == w.nextItem
    && SameTerms(w.auctions[id], v.auctions[id])
    && (v.auctions[id].Active() ==> w.auctions[id].Active() && v.auctions[id].item == w.auctions[id].item)
  }

  lemma EntrySetShape(w: World, v: World, id: nat)
    requires EntrySet(w, v, id) && Shape(w)
    ensures Shape(v) && Extends(w, v)
    ensures w.auctions[id].Active() || v.auctions[id].bidder == w.auctions[id].bidder ==> SameWinners(w, v)
  {
    hide OwnItems, Terms, OneOutcome;
    EntrySetTerms(w, v, id);
    EntrySetRest(w, v, id);
    EntrySetFrames(w, v, id);
  }

  lemma EntrySetTerms(w: World, v: World, id: nat)
    requires EntrySet(w, v, id) && Terms(w)
    ensures Terms(v)
  {
    hide SameTerms;
    forall i ensures TermsAt(v, i) {
      assert TermsAt(w, i);
      if i == id { SameTermsTwice(w.ledger.listed[id], w.auctions[id], v.auctions[id]); }
    }
  }

  lemma EntrySetRest(w: World, v: World, id: nat)
    requires EntrySet(w, v, id) && OneOutcome(w) && OwnItems(w)
    ensures OneOutcome(v) && OwnItems(v)
  {
    hide SameTerms;
    forall i ensures Outcomes(v, i) == Outcomes(w, i) {}
  }

  lemma EntrySetFrames(w: World, v: World, id: nat)
    requires EntrySet(w, v, id)
    ensures Extends(w, v)
    ensures w.auctions[id].Active() || v.auctions[id].bidder == w.auctions[id].bidder ==>
              (OneOutcome(w) ==> SameWinners(w, v))
  {
    hide SameTerms;
    if OneOutcome(w) { assert Outcomes(w, id) <= 1; }
  }

  lemma SameTermsTwice(l: Auction, a: Auction, b: Auction)
    requires SameTerms(l, a) && SameTerms(a, b)
    ensures SameTerms(l, b)
  {
  }

  /** An open entry is closed: its last version goes to exactly one of the three records. */
  ghost predicate EntryClosed(w: World, v: World, id: nat) {
    && id in w.auctions && v.auctions == w.auctions - {id}
    && v.nextAuction == w.nextAuction && v.nextItem == w.nextItem && v.ledger.listed == w.ledger.listed
    && var a := w.auctions[id];
       || (!a.Active() && v.sold == w.sold[id := a]
           && v.ledger.expired == w.ledger.expired && v.ledger.cancelled == w.ledger.cancelled)
       || (a.Active() && v.sold == w.sold
           && v.ledger.expired == w.ledger.expired[id := a] && v.ledger.cancelled == w.ledger.cancelled)
       || (a.Active() && v.sold == w.sold
           && v.ledger.expired == w.ledger.expired && v.ledger.cancelled == w.ledger.cancelled[id := a])
  }

  lemma EntryClosedShape(w: World, v: World, id: nat)
    requires EntryClosed(w, v, id) && Shape(w)
    ensures Shape(v) && Extends(w, v) && SameWinners(w, v)
  {
    hide OwnItems, Terms, OneOutcome, EntryClosed, Extends, SameWinners;
    EntryClosedTerms(w, v, id);
    EntryClosedRest(w, v, id);
    EntryClosedFrames(w, v, id);
  }

  lemma EntryClosedTerms(w: World, v: World, id: nat)
    requires EntryClosed(w, v, id) && Terms(w)
    ensures Terms(v)
  {
    hide SameTerms;
    forall i ensures TermsAt(v, i) { assert TermsAt(w, i) && TermsAt(w, id); }
  }

  lemma EntryClosedRest(w: World, v: World, id: nat)
    requires EntryClosed(w, v, id) && OneOutcome(w) && OwnItems(w)
    ensures OneOutcome(v) && OwnItems(v)
  {
    forall i ensures Outcomes(v, i) == Outcomes(w, i) { assert Outcomes(w, i) <= 1 && Outcomes(w, id) <= 1; }
  }

  lemma EntryClosedFrames(w: World, v: World, id: nat)
    requires EntryClosed(w, v, id) && OneOutcome(w)
    ensures Extends(w, v) && SameWinners(w, v)
  {
    assert Outcomes(w, id) <= 1;
  }

  // ----- AddAuction -----

  lemma AddLedgers(env: Env, w: World, house: nat, owner: nat, startbid: nat, buyout: nat, deposit: nat, duration: nat,
                   cutRate: Rate)
    requires Ledgers(w) && w.nextItem >= 1
    ensures var v := AddAuction(env, w, house, owner, startbid, buyout, deposit, duration, cutRate);
      Ledgers(v) && (Winners(w) ==> Winners(v))
  {
    hide Traced, OwnersBalanced, Winners, Terms, Shape;
    var v := AddAuction(env, w, house, owner, startbid, buyout, deposit, duration, cutRate);
    var a := v.auctions[w.nextAuction];
    AddShape(w, v, a);
    AddOwners(env, w, house, owner, startbid, buyout, deposit, duration, cutRate);
    hide AddAuction;
    TracedMore(w, v, NO_MAIL);
    if Winners(w) { WinnersMore(w, v, NO_MAIL); }
  }

  /** A fresh entry is listed under the next id. */
  ghost predicate EntryAdded(w: World, v: World, a: Auction) {
    && a.item == w.nextItem && a.Active() && v.auctions == w.auctions[w.nextAuction := a]
    && v.ledger == w.ledger.List(w.nextAuction, a) && v.sold == w.sold
    && v.nextAuction == w.nextAuction + 1 && v.nextItem == w.nextItem + 1
  }

  lemma AddShape(w: World, v: World, a: Auction)
    requires Shape(w) && w.nextItem >= 1 && EntryAdded(w, v, a)
    ensures Shape(v) && Extends(w, v) && SameWinners(w, v)
  {
    hide Terms, OneOutcome;
    Unlisted(w);
    hide OwnItems;
    AddTerms(w, v, a);
    AddRest(w, v, a);
    AddItemsOwn(w, v, a);
  }

  lemma Unlisted(w: World)
    requires OwnItems(w)
    ensures w.nextAuction !in w.ledger.listed
  {
  }

  lemma AddTerms(w: World, v: World, a: Auction)
    requires Terms(w) && OneOutcome(w) && EntryAdded(w, v, a) && w.nextAuction !in w.ledger.listed
    ensures Terms(v)
  {
    assert SameTerms(a, a);
    hide SameTerms;
    forall i ensures TermsAt(v, i) { assert TermsAt(w, i) && Outcomes(w, w.nextAuction) == 0; }
  }

  lemma AddRest(w: World, v: World, a: Auction)
    requires OneOutcome(w) && EntryAdded(w, v, a) && w.nextAuction !in w.ledger.listed
    ensures OneOutcome(v) && Extends(w, v) && SameWinners(w, v)
  {
    assert Outcomes(w, w.nextAuction) == 0;
    AddFrames(w, v, a);
    hide Extends, SameWinners;
    forall i ensures Outcomes(v, i) == if i in v.ledger.listed then 1 else 0 { assert Outcomes(w, i) <= 1; }
  }

  lemma AddFrames(w: World, v: World, a: Auction)
    requires EntryAdded(w, v, a) && w.nextAuction !in w.ledger.listed && Outcomes(w, w.nextAuction) == 0
    ensures Extends(w, v) && SameWinners(w, v)
  {
  }

  lemma AddItemsOwn(w: World, v: World, a: Auction)
    requires OwnItems(w) && w.nextItem >= 1 && EntryAdded(w, v, a)
    ensures OwnItems(v)
  {
  }

  lemma AddOwners(env: Env, w: World, house: nat, owner: nat, startbid: nat, buyout: nat, deposit: nat, duration: nat,
                  cutRate: Rate)
    requires Shape(w) && OwnersBalanced(w)
    ensures OwnersBalanced(AddAuction(env, w, house, owner, startbid, buyout, deposit, duration, cutRate))
  {
    hide Terms;
    AppendCharge(w.ledger.fees, Charge(owner, w.nextAuction, deposit));
    Unlisted(w);
    assert Outcomes(w, w.nextAuction) == 0;
    hide OneOutcome, OwnItems;
    var v := AddAuction(env, w, house, owner, startbid, buyout, deposit, duration, cutRate);
    forall id, p | p != 0 ensures OwnerNet(v, id, p) == OwnerShare(v, id, p) {
      assert OwnerNet(w, id, p) == OwnerShare(w, id, p);
    }
  }

  // ----- bids -----

  /** The records a bid does not touch, and the one mail it may send. */
  lemma TakeBidRecords(env: Env, w: World, id: nat, amount: nat, bidder: nat)
    requires id in w.auctions
    ensures var v := TakeBid(env, w, id, amount, bidder);
      && v.ledger == w.ledger && v.sold == w.sold && v.auctions == w.auctions && v.nextItem == w.nextItem
      && v.nextAuction == w.nextAuction
      && OneMore(w, v, Mail(w.auctions[id].bidder, w.auctions[id].bid, 0, id, Outbidded))
  {
  }

  lemma EnterBidLedgers(env: Env, w: World, id: nat, amount: nat, bidder: nat)
    requires id in w.auctions && Ledgers(w)
    ensures var v := EnterBid(env, w, id, amount, bidder);
      && Ledgers(v)
      && (Winners(w) && (w.auctions[id].Active() || bidder == w.auctions[id].bidder) ==> Winners(v))
  {
    hide Traced, OwnersBalanced, Winners, TakeBid, Shape, Extends, SameWinners;
    TakeBidRecords(env, w, id, amount, bidder);
    var v := EnterBid(env, w, id, amount, bidder);
    var m := Mail(w.auctions[id].bidder, w.auctions[id].bid, 0, id, Outbidded);
    EntrySetShape(w, v, id);
    TracedMore(w, v, m);
    OwnersSame(w, v, m);
    if Winners(w) && (w.auctions[id].Active() || bidder == w.auctions[id].bidder) { WinnersMore(w, v, m); }
  }

  /** A win: the entry is pending, and a mail, if any, carries its item to the bidder. */
  lemma WinRecords(env: Env, w: World, id: nat)
    requires id in w.auctions && Escrowed(w)
    ensures var a := w.auctions[id]; var v := AuctionBidWinning(env, w, id);
      && v.ledger == w.ledger && v.sold == w.sold && v.nextItem == w.nextItem && v.nextAuction == w.nextAuction
      && v.auctions == w.auctions[id := a.(moneyDeliveryTime := env.now + HOUR, item := 0)]
      && (v.mails == w.mails
          || (a.Active() && a.bidder != 0 && v.mails == w.mails + [Mail(a.bidder, 0, a.item, id, Won)]))
  {
    WinEffect(env, w, id);
    assert HoldsItem(w, w.auctions[id]);
  }

  lemma WinLedgers(env: Env, w: World, id: nat)
    requires id in w.auctions && Escrowed(w) && Ledgers(w) && env.now >= 0
    ensures var v := AuctionBidWinning(env, w, id);
      Ledgers(v) && (Winners(w) ==> Winners(v))
  {
    hide Traced, OwnersBalanced, Winners, AuctionBidWinning, Shape, Extends, SameWinners, Escrowed;
    WinRecords(env, w, id);
    var a := w.auctions[id];
    var v := AuctionBidWinning(env, w, id);
    var m := Mail(a.bidder, 0, a.item, id, Won);
    EntrySetShape(w, v, id);
    if v.mails != w.mails { StandingLot(w, id); }
    TracedMore(w, v, m);
    OwnersSame(w, v, m);
    if Winners(w) { WinnersMore(w, v, m); }
  }

  lemma StandingLot(w: World, id: nat)
    requires Shape(w) && Standing(w, id)
    ensures id in w.ledger.listed && w.auctions[id].item == w.ledger.listed[id].item
    ensures w.auctions[id].owner == w.ledger.listed[id].owner
  {
    assert TermsAt(w, id);
  }

  /** A bid keeps the owners' books; on an active auction, or by the bidder himself, it also keeps
      the won items with the bidders. */
  lemma UpdateBidLedgers(env: Env, w: World, id: nat, newbid: nat, bidder: nat)
    requires id in w.auctions && Items(w) && Ledgers(w) && env.now >= 0
    ensures var v := UpdateBid(env, w, id, newbid, bidder);
      && Ledgers(v)
      && (Winners(w) && (w.auctions[id].Active() || bidder == w.auctions[id].bidder) ==> Winners(v))
  {
    hide TakeBid, AuctionBidWinning, Ledgers, Winners, Items;
    var amount := Capped(w.auctions[id], newbid);
    EnterBidItems(env, w, id, amount, bidder);
    EnterBidLedgers(env, w, id, amount, bidder);
    TakeBidRecords(env, w, id, amount, bidder);
    var v := EnterBid(env, w, id, amount, bidder);
    ItemsEscrowed(v);
    WinLedgers(env, v, id);
  }

  // ----- closing -----

  lemma DeliverLedgers(env: Env, w: World, id: nat)
    requires Ledgers(w) && Pending(w, id)
    ensures var v := Deliver(env, w, id);
      Ledgers(v) && (Winners(w) ==> Winners(v))
  {
    hide Traced, OwnersBalanced, Winners, Profit, Shape, Extends, SameWinners;
    var a := w.auctions[id];
    var v := Deliver(env, w, id);
    var m := Mail(a.owner, Profit(a), 0, id, Successful);
    EntryClosedShape(w, v, id);
    TracedMore(w, v, m);
    DeliverOwners(env, w, id);
    if Winners(w) { WinnersMore(w, v, m); }
  }

  lemma OpenEntry(w: World, id: nat)
    requires Shape(w) && id in w.auctions
    ensures id in w.ledger.listed && id !in w.sold && id !in w.ledger.expired && id !in w.ledger.cancelled
    ensures w.ledger.listed[id].owner == w.auctions[id].owner && w.ledger.listed[id].deposit == w.auctions[id].deposit
  {
    assert TermsAt(w, id) && Outcomes(w, id) <= 1;
  }

  lemma DeliverOwners(env: Env, w: World, id: nat)
    requires Pending(w, id) && Shape(w) && OwnersBalanced(w)
    ensures OwnersBalanced(Deliver(env, w, id))
  {
    hide Profit, OwnersBalanced;
    OpenEntry(w, id);
    hide Shape;
    var v := Deliver(env, w, id);
    var a := w.auctions[id];
    var m, c := Mail(a.owner, Profit(a), 0, id, Successful), Charge(a.owner, id, Profit(a));
    assert v.sold == w.sold[id := a] && v.ledger.listed == w.ledger.listed && v.ledger.cancelled == w.ledger.cancelled;
    hide Deliver;
    DeliveredOwners(w, id, v, m, c);
  }

  /** The profit is mailed or missed; either way it enters the owner's account. */
  lemma DeliveredOwners(w: World, id: nat, v: World, m: Mail, c: Charge)
    requires id in w.auctions && id !in w.sold && id !in w.ledger.cancelled && OwnersBalanced(w)
    requires var a := w.auctions[id];
      && id in w.ledger.listed && w.ledger.listed[id].owner == a.owner && v.sold == w.sold[id := a]
      && m == Mail(a.owner, Profit(a), 0, id, Successful) && c == Charge(a.owner, id, Profit(a))
    requires v.ledger.listed == w.ledger.listed && v.ledger.cancelled == w.ledger.cancelled
    requires v.ledger.fees == w.ledger.fees
    requires || (v.mails == w.mails + [m] && v.ledger.unpaid == w.ledger.unpaid)
             || (v.mails == w.mails && v.ledger.unpaid == w.ledger.unpaid + [c])
    ensures OwnersBalanced(v)
  {
    hide Profit;
    EarnedAppend(w.mails, m);
    AppendCharge(w.ledger.unpaid, c);
    hide Earned, Charged;
    forall i, p | p != 0 ensures OwnerNet(v, i, p) == OwnerShare(v, i, p) {
      assert OwnerNet(w, i, p) == OwnerShare(w, i, p);
    }
  }

  lemma ExpireRecords(env: Env, w: World, id: nat)
    requires Standing(w, id) && Escrowed(w)
    ensures var a := w.auctions[id]; var v := Expire(env, w, id);
      && v.ledger == w.ledger.Expire(id, a) && v.sold == w.sold && v.nextItem == w.nextItem
      && v.nextAuction == w.nextAuction
      && v.auctions == w.auctions - {id}
      && (v.mails == w.mails || v.mails == w.mails + [Mail(a.owner, 0, a.item, id, Expired)])
  {
    SendItemEffect(env, w, id, w.auctions[id].owner, Expired);
  }

  lemma ExpireLedgers(env: Env, w: World, id: nat)
    requires Standing(w, id) && Escrowed(w) && Ledgers(w)
    ensures var v := Expire(env, w, id);
      Ledgers(v) && (Winners(w) ==> Winners(v))
  {
    hide Traced, OwnersBalanced, Winners, Expire, Escrowed, Shape, Extends, SameWinners;
    ExpireRecords(env, w, id);
    var a := w.auctions[id];
    var v := Expire(env, w, id);
    var m := Mail(a.owner, 0, a.item, id, Expired);
    EntryClosedShape(w, v, id);
    StandingLot(w, id);
    TracedMore(w, v, m);
    ExpireOwners(w, id, v, m);
    if Winners(w) { WinnersMore(w, v, m); }
  }

  lemma ExpireOwners(w: World, id: nat, v: World, m: Mail)
    requires id in w.auctions && v.ledger == w.ledger.Expire(id, w.auctions[id]) && v.sold == w.sold
    requires OwnersBalanced(w)
    requires OneMore(w, v, m) && m.kind != Successful
    ensures OwnersBalanced(v)
  {
    EarnedAppend(w.mails, m);
    forall i, p | p != 0 ensures OwnerNet(v, i, p) == OwnerShare(v, i, p) {
      assert OwnerNet(w, i, p) == OwnerShare(w, i, p);
    }
  }

  lemma CancelRecords(env: Env, w: World, player: nat, house: nat, id: nat)
    requires MayCancel(w, player, house, id)
    ensures var a := w.auctions[id]; var v := Cancel(env, w, player, house, id);
      && v.ledger == w.ledger.Cancel(id, a) && v.sold == w.sold && v.nextItem == w.nextItem
      && v.nextAuction == w.nextAuction
      && v.auctions == w.auctions - {id}
      && CancelMail(w, v, id, player)
  {
  }

  lemma CancelLedgers(env: Env, w: World, player: nat, house: nat, id: nat)
    requires Ledgers(w) && Escrowed(w)
    ensures var v := Cancel(env, w, player, house, id);
      Ledgers(v) && (Winners(w) ==> Winners(v))
  {
    if MayCancel(w, player, house, id) {
      hide Traced, OwnersBalanced, Winners, Cancel, Shape, Extends, SameWinners;
      CancelRecords(env, w, player, house, id);
      var a := w.auctions[id];
      var v := Cancel(env, w, player, house, id);
      assert HoldsItem(w, a) && Standing(w, id);
      hide Escrowed;
      EntryClosedShape(w, v, id);
      CancelMails(w, id, v, player);
      CancelOwners(w, id, v, player);
    }
  }

  /** The mails of a cancellation: perhaps a refund, then the item for its owner. */
  predicate CancelMail(w: World, v: World, id: nat, player: nat)
    requires id in w.auctions
  {
    var a := w.auctions[id];
    var m1, m := Mail(a.bidder, a.bid, 0, id, CancelledToBidder), Mail(player, 0, a.item, id, Cancelled);
    v.mails == w.mails + [m] || v.mails == w.mails + [m1] + [m]
  }

  lemma CancelMails(w: World, id: nat, v: World, player: nat)
    requires Shape(w) && Traced(w) && Standing(w, id) && w.auctions[id].owner == player
    requires v.ledger == w.ledger.Cancel(id, w.auctions[id]) && CancelMail(w, v, id, player)
    requires Extends(w, v) && SameWinners(w, v)
    ensures Traced(v) && (Winners(w) ==> Winners(v))
  {
    hide Traced, Winners, Shape;
    var a := w.auctions[id];
    var m1, m := Mail(a.bidder, a.bid, 0, id, CancelledToBidder), Mail(player, 0, a.item, id, Cancelled);
    StandingLot(w, id);
    var u := if v.mails == w.mails + [m] then w else w.(mails := w.mails + [m1]);
    MailOnly(w, u, v);
    hide Extends, SameWinners;
    TracedMore(w, u, m1);
    TracedMore(u, v, m);
    if Winners(w) {
      WinnersMore(w, u, m1);
      WinnersMore(u, v, m);
    }
  }

  lemma MailOnly(w: World, u: World, v: World)
    requires u == w.(mails := u.mails) && Extends(w, v) && SameWinners(w, v)
    ensures Extends(w, u) && SameWinners(w, u) && Extends(u, v) && SameWinners(u, v)
  {
  }

  lemma CancelOwners(w: World, id: nat, v: World, player: nat)
    requires Standing(w, id) && w.auctions[id].owner == player && Shape(w) && OwnersBalanced(w)
    requires v.ledger == w.ledger.Cancel(id, w.auctions[id]) && v.sold == w.sold && CancelMail(w, v, id, player)
    ensures OwnersBalanced(v)
  {
    OpenEntry(w, id);
    hide Shape;
    var a := w.auctions[id];
    var m1, m := Mail(a.bidder, a.bid, 0, id, CancelledToBidder), Mail(player, 0, a.item, id, Cancelled);
    EarnedAppend(w.mails, m);
    EarnedAppend(w.mails, m1);
    EarnedAppend(w.mails + [m1], m);
    AppendCharge(w.ledger.fees, Charge(a.owner, id, a.Cut()));
    forall i, p | p != 0 ensures OwnerNet(v, i, p) == OwnerShare(v, i, p) {
      assert OwnerNet(w, i, p) == OwnerShare(w, i, p);
    }
  }

  // ----- Update -----

  lemma UpdateOneLedgers(env: Env, w: World, id: nat)
    requires id in w.auctions && Items(w) && Ledgers(w) && env.now >= 0
    ensures var v := UpdateOne(env, w, id);
      Ledgers(v) && (Winners(w) ==> Winners(v))
  {
    hide Ledgers, Winners, Items, Deliver, Expire, AuctionBidWinning;
    ItemsEscrowed(w);
    hide Escrowed;
    var a := w.auctions[id];
    if !a.Active() {
      DeliverLedgers(env, w, id);
    } else if a.bid == 0 {
      ExpireLedgers(env, w, id);
    } else {
      WinLedgers(env, w, id);
    }
  }

  lemma {:induction false} UpdateBelowLedgers(env: Env, w: World, house: nat, n: nat)
    requires Items(w) && Books(w) && Ledgers(w) && env.now >= 0
    ensures var v := UpdateBelow(env, w, house, n);
      Items(v) && Books(v) && Ledgers(v) && (Winners(w) ==> Winners(v))
  {
    hide Items, Books, Ledgers, Winners, UpdateOne;
    if n > 0 {
      UpdateBelowLedgers(env, w, house, n - 1);
      var v := UpdateBelow(env, w, house, n - 1);
      if n - 1 in v.auctions {
        UpdateOneKeeps(env, v, n - 1);
        UpdateOneLedgers(env, v, n - 1);
      }
    }
  }
}
