/** What every operation keeps: items in escrow match the active auctions, every item is in
    one place, bids stay below their buyouts, and every bidder's account with an auction is
    his standing bid. */
module AuctionEscrow {
  import opened AuctionHouse

  // ----- the invariants -----

  /** An active auction holds an escrowed item, a pending one holds none. */
  ghost predicate HoldsItem(w: World, a: Auction) {
    if a.Active() then a.item in w.items else a.item == 0
  }

  /** Ids and item numbers in use are below the next free ones. */
  ghost predicate Numbered(w: World) {
    && w.nextItem >= 1
    && (forall id :: id in w.auctions ==> id < w.nextAuction)
    && (forall g :: g in w.items ==> 1 <= g < w.nextItem)
  }

  /** Every escrowed item belongs to exactly one auction. */
  ghost predicate Matched(w: World) {
    && (forall g :: g in w.items ==> exists id :: id in w.auctions && w.auctions[id].item == g)
    && (forall i, j :: i in w.auctions && j in w.auctions && w.auctions[i].item == w.auctions[j].item != 0 ==> i == j)
  }

  /** Active auctions map one-to-one onto the escrowed items; pending ones hold none. */
  ghost predicate Escrowed(w: World) {
    Numbered(w) && Matched(w) && forall id :: id in w.auctions ==> HoldsItem(w, w.auctions[id])
  }

  /** The same while auction `id` is being settled. */
  ghost predicate EscrowedBut(w: World, id: nat) {
    && Numbered(w) && Matched(w) && id in w.auctions
    && (w.auctions[id].item in w.items || w.auctions[id].item == 0)
    && forall i :: i in w.auctions && i != id ==> HoldsItem(w, w.auctions[i])
  }

  function MailsWith(mails: seq<Mail>, g: nat): nat {
    if mails == [] then 0
    else MailsWith(mails[..|mails| - 1], g) + if mails[|mails| - 1].item == g then 1 else 0
  }

  /** In how many places is item `g`? */
  function Places(w: World, g: nat): nat {
    (if g in w.items then 1 else 0) + MailsWith(w.mails, g) + (if g in w.destroyed then 1 else 0)
  }

  /** Every item ever auctioned is in escrow, in one mail, or destroyed: exactly one of them. */
  ghost predicate OnePlace(w: World) {
    forall g: nat :: g != 0 ==> Places(w, g) == if g < w.nextItem then 1 else 0
  }

  /** Bids and buyouts. */
  ghost predicate SoundAuction(a: Auction) {
    && (a.buyout != 0 ==> a.bid <= a.buyout)
    && (a.Active() && a.buyout != 0 ==> a.bid < a.buyout)
    && (a.bid == 0 ==> a.bidder == 0)
    && (!a.Active() ==> a.bid != 0)
    && (a.bidder != 0 ==> a.bidder != a.owner)
  }

  ghost predicate SoundAuctions(w: World) {
    forall id :: id in w.auctions ==> SoundAuction(w.auctions[id])
  }

  ghost predicate PursesCapped(w: World) {
    forall p :: p in w.purses ==> w.purses[p] <= MAX_MONEY
  }

  // ----- a bidder's account with an auction -----

  function Charged(charges: seq<Charge>, id: nat, player: nat): int {
    if charges == [] then 0
    else
      var c := charges[|charges| - 1];
      Charged(charges[..|charges| - 1], id, player) + if c.auction == id && c.player == player then c.amount else 0
  }

  function Refunded(mails: seq<Mail>, id: nat, player: nat): int {
    if mails == [] then 0
    else
      var m := mails[|mails| - 1];
      Refunded(mails[..|mails| - 1], id, player) + if IsRefund(m, id, player) then m.money else 0
  }

  /** What `player` has paid into auction `id` and not got back, counting refunds that were
      lost because his character was gone. */
  function Owed(w: World, id: nat, player: nat): int {
    Charged(w.charges, id, player) - Refunded(w.mails, id, player) - Charged(w.lost, id, player)
  }

  /** What he should have in it: his standing bid, or the final bid of an auction he won. */
  function Stake(w: World, id: nat, player: nat): int {
    if id in w.auctions then (if w.auctions[id].bidder == player then w.auctions[id].bid else 0)
    else if id in w.sold && w.sold[id].bidder == player then w.sold[id].bid
    else 0
  }

  ghost predicate Balanced(w: World) {
    && (forall id :: id in w.sold ==> id !in w.auctions && id < w.nextAuction)
    && (forall id, p :: p != 0 ==> Owed(w, id, p) == Stake(w, id, p))
  }

  // ----- appending to the records -----

  predicate IsRefund(m: Mail, id: nat, player: nat) {
    m.auction == id && m.receiver == player && (m.kind == Outbidded || m.kind == CancelledToBidder)
  }

  lemma Append(mails: seq<Mail>, m: Mail)
    ensures forall g: nat :: MailsWith(mails + [m], g) == MailsWith(mails, g) + (if m.item == g then 1 else 0)
    ensures forall id, p ::
      Refunded(mails + [m], id, p) == Refunded(mails, id, p) + (if IsRefund(m, id, p) then m.money else 0)
  {
    assert (mails + [m])[..|mails|] == mails;
  }

  lemma AppendCharge(charges: seq<Charge>, c: Charge)
    ensures forall id, p ::
      Charged(charges + [c], id, p)
      == Charged(charges, id, p) + (if c.auction == id && c.player == p then c.amount else 0)
  {
    assert (charges + [c])[..|charges|] == charges;
  }

  // ----- sending an item -----

  /** Everything but the auction, the item and the mails is untouched. */
  ghost predicate SameBooks(w: World, v: World) {
    && v.charges == w.charges && v.lost == w.lost && v.sold == w.sold && v.purses == w.purses
    && v.nextAuction == w.nextAuction && v.nextItem == w.nextItem
    && forall i, p :: Refunded(v.mails, i, p) == Refunded(w.mails, i, p)
  }

  lemma SendItemEffect(env: Env, w: World, id: nat, receiver: nat, kind: MailKind)
    requires EscrowedBut(w, id) && kind != Outbidded && kind != CancelledToBidder
    ensures var v := SendItem(env, w, id, receiver, kind);
      && v.auctions == w.auctions[id := w.auctions[id].(item := 0)] && v.items == w.items - {w.auctions[id].item}
      && SameBooks(w, v) && EscrowedBut(v, id)
  {
    var a := w.auctions[id];
    var v := SendItem(env, w, id, receiver, kind);
    Append(w.mails, Mail(receiver, 0, a.item, id, kind));
    if a.item !in w.items { assert w.auctions[id := a] == w.auctions; }
    assert v.nextAuction == w.nextAuction && v.nextItem == w.nextItem;
    hide SendItem;
    SentEscrowed(w, id, v);
  }

  lemma SentEscrowed(w: World, id: nat, v: World)
    requires EscrowedBut(w, id) && v.nextAuction == w.nextAuction && v.nextItem == w.nextItem
    requires v.auctions == w.auctions[id := w.auctions[id].(item := 0)] && v.items == w.items - {w.auctions[id].item}
    ensures EscrowedBut(v, id)
  {
    forall g | g in v.items
      ensures exists i :: i in v.auctions && v.auctions[i].item == g
    {
      var i :| i in w.auctions && w.auctions[i].item == g;
      assert v.auctions[i].item == g;
    }
  }

  lemma SendItemOnePlace(env: Env, w: World, id: nat, receiver: nat, kind: MailKind)
    requires EscrowedBut(w, id) && OnePlace(w)
    ensures OnePlace(SendItem(env, w, id, receiver, kind))
  {
    var item, v := w.auctions[id].item, SendItem(env, w, id, receiver, kind);
    if item in w.items {
      assert item != 0 && Places(w, item) == 1;
      assert v.items == w.items - {item} && v.nextItem == w.nextItem;
      var m := Mail(receiver, 0, item, id, kind);
      assert (v.mails == w.mails + [m] && v.destroyed == w.destroyed)
          || (v.mails == w.mails && v.destroyed == w.destroyed + {item});
      hide SendItem, EscrowedBut, Places;
      forall g: nat | g != 0
        ensures Places(v, g) == Places(w, g)
      {
        ItemMoves(w, v, m, g);
      }
    }
  }

  /** An item leaves escrow for a mail, or for nowhere. */
  lemma ItemMoves(w: World, v: World, m: Mail, g: nat)
    requires m.item in w.items && Places(w, m.item) == 1 && v.items == w.items - {m.item}
    requires (v.mails == w.mails + [m] && v.destroyed == w.destroyed)
          || (v.mails == w.mails && v.destroyed == w.destroyed + {m.item})
    ensures Places(v, g) == Places(w, g)
  {
    AppendOne(w.mails, m, g);
    hide MailsWith;
  }

  lemma AppendOne(mails: seq<Mail>, m: Mail, g: nat)
    ensures MailsWith(mails + [m], g) == MailsWith(mails, g) + (if m.item == g then 1 else 0)
  {
    assert (mails + [m])[..|mails|] == mails;
  }
}
