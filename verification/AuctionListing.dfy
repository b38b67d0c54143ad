/** The paged search of the auction house. */
module AuctionListing {

  const NO_FILTER: nat := 0xFFFF_FFFF
  const PAGE_SIZE: nat := 50

  /** The item of an auction and what the searching player can do with it.  The name is the lower
      case one in the player's language, absent if it is not valid UTF-8; `alreadyKnown` marks a
      recipe that teaches a spell the player has. */
  datatype Item = Item(
    itemClass: nat, subclass: nat, inventoryType: nat, quality: nat, requiredLevel: nat,
    canUse: bool, alreadyKnown: bool, name: Name)

  datatype Name = InvalidName | Name(text: seq<nat>)

  datatype EscrowedItem = Missing | Present(item: Item)

  datatype Entry = Entry(auction: nat, moneyDeliveryTime: int, escrowed: EscrowedItem)

  datatype Query = Query(
    search: seq<nat>, levelmin: nat, levelmax: nat, usable: bool,
    inventoryType: nat, itemClass: nat, itemSubClass: nat, quality: nat)

  predicate FoundAt(text: seq<nat>, search: seq<nat>, k: nat) {
    k + |search| <= |text| && text[k..k + |search|] == search
  }

  predicate Contains(text: seq<nat>, search: seq<nat>) {
    exists k: nat | k <= |text| :: FoundAt(text, search, k)
  }

  predicate Listed(e: Entry) { e.moneyDeliveryTime == 0 && e.escrowed.Present? }

  /** An auction the query asks for: active, its item in escrow, every given filter met. */
  predicate Matches(q: Query, e: Entry) {
    && Listed(e)
    && (q.itemClass == NO_FILTER || e.escrowed.item.itemClass == q.itemClass)
    && (q.itemSubClass == NO_FILTER || e.escrowed.item.subclass == q.itemSubClass)
    && (q.inventoryType == NO_FILTER || e.escrowed.item.inventoryType == q.inventoryType)
    && (q.quality == NO_FILTER || e.escrowed.item.quality >= q.quality)
    && (q.levelmin == 0 || e.escrowed.item.requiredLevel >= q.levelmin)
    && (q.levelmin == 0 || q.levelmax == 0 || e.escrowed.item.requiredLevel <= q.levelmax)
    && (q.usable ==> e.escrowed.item.canUse && !e.escrowed.item.alreadyKnown)
    && (q.search == [] || (e.escrowed.item.name.Name? && Contains(e.escrowed.item.name.text, q.search)))
  }

  /** The auctions in listing order that the query asks for. */
  function Filtered(q: Query, entries: seq<Entry>): seq<nat> {
    if entries == [] then []
    else
      var e := entries[|entries| - 1];
      Filtered(q, entries[..|entries| - 1]) + (if Matches(q, e) then [e.auction] else [])
  }

  function ListedAuctions(entries: seq<Entry>): seq<nat> {
    if entries == [] then []
    else
      var e := entries[|entries| - 1];
      ListedAuctions(entries[..|entries| - 1]) + (if Listed(e) then [e.auction] else [])
  }

  function Min(a: nat, b: nat): nat { if a < b then a else b }

  /** Positions listfrom to listfrom + 49 of a list. */
  function Page(list: seq<nat>, listfrom: nat): seq<nat> {
    list[Min(listfrom, |list|)..Min(listfrom + PAGE_SIZE, |list|)]
  }

  lemma PageGrows(list: seq<nat>, x: nat, listfrom: nat)
    ensures Page(list + [x], listfrom)
            == if |Page(list, listfrom)| < PAGE_SIZE && |list| >= listfrom then Page(list, listfrom) + [x]
               else Page(list, listfrom)
  {
    if |list| >= listfrom + PAGE_SIZE {
      assert Page(list + [x], listfrom) == Page(list, listfrom);
    } else if |list| >= listfrom {
      assert Page(list + [x], listfrom) == Page(list, listfrom) + [x];
    } else {
      assert Page(list + [x], listfrom) == [] == Page(list, listfrom);
    }
  }

  /** BuildListAuctionItems: one pass that counts every match and emits those of one page. */
  method BuildListAuctionItems(entries: seq<Entry>, q: Query, listfrom: nat, isFull: bool)
    returns (emitted: seq<nat>, count: nat, totalcount: nat)
    ensures count == |emitted|
    ensures !isFull ==> emitted == Page(Filtered(q, entries), listfrom) && totalcount == |Filtered(q, entries)|
    ensures isFull ==> emitted == ListedAuctions(entries) && totalcount == |emitted|
  {
    emitted, count, totalcount := [], 0, 0;
    for i := 0 to |entries|
      invariant count == |emitted|
      invariant !isFull ==> totalcount == |Filtered(q, entries[..i])|
      invariant !isFull ==> emitted == Page(Filtered(q, entries[..i]), listfrom)
      invariant isFull ==> emitted == ListedAuctions(entries[..i]) && totalcount == |emitted|
    {
      var e := entries[i];
      assert entries[..i + 1][..i] == entries[..i] && entries[..i + 1][i] == e;
      if e.moneyDeliveryTime != 0 || e.escrowed.Missing? {
        continue;
      }
      if isFull {
        count, emitted := count + 1, emitted + [e.auction];
      } else {
        var item := e.escrowed.item;
        if q.itemClass != NO_FILTER && item.itemClass != q.itemClass {
          continue;
        }
        if q.itemSubClass != NO_FILTER && item.subclass != q.itemSubClass {
          continue;
        }
        if q.inventoryType != NO_FILTER && item.inventoryType != q.inventoryType {
          continue;
        }
        if q.quality != NO_FILTER && item.quality < q.quality {
          continue;
        }
        if q.levelmin != 0
           && (item.requiredLevel < q.levelmin || (q.levelmax != 0 && item.requiredLevel > q.levelmax)) {
          continue;
        }
        if q.usable && (!item.canUse || item.alreadyKnown) {
          continue;
        }
        if q.search != [] && !(item.name.Name? && Contains(item.name.text, q.search)) {
          continue;
        }
        PageGrows(Filtered(q, entries[..i]), e.auction, listfrom);
        if count < PAGE_SIZE && totalcount >= listfrom {
          count, emitted := count + 1, emitted + [e.auction];
        }
      }
      totalcount := totalcount + 1;
    }
    assert entries[..|entries|] == entries;
  }

  // ----- the whole search -----

  /** The first `n` pages one after another, as a client that asks for 0, 50, 100, ... sees them. */
  function Pages(list: seq<nat>, n: nat): seq<nat> {
    if n == 0 then [] else Pages(list, n - 1) + Page(list, (n - 1) * PAGE_SIZE)
  }

  lemma {:induction false} PagesArePrefix(list: seq<nat>, n: nat)
    ensures Pages(list, n) == list[..Min(n * PAGE_SIZE, |list|)]
  {
    if n > 0 {
      PagesArePrefix(list, n - 1);
      assert (n - 1) * PAGE_SIZE + PAGE_SIZE == n * PAGE_SIZE;
    }
  }

  /** Enough pages give the whole filtered list, nothing lost and nothing twice. */
  lemma PagesCoverList(q: Query, entries: seq<Entry>, n: nat)
    requires n * PAGE_SIZE >= |Filtered(q, entries)|
    ensures Pages(Filtered(q, entries), n) == Filtered(q, entries)
  {
    PagesArePrefix(Filtered(q, entries), n);
  }

  /** The filtered list holds exactly the matching entries. */
  lemma {:induction false} FilteredIsMatches(q: Query, entries: seq<Entry>, auction: nat)
    ensures auction in Filtered(q, entries)
            <==> exists i :: 0 <= i < |entries| && Matches(q, entries[i]) && entries[i].auction == auction
  {
    if entries != [] {
      var n := |entries| - 1;
      FilteredIsMatches(q, entries[..n], auction);
      assert forall i :: 0 <= i < n ==> entries[i] == entries[..n][i];
    }
  }

  /** Listing two stretches one after another filters each on its own: order is kept. */
  lemma {:induction false} FilteredSplits(q: Query, front: seq<Entry>, back: seq<Entry>)
    ensures Filtered(q, front + back) == Filtered(q, front) + Filtered(q, back)
  {
    if back == [] {
      assert front + back == front;
    } else {
      var n := |back| - 1;
      FilteredSplits(q, front, back[..n]);
      assert (front + back)[..|front| + n] == front + back[..n];
    }
  }
}
