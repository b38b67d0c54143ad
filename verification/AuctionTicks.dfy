/** What an update settles, entry by entry: everything that is due in the three houses, and
    nothing else. */
module AuctionTicks {
  import opened AuctionHouse
  import opened AuctionEscrow
  import opened AuctionSteps
  import opened AuctionLedger
  import opened AuctionRuns

  /** Two worlds that agree on entry `id`. */
  predicate Agree(w: World, v: World, id: nat) {
    && (id in v.auctions <==> id in w.auctions) && (id in w.auctions ==> v.auctions[id] == w.auctions[id])
    && (id in v.sold <==> id in w.sold) && (id in w.sold ==> v.sold[id] == w.sold[id])
    && (id in v.ledger.expired <==> id in w.ledger.expired)
    && (id in w.ledger.expired ==> v.ledger.expired[id] == w.ledger.expired[id])
  }

  /** The entry has come home unsold. */
  predicate HasExpired(w: World, v: World, id: nat)
    requires id in w.auctions
  {
    id !in v.auctions && id in v.ledger.expired && v.ledger.expired[id] == w.auctions[id]
  }

  /** The entry is won, and its money is to be delivered an hour later. */
  predicate IsNowWon(w: World, v: World, id: nat, now: int)
    requires id in w.auctions
  {
    && id in v.auctions && v.auctions[id].moneyDeliveryTime == now + 3600 && v.auctions[id].bid == w.auctions[id].bid
    && v.auctions[id].bidder == w.auctions[id].bidder && SameTerms(w.auctions[id], v.auctions[id])
  }

  /** The money of the entry is delivered. */
  predicate HasSold(w: World, v: World, id: nat)
    requires id in w.auctions
  {
    id !in v.auctions && id in v.sold && v.sold[id] == w.auctions[id]
  }

  /** What an update at time `now` should do to entry `id`: end it when its time is over, and
      deliver its money when that is due. */
  predicate Ticked(w: World, v: World, id: nat, now: int)
    requires id in w.auctions
  {
    var a := w.auctions[id];
    if a.moneyDeliveryTime == 0 && a.expireTime < now then
      if a.bid == 0 then HasExpired(w, v, id) else IsNowWon(w, v, id, now)
    else if a.moneyDeliveryTime != 0 && a.moneyDeliveryTime < now then HasSold(w, v, id)
    else Agree(w, v, id)
  }

  lemma UpdateOneTicks(env: Env, w: World, id: nat)
    requires id in w.auctions
    ensures Ticked(w, UpdateOne(env, w, id), id, env.now)
    ensures forall i :: i != id ==> Agree(w, UpdateOne(env, w, id), i)
    ensures UpdateOne(env, w, id).nextAuction == w.nextAuction
  {
    hide Profit;
  }

  /** One pass over the ids below `n` of one house. */
  lemma {:induction false} UpdateBelowTicks(env: Env, w: World, house: nat, n: nat, id: nat)
    ensures var v := UpdateBelow(env, w, house, n);
      && v.nextAuction == w.nextAuction
      && if id < n && id in w.auctions && w.auctions[id].house == house then Ticked(w, v, id, env.now)
         else Agree(w, v, id)
  {
    hide UpdateOne, Ticked;
    if n > 0 {
      UpdateBelowTicks(env, w, house, n - 1, id);
      UpdateBelowTicks(env, w, house, n - 1, n - 1);
      var v := UpdateBelow(env, w, house, n - 1);
      if n - 1 in v.auctions {
        UpdateOneTicks(env, v, n - 1);
        var u := UpdateOne(env, v, n - 1);
        if id == n - 1 { AgreeThenTicked(w, v, u, id, env.now); } else { ThenAgree(w, v, u, id, env.now); }
      }
    }
  }

  lemma AgreeThenTicked(w: World, v: World, u: World, id: nat, now: int)
    requires Agree(w, v, id) && id in w.auctions && Ticked(v, u, id, now)
    ensures Ticked(w, u, id, now)
  {
  }

  lemma ThenAgree(w: World, v: World, u: World, id: nat, now: int)
    requires Agree(v, u, id)
    ensures Agree(w, v, id) ==> Agree(w, u, id)
    ensures id in w.auctions && Ticked(w, v, id, now) ==> Ticked(w, u, id, now)
  {
  }

  lemma TickedHouse(w: World, v: World, id: nat, now: int)
    requires id in w.auctions && Ticked(w, v, id, now)
    ensures id in v.auctions ==> v.auctions[id].house == w.auctions[id].house
  {
  }

  /** An update settles every due entry of the three houses, and leaves all others as they are. */
  lemma TickExact(env: Env, w: World, id: nat)
    requires id in w.auctions ==> id < w.nextAuction
    ensures var v := UpdateAll(env, w);
      if id in w.auctions && w.auctions[id].house < 3 then Ticked(w, v, id, env.now) else Agree(w, v, id)
  {
    hide UpdateBelow, Ticked;
    var w1 := UpdateHouse(env, w, 0);
    var w2 := UpdateHouse(env, w1, 1);
    var w3 := UpdateHouse(env, w2, 2);
    UpdateBelowTicks(env, w, 0, w.nextAuction, id);
    UpdateBelowTicks(env, w1, 1, w1.nextAuction, id);
    UpdateBelowTicks(env, w2, 2, w2.nextAuction, id);
    ThenTicked(w, w1, w2, id, env.now);
    ThenTicked(w, w2, w3, id, env.now);
  }

  /** Two passes, of which at most one is for the house of the entry. */
  lemma ThenTicked(w: World, v: World, u: World, id: nat, now: int)
    ensures Agree(w, v, id) && Agree(v, u, id) ==> Agree(w, u, id)
    ensures id in w.auctions && Ticked(w, v, id, now) && Agree(v, u, id) ==> Ticked(w, u, id, now)
    ensures id in w.auctions && id in v.auctions && Agree(w, v, id) && Ticked(v, u, id, now) ==> Ticked(w, u, id, now)
    ensures id in w.auctions && id in v.auctions && (Agree(w, v, id) || Ticked(w, v, id, now)) ==>
      v.auctions[id].house == w.auctions[id].house
  {
  }

  /** After a tick of any run nothing is overdue in the three houses: what was due has expired, is
      won with its delivery an hour ahead, or is sold. */
  lemma RunTicks(purses: map<nat, nat>, events: seq<Event>, e: Event, id: nat)
    requires Playable(purses, events + [e]) && e.op.Tick?
    requires id in Run(purses, events).auctions && Run(purses, events).auctions[id].house < 3
    ensures var w, v := Run(purses, events), Run(purses, events + [e]);
      && Ticked(w, v, id, e.env.now)
      && (id in v.auctions && v.auctions[id].moneyDeliveryTime == 0 ==> v.auctions[id].expireTime >= e.env.now)
      && (id in v.auctions && v.auctions[id].moneyDeliveryTime != 0 ==> v.auctions[id].moneyDeliveryTime >= e.env.now)
  {
    assert e == (events + [e])[|events|];
    assert forall i :: 0 <= i < |events| ==> events[i] == (events + [e])[i];
    hide Run, Items, Books, Step, Ticked;
    RunKeeps(purses, events);
    var w := Run(purses, events);
    OpenIdsBelow(w, id);
    TickExact(e.env, w, id);
    RunTick(purses, events, e);
    NotOverdue(w, UpdateAll(e.env, w), id, e.env.now);
  }

  lemma RunTick(purses: map<nat, nat>, events: seq<Event>, e: Event)
    requires e.op.Tick?
    ensures Run(purses, events + [e]) == UpdateAll(e.env, Run(purses, events))
  {
    assert (events + [e])[..|events|] == events;
  }

  lemma OpenIdsBelow(w: World, id: nat)
    requires Items(w) && id in w.auctions
    ensures id < w.nextAuction
  {
  }

  lemma NotOverdue(w: World, v: World, id: nat, now: int)
    requires id in w.auctions && Ticked(w, v, id, now)
    ensures id in v.auctions && v.auctions[id].moneyDeliveryTime == 0 && now >= 0 ==> v.auctions[id].expireTime >= now
    ensures id in v.auctions && v.auctions[id].moneyDeliveryTime != 0 ==> v.auctions[id].moneyDeliveryTime >= now
  {
  }

  /** And no auction opens by a tick. */
  lemma TickOpensNothing(env: Env, w: World, id: nat)
    requires id !in w.auctions
    ensures id !in UpdateAll(env, w).auctions
  {
    hide UpdateAll;
    TickExact(env, w, id);
  }
}
