/** The in-memory order book of one symbol. */
module OrderBooks {
  import opened MachineInts
  import opened Matching

  /** One side as it is stored: quantity by key, read in ascending key order.
      Asks are keyed by price, bids by negated price. */
  type BookSide = map<I64, U64>

  ghost predicate NoEmptyLevel(m: BookSide) {
    forall k :: k in m ==> m[k] > 0
  }

  /** The price of a key, and the key of a price: negation is its own inverse. */
  function KeyPrice(side: Side, key: I64): I64 {
    if side.Buy? then key else WrapNegI64(key)
  }

  ghost predicate Ascending(keys: seq<int>) {
    forall i, j :: 0 <= i < j < |keys| ==> keys[i] < keys[j]
  }

  function SortedKeys(keys: set<I64>): (sorted: seq<I64>)
    ensures Ascending(sorted)
    ensures forall k: I64 :: k in sorted <==> k in keys
  {
    if keys == {} then []
    else
      LeastExists(keys);
      var least :| IsLeast(least, keys);
      [least] + SortedKeys(keys - {least})
  }

  predicate IsLeast(least: I64, keys: set<I64>) {
    least in keys && forall k :: k in keys ==> least <= k
  }

  lemma {:induction false} LeastExists(keys: set<I64>)
    requires keys != {}
    ensures exists least :: IsLeast(least, keys)
  {
    var k :| k in keys;
    var others := keys - {k};
    if others == {} {
      assert keys == {k};
      assert IsLeast(k, keys);
    } else {
      LeastExists(others);
      var least :| IsLeast(least, others);
      assert forall j :: j in keys ==> j == k || j in others;
      assert IsLeast(if k < least then k else least, keys);
    }
  }

  /** The levels an order of this side meets, in the order the book visits them. */
  function Ladder(side: Side, m: BookSide): seq<Level> {
    var keys := SortedKeys(m.Keys);
    seq(|keys|, i requires 0 <= i < |keys| => BookLevel(KeyPrice(side, keys[i]), m[keys[i]]))
  }

  function Resting(side: Side, m: BookSide, price: I64): nat {
    var key := KeyPrice(side, price);
    if key in m then m[key] else 0
  }

  /** The side after these fills: every level lowered by what traded at its
      price, levels lowered to nothing removed. */
  function Depleted(side: Side, m: BookSide, fills: seq<BookLevel>): BookSide {
    map k | k in m && QtyAt(fills, KeyPrice(side, k)) < m[k] :: m[k] - QtyAt(fills, KeyPrice(side, k))
  }

  /** One level set to the quantity left at it. */
  function LowerLevel(m: BookSide, key: I64, left: U64): BookSide {
    if left == 0 then m - {key} else m[key := left]
  }

  function OrderFills(side: Side, m: BookSide, q: nat, limit: Option<int>): seq<Level> {
    FillBounds(side, Ladder(side, m), q, limit);
    Fills(side, Ladder(side, m), q, limit)
  }

  class OrderBook {
    var bids: BookSide
    var asks: BookSide

    ghost predicate Valid()
      reads this
    {
      NoEmptyLevel(bids) && NoEmptyLevel(asks)
    }

    constructor ()
      ensures Valid() && bids == map[] && asks == map[]
    {
      bids, asks := map[], map[];
    }

    method AddBid(price: I64, qty: U64)
      requires Valid()
      modifies this`bids
      ensures Valid()
      ensures forall p: I64 :: Resting(Sell, bids, p)
                == Min(Resting(Sell, old(bids), p) + if p == price then qty else 0, U64_MAX)
    {
      if qty == 0 {
        return;
      }
      var key := WrapNegI64(price);
      var entry := if key in bids then bids[key] else 0;
      bids := bids[key := Min(entry + qty, U64_MAX)];
    }

    method AddAsk(price: I64, qty: U64)
      requires Valid()
      modifies this`asks
      ensures Valid()
      ensures forall p: I64 :: Resting(Buy, asks, p)
                == Min(Resting(Buy, old(asks), p) + if p == price then qty else 0, U64_MAX)
    {
      if qty == 0 {
        return;
      }
      var entry := if price in asks then asks[price] else 0;
      asks := asks[price := Min(entry + qty, U64_MAX)];
    }

    constructor FromLevels(bidLevels: seq<Level>, askLevels: seq<Level>)
      ensures Valid()
      ensures forall p: I64 :: Resting(Sell, bids, p) == Min(QtyAt(bidLevels, p), U64_MAX)
      ensures forall p: I64 :: Resting(Buy, asks, p) == Min(QtyAt(askLevels, p), U64_MAX)
    {
      bids, asks := map[], map[];
      new;
      for i := 0 to |bidLevels|
        invariant Valid() && asks == map[]
        invariant forall p: I64 :: Resting(Sell, bids, p) == Min(QtyAt(bidLevels[..i], p), U64_MAX)
      {
        AddBid(bidLevels[i].price, bidLevels[i].qty);
        QtyAtPrefix(bidLevels, i);
      }
      assert bidLevels[..|bidLevels|] == bidLevels;
      for i := 0 to |askLevels|
        invariant Valid()
        invariant forall p: I64 :: Resting(Sell, bids, p) == Min(QtyAt(bidLevels, p), U64_MAX)
        invariant forall p: I64 :: Resting(Buy, asks, p) == Min(QtyAt(askLevels[..i], p), U64_MAX)
      {
        AddAsk(askLevels[i].price, askLevels[i].qty);
        QtyAtPrefix(askLevels, i);
      }
      assert askLevels[..|askLevels|] == askLevels;
    }

    /** Buy up to `requested` units from the asks at or below the limit. */
    method ConsumeAsks(requested: U64, limit: Option<I64>) returns (fills: seq<Level>)
      requires Valid()
      modifies this`asks
      ensures Valid()
      ensures fills == OrderFills(Buy, old(asks), requested, limit)
      ensures asks == Depleted(Buy, old(asks), fills)
    {
      hide Walked, SortedKeys, Depleted, Ladder, OrderFills;
      var remaining := requested;
      fills := [];
      var prices := SortedKeys(asks.Keys);
      WalkStart(Buy, asks, requested, limit);
      var i := 0;
      while i < |prices|
        invariant 0 <= i <= |prices| && 0 <= remaining
        invariant Walked(Buy, old(asks), i, fills, remaining, requested, limit, asks)
      {
        if remaining == 0 {
          break;
        }
        var price := prices[i];
        if limit.Some? && price > limit.value {
          break;
        }
        WalkStep(Buy, old(asks), i, fills, remaining, requested, limit, asks);
        var avail := if price in asks then asks[price] else 0;
        if avail > 0 {
          var take := Min(avail, remaining);
          fills := fills + [BookLevel(price, take)];
          remaining := remaining - take;
          var newAvail := avail - take;
          if newAvail == 0 {
            asks := asks - {price};
          } else {
            asks := asks[price := newAvail];
          }
        }
        i := i + 1;
      }
      WalkStop(Buy, old(asks), i, fills, remaining, requested, limit, asks);
    }

    /** Sell up to `requested` units to the bids at or above the limit. */
    method ConsumeBids(requested: U64, limit: Option<I64>) returns (fills: seq<Level>)
      requires Valid()
      modifies this`bids
      ensures Valid()
      ensures fills == OrderFills(Sell, old(bids), requested, limit)
      ensures bids == Depleted(Sell, old(bids), fills)
    {
      hide Walked, SortedKeys, Depleted, Ladder, OrderFills;
      var remaining := requested;
      fills := [];
      var negPrices := SortedKeys(bids.Keys);
      WalkStart(Sell, bids, requested, limit);
      var i := 0;
      while i < |negPrices|
        invariant 0 <= i <= |negPrices| && 0 <= remaining
        invariant Walked(Sell, old(bids), i, fills, remaining, requested, limit, bids)
      {
        if remaining == 0 {
          break;
        }
        var negPrice := negPrices[i];
        var price := WrapNegI64(negPrice);
        if limit.Some? && price < limit.value {
          break;
        }
        WalkStep(Sell, old(bids), i, fills, remaining, requested, limit, bids);
        var avail := if negPrice in bids then bids[negPrice] else 0;
        if avail > 0 {
          var take := Min(avail, remaining);
          fills := fills + [BookLevel(price, take)];
          remaining := remaining - take;
          var newAvail := avail - take;
          if newAvail == 0 {
            bids := bids - {negPrice};
          } else {
            bids := bids[negPrice := newAvail];
          }
        }
        i := i + 1;
      }
      WalkStop(Sell, old(bids), i, fills, remaining, requested, limit, bids);
    }
  }

  /* ----- The consuming loops ----- */

  /** After `i` keys: the fills so far and those still to come are the order's
      fills, and the stored side is the original less the fills so far. */
  ghost predicate Walked(
      side: Side, m: BookSide, i: nat, fills: seq<BookLevel>, remaining: nat,
      requested: nat, limit: Option<int>, now: BookSide)
  {
    var keys := SortedKeys(m.Keys);
    && i <= |keys|
    && NoEmptyLevel(m)
    && fills + Fills(side, Ladder(side, m)[i..], remaining, limit) == OrderFills(side, m, requested, limit)
    && (forall j :: i <= j < |keys| ==> QtyAt(fills, KeyPrice(side, keys[j])) == 0)
    && now == Depleted(side, m, fills)
  }

  lemma SameSide(a: BookSide, b: BookSide)
    requires forall k :: k in a ==> k in b && a[k] == b[k]
    requires forall k :: k in b ==> k in a
    ensures a == b
  {
  }

  lemma WalkStart(side: Side, m: BookSide, requested: nat, limit: Option<int>)
    requires NoEmptyLevel(m)
    ensures Walked(side, m, 0, [], requested, requested, limit, m)
  {
    SameSide(Depleted(side, m, []), m);
    assert Ladder(side, m)[0..] == Ladder(side, m);
  }

  lemma WalkStep(
      side: Side, m: BookSide, i: nat, fills: seq<BookLevel>, remaining: nat,
      requested: nat, limit: Option<int>, now: BookSide)
    requires Walked(side, m, i, fills, remaining, requested, limit, now)
    requires i < |SortedKeys(m.Keys)| && remaining > 0
    requires Eligible(side, KeyPrice(side, SortedKeys(m.Keys)[i]), limit)
    ensures var key := SortedKeys(m.Keys)[i];
            && key in m && key in now && now[key] == m[key]
            && var take := Min(m[key], remaining);
               Walked(side, m, i + 1, fills + [BookLevel(KeyPrice(side, key), take)], remaining - take,
                      requested, limit, LowerLevel(now, key, m[key] - take))
  {
    hide SortedKeys, Depleted, Fills, QtyAt, OrderFills;
    var keys := SortedKeys(m.Keys);
    var key := keys[i];
    assert key in keys;
    var fill := BookLevel(KeyPrice(side, key), Min(m[key], remaining));
    DepleteOne(side, m, fills, key, fill);
    WalkOneLevel(side, Ladder(side, m), i, fills, fill, remaining, limit);
    QtyAtSnoc(fills, fill);
  }

  lemma WalkOneLevel(
      side: Side, ladder: seq<BookLevel>, i: nat, fills: seq<BookLevel>, fill: BookLevel,
      remaining: nat, limit: Option<int>)
    requires i < |ladder| && remaining > 0
    requires Eligible(side, ladder[i].price, limit)
    requires fill == BookLevel(ladder[i].price, Min(ladder[i].qty, remaining))
    ensures fills + Fills(side, ladder[i..], remaining, limit)
         == fills + [fill] + Fills(side, ladder[i + 1..], remaining - fill.qty, limit)
  {
    assert ladder[i..][1..] == ladder[i + 1..];
  }

  lemma DepletedKey(
      side: Side, m: BookSide, fills: seq<BookLevel>, key: I64, fill: BookLevel, k: I64)
    requires key in m && k in m
    requires fill.price == KeyPrice(side, key) && 0 < fill.qty <= m[key]
    requires QtyAt(fills, fill.price) == 0
    ensures var now, next := Depleted(side, m, fills), Depleted(side, m, fills + [fill]);
            && (k in next <==> if k == key then fill.qty < m[key] else k in now)
            && (k in next ==> next[k] == if k == key then m[key] - fill.qty else now[k])
  {
    QtyAtAppend(fills, [fill], KeyPrice(side, k));
  }

  lemma DepleteOne(side: Side, m: BookSide, fills: seq<BookLevel>, key: I64, fill: BookLevel)
    requires NoEmptyLevel(m) && key in m
    requires fill.price == KeyPrice(side, key) && 0 < fill.qty <= m[key]
    requires QtyAt(fills, fill.price) == 0
    ensures key in Depleted(side, m, fills) && Depleted(side, m, fills)[key] == m[key]
    ensures Depleted(side, m, fills + [fill]) == LowerLevel(Depleted(side, m, fills), key, m[key] - fill.qty)
  {
    var now, next := Depleted(side, m, fills), Depleted(side, m, fills + [fill]);
    var lowered := LowerLevel(now, key, m[key] - fill.qty);
    forall k | k in next ensures k in lowered && next[k] == lowered[k] {
      DepletedKey(side, m, fills, key, fill, k);
    }
    forall k | k in lowered ensures k in next {
      assert k in m;
      DepletedKey(side, m, fills, key, fill, k);
    }
    SameSide(next, lowered);
  }

  lemma WalkStop(
      side: Side, m: BookSide, i: nat, fills: seq<BookLevel>, remaining: nat,
      requested: nat, limit: Option<int>, now: BookSide)
    requires Walked(side, m, i, fills, remaining, requested, limit, now)
    requires var keys := SortedKeys(m.Keys);
             i == |keys| || remaining == 0 || !Eligible(side, KeyPrice(side, keys[i]), limit)
    ensures fills == OrderFills(side, m, requested, limit)
    ensures now == Depleted(side, m, fills) && NoEmptyLevel(now)
  {
    NoTrade(side, Ladder(side, m)[i..], remaining, limit);
  }

  lemma QtyAtSnoc(levels: seq<BookLevel>, last: BookLevel)
    ensures forall p :: QtyAt(levels + [last], p) == QtyAt(levels, p) + if p == last.price then last.qty else 0
  {
    forall p ensures QtyAt(levels + [last], p) == QtyAt(levels, p) + if p == last.price then last.qty else 0 {
      QtyAtAppend(levels, [last], p);
    }
  }

  lemma QtyAtPrefix(levels: seq<BookLevel>, i: nat)
    requires i < |levels|
    ensures forall p :: QtyAt(levels[..i + 1], p)
              == QtyAt(levels[..i], p) + if p == levels[i].price then levels[i].qty else 0
  {
    assert levels[..i + 1] == levels[..i] + [levels[i]];
    QtyAtSnoc(levels[..i], levels[i]);
  }
}
