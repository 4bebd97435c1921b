/** Price-time matching over a ladder: the levels of one book side, best price
    first. What consuming liquidity means, apart from how a book stores it. */
module Matching {
  import opened MachineInts

  /** The side of the order that takes liquidity: a buy takes asks, a sell takes bids. */
  datatype Side = Buy | Sell

  datatype BookLevel = BookLevel(price: int, qty: nat)

  /** A level the book can hold: an `i64` price and a `u64` quantity. */
  type Level = l: BookLevel | I64_MIN <= l.price <= I64_MAX && l.qty <= U64_MAX
    witness BookLevel(0, 0)

  predicate Better(side: Side, p: int, than: int) {
    if side.Buy? then p < than else p > than
  }

  predicate Eligible(side: Side, price: int, limit: Option<int>) {
    limit.None? || !Better(side, limit.value, price)
  }

  ghost predicate BestFirst(side: Side, ladder: seq<BookLevel>) {
    forall i, j :: 0 <= i < j < |ladder| ==> Better(side, ladder[i].price, ladder[j].price)
  }

  ghost predicate Positive(ladder: seq<BookLevel>) {
    forall i :: 0 <= i < |ladder| ==> ladder[i].qty > 0
  }

  ghost predicate DistinctPrices(ladder: seq<BookLevel>) {
    forall i, j :: 0 <= i < j < |ladder| ==> ladder[i].price != ladder[j].price
  }

  function TotalQty(levels: seq<BookLevel>): nat {
    if levels == [] then 0 else levels[0].qty + TotalQty(levels[1..])
  }

  function Notional(levels: seq<BookLevel>): int {
    if levels == [] then 0 else levels[0].price * levels[0].qty + Notional(levels[1..])
  }

  function QtyAt(levels: seq<BookLevel>, price: int): nat {
    if levels == [] then 0
    else (if levels[0].price == price then levels[0].qty else 0) + QtyAt(levels[1..], price)
  }

  /** Total quantity an order with this limit may trade against. */
  function EligibleQty(side: Side, ladder: seq<BookLevel>, limit: Option<int>): nat {
    if ladder == [] then 0
    else (if Eligible(side, ladder[0].price, limit) then ladder[0].qty else 0)
         + EligibleQty(side, ladder[1..], limit)
  }

  /** The fills of an order for `q` units that walks the ladder from the top
      and stops at the first level outside its limit. */
  function Fills(side: Side, ladder: seq<BookLevel>, q: nat, limit: Option<int>): seq<BookLevel> {
    if ladder == [] || q == 0 || !Eligible(side, ladder[0].price, limit) then []
    else
      var take := Min(ladder[0].qty, q);
      [BookLevel(ladder[0].price, take)] + Fills(side, ladder[1..], q - take, limit)
  }

  /** What that walk leaves of the ladder. */
  function Rest(side: Side, ladder: seq<BookLevel>, q: nat, limit: Option<int>): seq<BookLevel> {
    if ladder == [] || q == 0 || !Eligible(side, ladder[0].price, limit) then ladder
    else if ladder[0].qty <= q then Rest(side, ladder[1..], q - ladder[0].qty, limit)
    else [BookLevel(ladder[0].price, ladder[0].qty - q)] + ladder[1..]
  }

  /* ----- Facts about sums ----- */

  lemma {:induction false} TotalsAppend(a: seq<BookLevel>, b: seq<BookLevel>)
    ensures TotalQty(a + b) == TotalQty(a) + TotalQty(b)
    ensures Notional(a + b) == Notional(a) + Notional(b)
  {
    if a == [] {
      assert a + b == b;
    } else {
      assert (a + b)[1..] == a[1..] + b;
      TotalsAppend(a[1..], b);
    }
  }

  lemma {:induction false} QtyAtAppend(a: seq<BookLevel>, b: seq<BookLevel>, price: int)
    ensures QtyAt(a + b, price) == QtyAt(a, price) + QtyAt(b, price)
  {
    if a == [] {
      assert a + b == b;
    } else {
      assert (a + b)[1..] == a[1..] + b;
      QtyAtAppend(a[1..], b, price);
    }
  }

  lemma QtyAtCons(head: BookLevel, tail: seq<BookLevel>, price: int)
    ensures QtyAt([head] + tail, price) == (if head.price == price then head.qty else 0) + QtyAt(tail, price)
  {
    assert ([head] + tail)[1..] == tail;
  }

  lemma {:induction false} QtyAtAbsent(levels: seq<BookLevel>, price: int)
    requires forall i :: 0 <= i < |levels| ==> levels[i].price != price
    ensures QtyAt(levels, price) == 0
  {
    if levels != [] {
      QtyAtAbsent(levels[1..], price);
    }
  }

  lemma {:induction false} QtyAtPresent(levels: seq<BookLevel>, price: int) returns (i: nat)
    requires QtyAt(levels, price) > 0
    ensures i < |levels| && levels[i].price == price
  {
    if levels[0].price == price {
      i := 0;
    } else {
      i := QtyAtPresent(levels[1..], price);
      i := i + 1;
    }
  }

  /** On a ladder, the quantity at a level's price is that level's. */
  lemma {:induction false} QtyAtLevel(ladder: seq<BookLevel>, i: nat)
    requires DistinctPrices(ladder) && i < |ladder|
    ensures QtyAt(ladder, ladder[i].price) == ladder[i].qty
  {
    if i == 0 {
      QtyAtAbsent(ladder[1..], ladder[0].price);
    } else {
      QtyAtLevel(ladder[1..], i - 1);
    }
  }

  /** The notional of fills inside a price band lies in that band, scaled. */
  lemma {:induction false} NotionalBetween(levels: seq<BookLevel>, lo: int, hi: int)
    requires forall i :: 0 <= i < |levels| ==> lo <= levels[i].price <= hi
    ensures lo * TotalQty(levels) <= Notional(levels) <= hi * TotalQty(levels)
  {
    if levels != [] {
      var l := levels[0];
      NotionalBetween(levels[1..], lo, hi);
      MulMonotone(lo, l.price, l.qty);
      MulMonotone(l.price, hi, l.qty);
      Distribute(lo, l.qty, TotalQty(levels[1..]));
      Distribute(hi, l.qty, TotalQty(levels[1..]));
    }
  }

  /* ----- Which levels trade ----- */

  /** Fills come from the levels in order, within their quantities, inside
      the limit, and never exceed the order. */
  lemma {:induction false} FillBounds(side: Side, ladder: seq<BookLevel>, q: nat, limit: Option<int>)
    ensures var fs := Fills(side, ladder, q, limit);
            && |fs| <= |ladder|
            && (forall i :: 0 <= i < |fs| ==>
                  && fs[i].price == ladder[i].price
                  && fs[i].qty <= ladder[i].qty
                  && Eligible(side, fs[i].price, limit))
            && TotalQty(fs) <= q
  {
    if Fills(side, ladder, q, limit) != [] {
      FillBounds(side, ladder[1..], q - Min(ladder[0].qty, q), limit);
      assert Fills(side, ladder, q, limit)[1..] == Fills(side, ladder[1..], q - Min(ladder[0].qty, q), limit);
    }
  }

  /** Every fill but the last takes its level whole, so at most one level is
      left partly consumed. */
  lemma {:induction false} FillsTakeWholeLevels(
      side: Side, ladder: seq<BookLevel>, q: nat, limit: Option<int>)
    requires Positive(ladder)
    ensures var fs := Fills(side, ladder, q, limit);
            |fs| <= |ladder| && Positive(fs) && forall i :: 0 <= i < |fs| - 1 ==> fs[i] == ladder[i]
  {
    var fs := Fills(side, ladder, q, limit);
    if fs != [] {
      var take := Min(ladder[0].qty, q);
      FillsTakeWholeLevels(side, ladder[1..], q - take, limit);
      assert fs[1..] == Fills(side, ladder[1..], q - take, limit);
    }
  }

  /** Nothing below an ineligible level of a ladder is eligible. */
  lemma {:induction false} IneligibleTail(side: Side, ladder: seq<BookLevel>, limit: Option<int>)
    requires BestFirst(side, ladder)
    requires ladder != [] ==> !Eligible(side, ladder[0].price, limit)
    ensures EligibleQty(side, ladder, limit) == 0
  {
    if |ladder| > 1 {
      assert Better(side, ladder[0].price, ladder[1].price);
      IneligibleTail(side, ladder[1..], limit);
    }
  }

  /** The order gets as much as it asked for or all that its limit allows. */
  lemma {:induction false} FillsTotal(side: Side, ladder: seq<BookLevel>, q: nat, limit: Option<int>)
    requires BestFirst(side, ladder)
    ensures TotalQty(Fills(side, ladder, q, limit)) == Min(q, EligibleQty(side, ladder, limit))
  {
    if ladder == [] || q == 0 {
    } else if !Eligible(side, ladder[0].price, limit) {
      IneligibleTail(side, ladder, limit);
    } else {
      FillsTotal(side, ladder[1..], q - Min(ladder[0].qty, q), limit);
    }
  }

  /** Within the limit: at it or better. */
  predicate AtOrBetter(side: Side, price: int, limit: int) {
    if side == Buy then price <= limit else limit <= price
  }

  ghost predicate AllWithin(side: Side, levels: seq<BookLevel>, limit: Option<int>) {
    forall i :: 0 <= i < |levels| ==> limit.None? || AtOrBetter(side, levels[i].price, limit.value)
  }

  ghost predicate NoneWithin(side: Side, levels: seq<BookLevel>, limit: Option<int>) {
    forall i :: 0 <= i < |levels| ==> limit.Some? && !AtOrBetter(side, levels[i].price, limit.value)
  }

  /** An order trades only at its limit or better, and stops short of its
      quantity only when nothing at its limit or better is left. */
  lemma LimitExact(side: Side, ladder: seq<BookLevel>, q: nat, limit: Option<int>)
    requires BestFirst(side, ladder)
    ensures AllWithin(side, Fills(side, ladder, q, limit), limit)
    ensures TotalQty(Fills(side, ladder, q, limit)) < q ==> NoneWithin(side, Rest(side, ladder, q, limit), limit)
  {
    FillBounds(side, ladder, q, limit);
    if TotalQty(Fills(side, ladder, q, limit)) < q {
      ShortLeavesNothing(side, ladder, q, limit);
    }
  }

  lemma {:induction false} ShortLeavesNothing(side: Side, ladder: seq<BookLevel>, q: nat, limit: Option<int>)
    requires BestFirst(side, ladder) && TotalQty(Fills(side, ladder, q, limit)) < q
    ensures NoneWithin(side, Rest(side, ladder, q, limit), limit)
  {
    if ladder == [] {
    } else if !Eligible(side, ladder[0].price, limit) {
      NoTrade(side, ladder, q, limit);
      forall i | 0 <= i < |ladder| ensures limit.Some? && !AtOrBetter(side, ladder[i].price, limit.value) {
        assert i > 0 ==> Better(side, ladder[0].price, ladder[i].price);
      }
    } else {
      var take := Min(ladder[0].qty, q);
      var further := Fills(side, ladder[1..], q - take, limit);
      assert Fills(side, ladder, q, limit)[1..] == further;
      hide NoneWithin;
      ShortLeavesNothing(side, ladder[1..], q - take, limit);
    }
  }

  /** An order that trades nothing leaves the ladder alone. */
  lemma NoTrade(side: Side, ladder: seq<BookLevel>, q: nat, limit: Option<int>)
    requires ladder == [] || q == 0 || !Eligible(side, ladder[0].price, limit)
    ensures Fills(side, ladder, q, limit) == [] && Rest(side, ladder, q, limit) == ladder
  {
  }

  /** Price priority, level by level: an eligible level trades exactly what
      the better levels could not supply, up to its own quantity. */
  lemma {:induction false} PricePriority(
      side: Side, ladder: seq<BookLevel>, q: nat, limit: Option<int>, i: nat)
    requires BestFirst(side, ladder) && i < |ladder|
    ensures QtyAt(Fills(side, ladder, q, limit), ladder[i].price)
         == if Eligible(side, ladder[i].price, limit)
            then Clamp(q - TotalQty(ladder[..i]), 0, ladder[i].qty)
            else 0
  {
    var price := ladder[i].price;
    if i > 0 {
      assert Better(side, ladder[0].price, price);
      assert ladder[..i][1..] == ladder[1..][..i - 1];
      assert TotalQty(ladder[..i]) == ladder[0].qty + TotalQty(ladder[1..][..i - 1]);
    }
    hide TotalQty, QtyAt;
    if q == 0 || !Eligible(side, ladder[0].price, limit) {
      NoTrade(side, ladder, q, limit);
      QtyAtAbsent([], price);
    } else {
      var take := Min(ladder[0].qty, q);
      var further := Fills(side, ladder[1..], q - take, limit);
      QtyAtCons(BookLevel(ladder[0].price, take), further, price);
      if i == 0 {
        FillBounds(side, ladder[1..], q - take, limit);
        QtyAtAbsent(further, price);
        TotalsAppend([], []);
        assert ladder[..0] == [] + [];
      } else {
        PricePriority(side, ladder[1..], q - take, limit, i - 1);
      }
    }
  }

  /* ----- What is left ----- */

  /** Nothing is created or lost: at every price, fills and rest make up the ladder. */
  lemma {:induction false} FillsAndRest(
      side: Side, ladder: seq<BookLevel>, q: nat, limit: Option<int>, price: int)
    ensures QtyAt(Fills(side, ladder, q, limit), price) + QtyAt(Rest(side, ladder, q, limit), price)
         == QtyAt(ladder, price)
  {
    if ladder == [] || q == 0 || !Eligible(side, ladder[0].price, limit) {
    } else if ladder[0].qty <= q {
      FillsAndRest(side, ladder[1..], q - ladder[0].qty, limit, price);
      QtyAtCons(ladder[0], Fills(side, ladder[1..], q - ladder[0].qty, limit), price);
    } else {
      var head := ladder[0];
      assert Fills(side, ladder[1..], 0, limit) == [];
      QtyAtCons(BookLevel(head.price, q), [], price);
      QtyAtCons(BookLevel(head.price, head.qty - q), ladder[1..], price);
    }
  }

  /** An order smaller than the first level: split there, the first level alone matters. */
  lemma SplitInsideLevel(
      side: Side, head: BookLevel, tail: seq<BookLevel>, q1: nat, q2: nat, limit: Option<int>, price: int)
    requires 0 < q1 < head.qty && q2 > 0 && Eligible(side, head.price, limit)
    ensures var rest := [BookLevel(head.price, head.qty - q1)] + tail;
            && Rest(side, [head] + tail, q1 + q2, limit) == Rest(side, rest, q2, limit)
            && q1 + QtyAt(Fills(side, rest, q2, limit), head.price)
            == QtyAt(Fills(side, [head] + tail, q1 + q2, limit), head.price)
            && (price == head.price
                || QtyAt(Fills(side, rest, q2, limit), price)
                == QtyAt(Fills(side, [head] + tail, q1 + q2, limit), price))
  {
    var left := BookLevel(head.price, head.qty - q1);
    assert ([head] + tail)[1..] == tail && ([left] + tail)[1..] == tail;
    var take := Min(left.qty, q2);
    var further := Fills(side, tail, q2 - take, limit);
    assert Min(head.qty, q1 + q2) == q1 + take;
    assert Fills(side, [left] + tail, q2, limit) == [BookLevel(head.price, take)] + further;
    assert Fills(side, [head] + tail, q1 + q2, limit) == [BookLevel(head.price, q1 + take)] + further;
    QtyAtCons(BookLevel(head.price, take), further, head.price);
    QtyAtCons(BookLevel(head.price, q1 + take), further, head.price);
    QtyAtCons(BookLevel(head.price, take), further, price);
    QtyAtCons(BookLevel(head.price, q1 + take), further, price);
  }

  /** An order that takes the first level whole goes on with the rest. */
  lemma PastLevel(side: Side, ladder: seq<BookLevel>, q: nat, limit: Option<int>, price: int)
    requires ladder != [] && q > 0 && ladder[0].qty <= q && Eligible(side, ladder[0].price, limit)
    ensures Rest(side, ladder, q, limit) == Rest(side, ladder[1..], q - ladder[0].qty, limit)
    ensures QtyAt(Fills(side, ladder, q, limit), price)
         == (if ladder[0].price == price then ladder[0].qty else 0)
            + QtyAt(Fills(side, ladder[1..], q - ladder[0].qty, limit), price)
  {
    var further := Fills(side, ladder[1..], q - ladder[0].qty, limit);
    assert Fills(side, ladder, q, limit) == [ladder[0]] + further;
    QtyAtCons(ladder[0], further, price);
  }

  ghost predicate SplitAgrees(
      side: Side, ladder: seq<BookLevel>, q1: nat, q2: nat, limit: Option<int>, price: int)
  {
    var rest := Rest(side, ladder, q1, limit);
    && Rest(side, rest, q2, limit) == Rest(side, ladder, q1 + q2, limit)
    && QtyAt(Fills(side, ladder, q1, limit), price) + QtyAt(Fills(side, rest, q2, limit), price)
    == QtyAt(Fills(side, ladder, q1 + q2, limit), price)
  }

  lemma SplitInsideFirst(
      side: Side, ladder: seq<BookLevel>, q1: nat, q2: nat, limit: Option<int>, price: int)
    requires ladder != [] && 0 < q1 < ladder[0].qty && q2 > 0 && Eligible(side, ladder[0].price, limit)
    ensures SplitAgrees(side, ladder, q1, q2, limit, price)
  {
    var head, tail := ladder[0], ladder[1..];
    assert ladder == [head] + tail;
    NoTrade(side, tail, 0, limit);
    QtyAtCons(BookLevel(head.price, q1), [], price);
    SplitInsideLevel(side, head, tail, q1, q2, limit, price);
  }

  /** Splitting an order is invisible: `q1` then `q2` leaves the same ladder
      and takes the same quantity at every price as `q1 + q2` at once. */
  lemma {:induction false} SplitInvisible(
      side: Side, ladder: seq<BookLevel>, q1: nat, q2: nat, limit: Option<int>, price: int)
    ensures SplitAgrees(side, ladder, q1, q2, limit, price)
  {
    hide Fills, Rest;
    if ladder == [] || q1 == 0 || !Eligible(side, ladder[0].price, limit) {
      NoTrade(side, ladder, q1, limit);
      if q1 > 0 {
        NoTrade(side, ladder, q2, limit);
        NoTrade(side, ladder, q1 + q2, limit);
      }
    } else if q2 == 0 {
      NoTrade(side, Rest(side, ladder, q1, limit), 0, limit);
    } else if ladder[0].qty <= q1 {
      SplitInvisible(side, ladder[1..], q1 - ladder[0].qty, q2, limit, price);
      PastLevel(side, ladder, q1, limit, price);
      PastLevel(side, ladder, q1 + q2, limit, price);
    } else {
      SplitInsideFirst(side, ladder, q1, q2, limit, price);
    }
  }

  /* ----- Optimality ----- */

  function Sum(xs: seq<nat>): nat {
    if xs == [] then 0 else xs[0] + Sum(xs[1..])
  }

  /** What an allocation of quantities to the levels of a ladder costs. */
  function Cost(ladder: seq<BookLevel>, alloc: seq<nat>): int
    requires |alloc| == |ladder|
  {
    if alloc == [] then 0 else ladder[0].price * alloc[0] + Cost(ladder[1..], alloc[1..])
  }

  /** An allocation within the available quantity of eligible levels. */
  ghost predicate Feasible(side: Side, ladder: seq<BookLevel>, limit: Option<int>, alloc: seq<nat>) {
    && |alloc| == |ladder|
    && forall i :: 0 <= i < |alloc| ==>
         && alloc[i] <= ladder[i].qty
         && (alloc[i] > 0 ==> Eligible(side, ladder[i].price, limit))
  }

  lemma {:induction false} FeasibleBounded(side: Side, ladder: seq<BookLevel>, limit: Option<int>, alloc: seq<nat>)
    requires Feasible(side, ladder, limit, alloc)
    ensures Sum(alloc) <= EligibleQty(side, ladder, limit)
    ensures Sum(alloc) == 0 ==> Cost(ladder, alloc) == 0
  {
    if alloc != [] {
      FeasibleBounded(side, ladder[1..], limit, alloc[1..]);
    }
  }

  /** Exchange argument for buys: an allocation that buys more than the greedy
      fills pays at least the floor price for each extra unit. */
  lemma {:induction false} GreedyIsCheapest(
      ladder: seq<BookLevel>, q: nat, limit: Option<int>, alloc: seq<nat>, floor: int)
    requires BestFirst(Buy, ladder)
    requires forall i :: 0 <= i < |ladder| ==> floor <= ladder[i].price
    requires Feasible(Buy, ladder, limit, alloc)
    requires TotalQty(Fills(Buy, ladder, q, limit)) <= Sum(alloc)
    ensures Notional(Fills(Buy, ladder, q, limit))
            + floor * (Sum(alloc) - TotalQty(Fills(Buy, ladder, q, limit))) <= Cost(ladder, alloc)
  {
    if ladder == [] {
    } else if !Eligible(Buy, ladder[0].price, limit) {
      IneligibleTail(Buy, ladder, limit);
      FeasibleBounded(Buy, ladder, limit, alloc);
    } else {
      var p, x := ladder[0].price, alloc[0];
      var take := Min(ladder[0].qty, q);
      var tail, rest := ladder[1..], Fills(Buy, ladder[1..], q - take, limit);
      assert q == 0 ==> rest == [];
      assert forall i :: 0 <= i < |tail| ==> Better(Buy, p, tail[i].price);
      GreedyIsCheapest(tail, q - take, limit, alloc[1..], p);
      ExchangeStep(p, floor, x, take, Sum(alloc[1..]), TotalQty(rest));
    }
  }

  lemma ExchangeStep(p: int, floor: int, x: nat, take: nat, sum: nat, total: nat)
    requires floor <= p
    requires take + total <= x + sum
    ensures p * take + floor * (x + sum - (take + total)) <= p * x + p * (sum - total)
  {
    var extra := x + sum - (take + total);
    MulMonotone(floor, p, extra);
    assert p * extra == p * x + p * (sum - total) - p * take;
  }

  /** The ladder seen from the other side of zero: prices negated. */
  function Mirror(levels: seq<BookLevel>): seq<BookLevel>
  {
    if levels == [] then []
    else [BookLevel(-levels[0].price, levels[0].qty)] + Mirror(levels[1..])
  }

  lemma {:induction false} MirrorAt(levels: seq<BookLevel>)
    ensures |Mirror(levels)| == |levels|
    ensures forall i :: 0 <= i < |levels| ==>
              Mirror(levels)[i] == BookLevel(-levels[i].price, levels[i].qty)
    ensures TotalQty(Mirror(levels)) == TotalQty(levels)
    ensures Notional(Mirror(levels)) == -Notional(levels)
  {
    if levels != [] {
      MirrorAt(levels[1..]);
    }
  }

  /** Selling mirrors buying: the fills of a sell are those of a buy on the
      negated ladder under the negated limit, with their prices negated. */
  lemma {:induction false} SellMirrorsBuy(ladder: seq<BookLevel>, q: nat, limit: Option<int>)
    ensures var negated := if limit.None? then None else Some(-limit.value);
            var fs := Fills(Sell, ladder, q, limit);
            Fills(Buy, Mirror(ladder), q, negated) == Mirror(fs)
  {
    if Fills(Sell, ladder, q, limit) != [] {
      SellMirrorsBuy(ladder[1..], q - Min(ladder[0].qty, q), limit);
      assert Fills(Sell, ladder, q, limit)[1..] == Fills(Sell, ladder[1..], q - Min(ladder[0].qty, q), limit);
      assert Mirror(ladder)[1..] == Mirror(ladder[1..]);
    }
  }

  lemma {:induction false} MirrorCost(ladder: seq<BookLevel>, alloc: seq<nat>)
    requires |alloc| == |ladder|
    ensures |Mirror(ladder)| == |ladder| && Cost(Mirror(ladder), alloc) == -Cost(ladder, alloc)
  {
    MirrorAt(ladder);
    if ladder != [] {
      MirrorCost(ladder[1..], alloc[1..]);
      assert Mirror(ladder)[1..] == Mirror(ladder[1..]);
    }
  }

  lemma CheapestBuy(ladder: seq<BookLevel>, q: nat, limit: Option<int>, alloc: seq<nat>)
    requires BestFirst(Buy, ladder)
    requires Feasible(Buy, ladder, limit, alloc)
    requires Sum(alloc) == TotalQty(Fills(Buy, ladder, q, limit))
    ensures Notional(Fills(Buy, ladder, q, limit)) <= Cost(ladder, alloc)
  {
    if ladder != [] {
      GreedyIsCheapest(ladder, q, limit, alloc, ladder[0].price);
    }
  }

  lemma MirrorFeasible(ladder: seq<BookLevel>, limit: Option<int>, alloc: seq<nat>)
    requires BestFirst(Sell, ladder)
    requires Feasible(Sell, ladder, limit, alloc)
    ensures |alloc| == |ladder| && BestFirst(Buy, Mirror(ladder))
    ensures Feasible(Buy, Mirror(ladder), if limit.None? then None else Some(-limit.value), alloc)
  {
    MirrorAt(ladder);
  }

  /** Greedy matching is optimal: no allocation of the same quantity over the
      eligible levels is cheaper for a buy, or earns more for a sell. */
  lemma GreedyIsOptimal(side: Side, ladder: seq<BookLevel>, q: nat, limit: Option<int>, alloc: seq<nat>)
    requires BestFirst(side, ladder)
    requires Feasible(side, ladder, limit, alloc)
    requires Sum(alloc) == TotalQty(Fills(side, ladder, q, limit))
    ensures side.Buy? ==> Notional(Fills(side, ladder, q, limit)) <= Cost(ladder, alloc)
    ensures side.Sell? ==> Notional(Fills(side, ladder, q, limit)) >= Cost(ladder, alloc)
  {
    hide *;
    if side.Buy? {
      CheapestBuy(ladder, q, limit, alloc);
    } else {
      SellMirrorsBuy(ladder, q, limit);
      MirrorAt(Fills(Sell, ladder, q, limit));
      MirrorFeasible(ladder, limit, alloc);
      MirrorCost(ladder, alloc);
      CheapestBuy(Mirror(ladder), q, if limit.None? then None else Some(-limit.value), alloc);
    }
  }
}
