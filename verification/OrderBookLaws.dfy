/** What consuming liquidity from a stored book side guarantees. */
module OrderBookLaws {
  import opened MachineInts
  import opened Matching
  import opened OrderBooks

  /* ----- The ladder of a stored side ----- */

  lemma LadderAt(side: Side, m: BookSide, i: nat)
    requires i < |Ladder(side, m)|
    ensures var key := SortedKeys(m.Keys)[i];
            && key in m
            && Ladder(side, m)[i] == BookLevel(KeyPrice(side, key), m[key])
  {
    assert SortedKeys(m.Keys)[i] in SortedKeys(m.Keys);
  }

  /** Levels in ascending order of their keys, none empty. */
  ghost predicate Keyed(side: Side, ladder: seq<BookLevel>) {
    && (forall i :: 0 <= i < |ladder| ==> I64_MIN <= ladder[i].price <= I64_MAX && ladder[i].qty > 0)
    && (forall i, j :: 0 <= i < j < |ladder| ==>
          KeyPrice(side, ladder[i].price) < KeyPrice(side, ladder[j].price))
  }

  lemma LadderKeyed(side: Side, m: BookSide)
    requires NoEmptyLevel(m)
    ensures Keyed(side, Ladder(side, m)) && Positive(Ladder(side, m)) && DistinctPrices(Ladder(side, m))
  {
    var ladder := Ladder(side, m);
    forall i | 0 <= i < |ladder|
      ensures I64_MIN <= ladder[i].price <= I64_MAX && ladder[i].qty > 0
      ensures KeyPrice(side, ladder[i].price) == SortedKeys(m.Keys)[i]
    {
      LadderAt(side, m, i);
    }
  }

  /** The asks are read best price first, always. */
  lemma AsksBestFirst(m: BookSide)
    ensures BestFirst(Buy, Ladder(Buy, m))
  {
    forall i, j | 0 <= i < j < |Ladder(Buy, m)|
      ensures Better(Buy, Ladder(Buy, m)[i].price, Ladder(Buy, m)[j].price)
    {
      LadderAt(Buy, m, i);
      LadderAt(Buy, m, j);
    }
  }

  /** The bids are read best price first unless a bid at the least `i64`,
      whose key wraps to itself, stands in front of better ones. */
  lemma BidsBestFirst(m: BookSide)
    requires I64_MIN !in m || m.Keys == {I64_MIN}
    ensures BestFirst(Sell, Ladder(Sell, m))
  {
    var ladder := Ladder(Sell, m);
    forall i, j | 0 <= i < j < |ladder| ensures Better(Sell, ladder[i].price, ladder[j].price) {
      LadderAt(Sell, m, i);
      LadderAt(Sell, m, j);
      var keys := SortedKeys(m.Keys);
      assert keys[i] in m.Keys && keys[j] in m.Keys && keys[i] < keys[j];
    }
  }

  lemma LadderQty(side: Side, m: BookSide, price: I64)
    requires NoEmptyLevel(m)
    ensures QtyAt(Ladder(side, m), price) == Resting(side, m, price)
  {
    hide QtyAt, SortedKeys;
    var ladder, keys := Ladder(side, m), SortedKeys(m.Keys);
    LadderKeyed(side, m);
    if KeyPrice(side, price) in m {
      assert KeyPrice(side, price) in keys;
      var i :| 0 <= i < |keys| && keys[i] == KeyPrice(side, price);
      QtyAtLevel(ladder, i);
    } else {
      forall i | 0 <= i < |ladder| ensures ladder[i].price != price {
        LadderAt(side, m, i);
      }
      QtyAtAbsent(ladder, price);
    }
  }

  /* ----- Conservation ----- */

  /** Liquidity is conserved at every price: what rests after the order and
      what it traded make up what rested before. */
  lemma OrderConserves(side: Side, m: BookSide, q: nat, limit: Option<int>, price: I64)
    requires NoEmptyLevel(m)
    ensures var fills := OrderFills(side, m, q, limit);
            Resting(side, Depleted(side, m, fills), price) + QtyAt(fills, price) == Resting(side, m, price)
  {
    FillsAndRest(side, Ladder(side, m), q, limit, price);
    LadderQty(side, m, price);
    assert KeyPrice(side, KeyPrice(side, price)) == price;
  }

  lemma EmptyLadder(side: Side, ladder: seq<BookLevel>)
    requires Keyed(side, ladder) && forall p :: QtyAt(ladder, p) == 0
    ensures ladder == []
  {
    if ladder != [] {
      QtyAtLevel(ladder, 0);
    }
  }

  lemma {:induction false} SameLadder(side: Side, a: seq<BookLevel>, b: seq<BookLevel>)
    requires Keyed(side, a) && Keyed(side, b)
    requires forall p :: QtyAt(a, p) == QtyAt(b, p)
    ensures a == b
  {
    if a == [] {
      EmptyLadder(side, b);
    } else {
      assert QtyAt(b, a[0].price) == QtyAt(a, a[0].price) > 0;
      var i := QtyAtPresent(b, a[0].price);
      assert QtyAt(a, b[0].price) == QtyAt(b, b[0].price) > 0;
      var j := QtyAtPresent(a, b[0].price);
      assert i == 0 && j == 0;
      QtyAtLevel(a, 0);
      QtyAtLevel(b, 0);
      assert a[0] == b[0];
      forall p ensures QtyAt(a[1..], p) == QtyAt(b[1..], p) {
        assert QtyAt(a, p) == QtyAt(b, p);
      }
      SameLadder(side, a[1..], b[1..]);
    }
  }

  lemma {:induction false} RestKeyed(side: Side, ladder: seq<BookLevel>, q: nat, limit: Option<int>)
    requires Keyed(side, ladder)
    ensures Keyed(side, Rest(side, ladder, q, limit))
  {
    if ladder != [] && q > 0 && Eligible(side, ladder[0].price, limit) && ladder[0].qty <= q {
      RestKeyed(side, ladder[1..], q - ladder[0].qty, limit);
    }
  }

  lemma OrderFillsAre(side: Side, m: BookSide, q: nat, limit: Option<int>)
    ensures OrderFills(side, m, q, limit) == Fills(side, Ladder(side, m), q, limit)
  {
  }

  lemma DepletedNoEmpty(side: Side, m: BookSide, fills: seq<BookLevel>)
    ensures NoEmptyLevel(Depleted(side, m, fills))
  {
  }

  /** Storing what an order left and reading it back gives the rest of the ladder. */
  lemma DepletedLadder(side: Side, m: BookSide, q: nat, limit: Option<int>)
    requires NoEmptyLevel(m)
    ensures var now := Depleted(side, m, OrderFills(side, m, q, limit));
            NoEmptyLevel(now) && Ladder(side, now) == Rest(side, Ladder(side, m), q, limit)
  {
    hide Depleted, OrderFills, Ladder, Fills, Rest, QtyAt;
    var now := Depleted(side, m, OrderFills(side, m, q, limit));
    DepletedNoEmpty(side, m, OrderFills(side, m, q, limit));
    var rest := Rest(side, Ladder(side, m), q, limit);
    LadderKeyed(side, m);
    RestKeyed(side, Ladder(side, m), q, limit);
    LadderKeyed(side, now);
    forall p ensures QtyAt(Ladder(side, now), p) == QtyAt(rest, p) {
      FillsAndRest(side, Ladder(side, m), q, limit, p);
      OrderFillsAre(side, m, q, limit);
      if I64_MIN <= p <= I64_MAX {
        OrderConserves(side, m, q, limit, p);
        LadderQty(side, now, p);
        LadderQty(side, m, p);
      } else {
        QtyAtAbsent(Ladder(side, now), p);
        QtyAtAbsent(Ladder(side, m), p);
      }
    }
    SameLadder(side, Ladder(side, now), rest);
  }

  /** Splitting an order is invisible to the book: `q1` then `q2` under one
      limit leave the same side, and take the same quantity at every price,
      as `q1 + q2` at once. */
  lemma SplitOrder(side: Side, m: BookSide, q1: nat, q2: nat, limit: Option<int>)
    requires NoEmptyLevel(m)
    ensures var first := OrderFills(side, m, q1, limit);
            var between := Depleted(side, m, first);
            var second := OrderFills(side, between, q2, limit);
            var whole := OrderFills(side, m, q1 + q2, limit);
            && Depleted(side, between, second) == Depleted(side, m, whole)
            && forall p :: QtyAt(first, p) + QtyAt(second, p) == QtyAt(whole, p)
  {
    var between := Depleted(side, m, OrderFills(side, m, q1, limit));
    SplitLeaves(side, m, q1, q2, limit);
    forall p
      ensures QtyAt(OrderFills(side, m, q1, limit), p) + QtyAt(OrderFills(side, between, q2, limit), p)
           == QtyAt(OrderFills(side, m, q1 + q2, limit), p)
    {
      SplitTakes(side, m, q1, q2, limit, p);
    }
  }

  lemma SplitTakes(side: Side, m: BookSide, q1: nat, q2: nat, limit: Option<int>, price: int)
    requires NoEmptyLevel(m)
    ensures var first := OrderFills(side, m, q1, limit);
            var second := OrderFills(side, Depleted(side, m, first), q2, limit);
            QtyAt(first, price) + QtyAt(second, price) == QtyAt(OrderFills(side, m, q1 + q2, limit), price)
  {
    hide Depleted, Ladder, Fills, Rest, QtyAt;
    DepletedLadder(side, m, q1, limit);
    SplitInvisible(side, Ladder(side, m), q1, q2, limit, price);
  }

  lemma SplitLeaves(side: Side, m: BookSide, q1: nat, q2: nat, limit: Option<int>)
    requires NoEmptyLevel(m)
    ensures var between := Depleted(side, m, OrderFills(side, m, q1, limit));
            var after := Depleted(side, between, OrderFills(side, between, q2, limit));
            after == Depleted(side, m, OrderFills(side, m, q1 + q2, limit))
  {
    hide Depleted, Ladder, Fills, Rest, QtyAt, OrderFills;
    var between := Depleted(side, m, OrderFills(side, m, q1, limit));
    DepletedLadder(side, m, q1, limit);
    DepletedLadder(side, between, q2, limit);
    DepletedLadder(side, m, q1 + q2, limit);
    SplitInvisible(side, Ladder(side, m), q1, q2, limit, 0);
    LadderDetermines(side, Depleted(side, between, OrderFills(side, between, q2, limit)),
                     Depleted(side, m, OrderFills(side, m, q1 + q2, limit)));
  }

  lemma LadderDetermines(side: Side, a: BookSide, b: BookSide)
    requires NoEmptyLevel(a) && NoEmptyLevel(b)
    requires Ladder(side, a) == Ladder(side, b)
    ensures a == b
  {
    forall p: I64 ensures Resting(side, a, p) == Resting(side, b, p) {
      LadderQty(side, a, p);
      LadderQty(side, b, p);
    }
    RestingDetermines(side, a, b);
  }

  lemma RestingDetermines(side: Side, a: BookSide, b: BookSide)
    requires NoEmptyLevel(a) && NoEmptyLevel(b)
    requires forall p: I64 :: Resting(side, a, p) == Resting(side, b, p)
    ensures a == b
  {
    forall k: I64 ensures (k in a <==> k in b) && (k in a ==> a[k] == b[k]) {
      var p := KeyPrice(side, k);
      assert KeyPrice(side, p) == k;
      assert Resting(side, a, p) == Resting(side, b, p);
    }
  }

  /* ----- Optimality of a stored side ----- */

  /** Every order of this side gets the most its limit allows, at the best total. */
  ghost predicate MatchesBest(side: Side, m: BookSide) {
    forall q: nat, limit: Option<int> {:trigger OrderFills(side, m, q, limit)} ::
      var fills := OrderFills(side, m, q, limit);
      && TotalQty(fills) == Min(q, EligibleQty(side, Ladder(side, m), limit))
      && forall alloc :: Feasible(side, Ladder(side, m), limit, alloc) && Sum(alloc) == TotalQty(fills) ==>
           if side.Buy? then Notional(fills) <= Cost(Ladder(side, m), alloc)
           else Notional(fills) >= Cost(Ladder(side, m), alloc)
  }

  lemma BestFirstMatchesBest(side: Side, m: BookSide)
    requires BestFirst(side, Ladder(side, m))
    ensures MatchesBest(side, m)
  {
    forall q: nat, limit: Option<int>
      ensures TotalQty(OrderFills(side, m, q, limit)) == Min(q, EligibleQty(side, Ladder(side, m), limit))
    {
      FillsTotal(side, Ladder(side, m), q, limit);
    }
    forall q: nat, limit: Option<int>, alloc
      | Feasible(side, Ladder(side, m), limit, alloc) && Sum(alloc) == TotalQty(OrderFills(side, m, q, limit))
      ensures if side.Buy? then Notional(OrderFills(side, m, q, limit)) <= Cost(Ladder(side, m), alloc)
              else Notional(OrderFills(side, m, q, limit)) >= Cost(Ladder(side, m), alloc)
    {
      GreedyIsOptimal(side, Ladder(side, m), q, limit, alloc);
    }
  }

  /** Buying is optimal on every book. */
  lemma BuysMatchBest(m: BookSide)
    ensures MatchesBest(Buy, m)
  {
    AsksBestFirst(m);
    BestFirstMatchesBest(Buy, m);
  }

  /** Selling is optimal exactly when no bid at the least `i64` stands before
      another: such a bid sorts first although it is the worst price there is. */
  lemma SellsMatchBestIff(m: BookSide)
    requires NoEmptyLevel(m)
    ensures MatchesBest(Sell, m) <==> I64_MIN !in m || m.Keys == {I64_MIN}
  {
    if I64_MIN !in m || m.Keys == {I64_MIN} {
      BidsBestFirst(m);
      BestFirstMatchesBest(Sell, m);
    } else {
      var ladder, keys := Ladder(Sell, m), SortedKeys(m.Keys);
      assert I64_MIN in keys;
      assert keys[0] == I64_MIN;
      var other :| other in m && other != I64_MIN;
      assert other in keys;
      assert |keys| > 1;
      LadderAt(Sell, m, 0);
      LadderAt(Sell, m, 1);
      assert keys[1] in m.Keys && keys[0] < keys[1];
      var fills := OrderFills(Sell, m, 1, None);
      assert fills == [BookLevel(I64_MIN, 1)] by {
        NoTrade(Sell, ladder[1..], 0, None);
      }
      assert TotalQty(fills) == 1 && Notional(fills) == I64_MIN by {
        TotalsOfOne(fills[0]);
      }
      LadderKeyed(Sell, m);
      SecondLevelOnly(Sell, ladder);
    }
  }

  /** A book where that fails: bids at the least `i64` and at 100, as
      `FromLevels` leaves them. */
  lemma LeastBidReachable(m: BookSide)
    requires NoEmptyLevel(m)
    requires forall p: I64 :: Resting(Sell, m, p) == Min(QtyAt([BookLevel(I64_MIN, 1), BookLevel(100, 1)], p), U64_MAX)
    ensures m == map[I64_MIN := 1, -100 := 1] && !MatchesBest(Sell, m)
  {
    var levels := [BookLevel(I64_MIN, 1), BookLevel(100, 1)];
    forall p: I64 ensures QtyAt(levels, p) == if p == I64_MIN || p == 100 then 1 else 0 {
      assert levels[1..] == [BookLevel(100, 1)];
      QtyAtCons(levels[0], levels[1..], p);
      QtyAtCons(levels[1], [], p);
    }
    var expected: BookSide := map[I64_MIN := 1, -100 := 1];
    RestingDetermines(Sell, m, expected);
    assert m == expected && -100 in m;
    SellsMatchBestIff(m);
    assert m.Keys != {I64_MIN};
  }

  function Negated(limit: Option<int>): Option<int> {
    if limit.None? then None else Some(-limit.value)
  }

  /** Selling from a stored side fills as buying from it would, with every
      price and the limit negated, and leaves the same side. */
  ghost predicate SellsMirrorBuys(m: BookSide) {
    forall q: nat, limit: Option<int> {:trigger OrderFills(Sell, m, q, limit)} ::
      var (sold, bought) := (OrderFills(Sell, m, q, limit), OrderFills(Buy, m, q, Negated(limit)));
      bought == Mirror(sold) && Depleted(Buy, m, bought) == Depleted(Sell, m, sold)
  }

  /** Selling mirrors buying exactly when no bid stands at the least `i64`. */
  lemma SellsMirrorBuysIff(m: BookSide)
    requires NoEmptyLevel(m)
    ensures SellsMirrorBuys(m) <==> I64_MIN !in m
  {
    if I64_MIN !in m {
      forall q: nat, limit: Option<int>
        ensures OrderFills(Buy, m, q, Negated(limit)) == Mirror(OrderFills(Sell, m, q, limit))
        ensures Depleted(Buy, m, OrderFills(Buy, m, q, Negated(limit))) == Depleted(Sell, m, OrderFills(Sell, m, q, limit))
      {
        LadderMirrored(m);
        SellMirrorsBuy(Ladder(Sell, m), q, limit);
        OrderFillsAre(Sell, m, q, limit);
        OrderFillsAre(Buy, m, q, Negated(limit));
        DepletedMirrored(m, OrderFills(Sell, m, q, limit));
      }
    } else {
      LeastBidFirst(m);
    }
  }

  lemma LadderMirrored(m: BookSide)
    requires I64_MIN !in m
    ensures Ladder(Buy, m) == Mirror(Ladder(Sell, m))
  {
    MirrorAt(Ladder(Sell, m));
    forall i | 0 <= i < |Ladder(Buy, m)| ensures Ladder(Buy, m)[i] == Mirror(Ladder(Sell, m))[i] {
      LadderAt(Buy, m, i);
      LadderAt(Sell, m, i);
    }
  }

  lemma {:induction false} QtyAtMirrored(levels: seq<BookLevel>, price: int)
    ensures QtyAt(Mirror(levels), price) == QtyAt(levels, -price)
  {
    if levels != [] {
      QtyAtMirrored(levels[1..], price);
      QtyAtCons(levels[0], levels[1..], -price);
      assert levels == [levels[0]] + levels[1..];
      QtyAtCons(BookLevel(-levels[0].price, levels[0].qty), Mirror(levels[1..]), price);
    }
  }

  lemma DepletedMirrored(m: BookSide, fills: seq<BookLevel>)
    requires I64_MIN !in m
    ensures Depleted(Buy, m, Mirror(fills)) == Depleted(Sell, m, fills)
  {
    hide QtyAt;
    forall k | k in m ensures QtyAt(Mirror(fills), KeyPrice(Buy, k)) == QtyAt(fills, KeyPrice(Sell, k)) {
      QtyAtMirrored(fills, k);
    }
  }

  lemma LeastBidFirst(m: BookSide)
    requires NoEmptyLevel(m) && I64_MIN in m
    ensures !SellsMirrorBuys(m)
  {
    assert I64_MIN in SortedKeys(m.Keys);
    assert SortedKeys(m.Keys)[0] == I64_MIN;
    LadderAt(Sell, m, 0);
    LadderAt(Buy, m, 0);
    NoTrade(Sell, Ladder(Sell, m)[1..], 0, None);
    NoTrade(Buy, Ladder(Buy, m)[1..], 0, None);
    assert OrderFills(Sell, m, 1, None) == [BookLevel(I64_MIN, 1)];
    assert OrderFills(Buy, m, 1, Negated(None)) == [BookLevel(I64_MIN, 1)];
  }

  lemma TotalsOfOne(level: BookLevel)
    ensures TotalQty([level]) == level.qty && Notional([level]) == level.price * level.qty
  {
  }

  /** One unit taken from the second level of a ladder. */
  lemma SecondLevelOnly(side: Side, ladder: seq<BookLevel>)
    requires |ladder| > 1 && Positive(ladder)
    ensures var alloc := [0, 1] + seq(|ladder| - 2, _ => 0);
            && Feasible(side, ladder, None, alloc)
            && Sum(alloc) == 1
            && Cost(ladder, alloc) == ladder[1].price
  {
    var zeros := seq(|ladder| - 2, _ => 0);
    NothingTaken(ladder[2..], zeros);
    var alloc: seq<nat> := [0, 1] + zeros;
    assert alloc[1..] == [1] + zeros && alloc[1..][1..] == zeros;
    assert ladder[1..][1..] == ladder[2..];
  }

  lemma {:induction false} NothingTaken(ladder: seq<BookLevel>, zeros: seq<nat>)
    requires |zeros| == |ladder| && forall i :: 0 <= i < |zeros| ==> zeros[i] == 0
    ensures Sum(zeros) == 0 && Cost(ladder, zeros) == 0
  {
    if zeros != [] {
      NothingTaken(ladder[1..], zeros[1..]);
    }
  }

  /* ----- Building a book ----- */

  lemma WithoutOne(levels: seq<BookLevel>, i: nat, price: int)
    requires i < |levels|
    ensures var others := levels[..i] + levels[i + 1..];
            && multiset(others) == multiset(levels) - multiset{levels[i]}
            && QtyAt(levels, price) == QtyAt([levels[i]], price) + QtyAt(others, price)
  {
    var before, after := levels[..i], levels[i + 1..];
    assert levels == before + ([levels[i]] + after);
    assert multiset(levels) == multiset(before + after) + multiset{levels[i]};
    QtyAtAppend(before, [levels[i]] + after, price);
    QtyAtAppend([levels[i]], after, price);
    QtyAtAppend(before, after, price);
  }

  lemma {:induction false} QtyAtPermuted(a: seq<BookLevel>, b: seq<BookLevel>, price: int)
    requires multiset(a) == multiset(b)
    ensures QtyAt(a, price) == QtyAt(b, price)
  {
    hide QtyAt;
    if a == [] {
      assert |multiset(b)| == 0;
    } else {
      var i := FindIn(a[0], b);
      var others := WithoutFirst(a, b, i, price);
      QtyAtPermuted(a[1..], others, price);
    }
  }

  lemma WithoutFirst(a: seq<BookLevel>, b: seq<BookLevel>, i: nat, price: int) returns (others: seq<BookLevel>)
    requires a != [] && i < |b| && b[i] == a[0] && multiset(a) == multiset(b)
    ensures multiset(a[1..]) == multiset(others)
    ensures QtyAt(a, price) - QtyAt(a[1..], price) == QtyAt(b, price) - QtyAt(others, price)
  {
    hide QtyAt;
    WithoutOne(a, 0, price);
    WithoutOne(b, i, price);
    others := b[..i] + b[i + 1..];
    assert a[..0] + a[1..] == a[1..];
  }

  lemma FindIn(level: BookLevel, levels: seq<BookLevel>) returns (i: nat)
    requires level in multiset(levels)
    ensures i < |levels| && levels[i] == level
  {
    assert level in levels;
    i :| 0 <= i < |levels| && levels[i] == level;
  }

  /** A book built from levels does not depend on their order: sides holding
      the saturated sum of the levels at each price, as `FromLevels` leaves
      them, are the same for every arrangement of the levels. */
  lemma LevelOrderIrrelevant(
      side: Side, levels: seq<BookLevel>, rearranged: seq<BookLevel>, m: BookSide, m': BookSide)
    requires multiset(levels) == multiset(rearranged)
    requires NoEmptyLevel(m) && NoEmptyLevel(m')
    requires forall p: I64 :: Resting(side, m, p) == Min(QtyAt(levels, p), U64_MAX)
    requires forall p: I64 :: Resting(side, m', p) == Min(QtyAt(rearranged, p), U64_MAX)
    ensures m == m'
  {
    forall p: I64 ensures Resting(side, m, p) == Resting(side, m', p) {
      QtyAtPermuted(levels, rearranged, p);
    }
    RestingDetermines(side, m, m');
  }
}
