/** Volume-weighted average prices in saturating 128-bit arithmetic. */
module Vwap {
  import opened MachineInts
  import opened Matching

  /** The exact average, rounded toward zero; 0 when nothing traded. */
  function ExactVwap(fills: seq<BookLevel>): int {
    if TotalQty(fills) == 0 then 0 else TruncDiv(Notional(fills), TotalQty(fills))
  }

  /** Running totals as the loops keep them: every sum and product saturates. */
  function RunNotional(acc: int, fills: seq<BookLevel>): int
    decreases fills
  {
    if fills == [] then acc
    else RunNotional(SatI128(acc + SatI128(fills[0].price * fills[0].qty)), fills[1..])
  }

  function RunQty(acc: nat, fills: seq<BookLevel>, cap: nat): nat
    decreases fills
  {
    if fills == [] then acc else RunQty(Min(acc + fills[0].qty, cap), fills[1..], cap)
  }

  /** The totals of a slice of levels; a slice is shorter than 2^63. */
  method VwapPaise(fills: seq<Level>) returns (qty: U64, vwap: I64)
    requires |fills| <= I64_MAX
    ensures qty == Min(TotalQty(fills), U64_MAX)
    ensures vwap == if TotalQty(fills) == 0 then 0
                    else Clamp(TruncDiv(RunNotional(0, fills), TotalQty(fills)), I64_MIN, I64_MAX)
    ensures TotalQty(fills) <= U64_MAX ==> vwap == ExactVwap(fills)
  {
    hide RunNotional, TruncDiv;
    var totalQty, totalNotional := 0, 0;
    assert fills[0..] == fills;
    TotalQtyBound(fills);
    for i := 0 to |fills|
      invariant totalQty == TotalQty(fills[..i])
      invariant RunNotional(totalNotional, fills[i..]) == RunNotional(0, fills)
    {
      var f := fills[i];
      RunNotionalStep(totalNotional, fills, i);
      assert fills[..i + 1] == fills[..i] + [f] && fills == fills[..i + 1] + fills[i + 1..];
      TotalsAppend(fills[..i], [f]);
      TotalsAppend(fills[..i + 1], fills[i + 1..]);
      totalQty := Min(totalQty + f.qty, U128_MAX);
      totalNotional := SatI128(totalNotional + SatI128(f.price * f.qty));
    }
    assert fills[..|fills|] == fills;
    RunNotionalStep(totalNotional, fills, |fills|);
    if totalQty == 0 {
      return 0, 0;
    }
    var average := TruncDiv(totalNotional, totalQty);
    qty := Min(totalQty, U64_MAX);
    vwap := Clamp(average, I64_MIN, I64_MAX);
    if totalQty <= U64_MAX {
      NothingSaturates(fills);
    }
  }

  /** For quantities that fit `u64` no saturation or clamp changes the average. */
  lemma NothingSaturates(fills: seq<Level>)
    requires 0 < TotalQty(fills) <= U64_MAX
    ensures Clamp(TruncDiv(RunNotional(0, fills), TotalQty(fills)), I64_MIN, I64_MAX) == ExactVwap(fills)
  {
    RunNotionalExact(0, 0, fills);
    VwapBetween(fills, I64_MIN, I64_MAX);
  }

  lemma RunNotionalStep(acc: int, fills: seq<BookLevel>, i: nat)
    requires i <= |fills|
    ensures RunNotional(acc, fills[i..])
         == if i == |fills| then acc
            else RunNotional(SatI128(acc + SatI128(fills[i].price * fills[i].qty)), fills[i + 1..])
  {
    if i < |fills| {
      assert fills[i..][1..] == fills[i + 1..];
    }
  }

  lemma {:induction false} TotalQtyBound(fills: seq<Level>)
    ensures TotalQty(fills) <= |fills| * U64_MAX
  {
    if fills != [] {
      TotalQtyBound(fills[1..]);
    }
  }

  /** While the total quantity fits `u64` nothing saturates: a running
      notional of `i64` prices over `qty` units grows by the exact notional. */
  lemma {:induction false} RunNotionalExact(acc: int, qty: nat, fills: seq<Level>)
    requires I64_MIN * qty <= acc <= I64_MAX * qty
    requires qty + TotalQty(fills) <= U64_MAX
    ensures RunNotional(acc, fills) == acc + Notional(fills)
    decreases fills
  {
    if fills != [] {
      var f := fills[0];
      MulMonotone(I64_MIN, f.price, f.qty);
      MulMonotone(f.price, I64_MAX, f.qty);
      var product := f.price * f.qty;
      assert SatI128(product) == product;
      assert SatI128(acc + product) == acc + product;
      RunNotionalExact(acc + product, qty + f.qty, fills[1..]);
    }
  }

  lemma {:induction false} RunQtyExact(acc: nat, fills: seq<BookLevel>, cap: nat)
    requires acc + TotalQty(fills) <= cap
    ensures RunQty(acc, fills, cap) == acc + TotalQty(fills)
    decreases fills
  {
    if fills != [] {
      RunQtyExact(acc + fills[0].qty, fills[1..], cap);
    }
  }

  /** The average lies within any band that holds every fill price. */
  lemma VwapBetween(fills: seq<BookLevel>, lo: int, hi: int)
    requires TotalQty(fills) > 0
    requires forall i :: 0 <= i < |fills| ==> lo <= fills[i].price <= hi
    ensures lo <= ExactVwap(fills) <= hi
  {
    NotionalBetween(fills, lo, hi);
    TruncDivBetween(Notional(fills), TotalQty(fills), lo, hi);
  }
}
