/** One simulated order: fills, running average and state. */
module OrderRecords {
  import opened MachineInts
  import opened Matching
  import opened BrokerApi
  import opened Vwap

  datatype Record = Record(
    id: string, intent: OrderIntent, filledQty: U64, avgFillPaise: I64,
    state: OrderState, lastTs: U64, fills: seq<Level>)

  function NewRecord(id: string, intent: OrderIntent, ts: U64): Record {
    Record(id, intent, 0, 0, New, ts, [])
  }

  function AfterFills(r: Record, batch: seq<Level>, ts: U64): Record {
    if batch == [] then r.(state := if r.state.New? then Submitted else r.state, lastTs := ts)
    else
      var qty := RunQty(r.filledQty, batch, I128_MAX);
      var notional := RunNotional(SatI128(r.avgFillPaise * r.filledQty), batch);
      var filled := Min(qty, U64_MAX);
      r.(filledQty := filled,
         avgFillPaise := if qty == 0 then 0 else Clamp(TruncDiv(notional, qty), I64_MIN, I64_MAX),
         state := if filled >= r.intent.quantity then Filled
                  else if filled == 0 then Submitted else PartiallyFilled,
         lastTs := ts,
         fills := r.fills + batch)
  }

  function AfterModification(r: Record, m: OrderModification, ts: U64): (Record, Result<(), BrokerError>) {
    if r.state.IsTerminal() || (m.newQuantity.Some? && m.newQuantity.value < r.filledQty) then (r, Err(Refused))
    else
      var quantity := if m.newQuantity.Some? then m.newQuantity.value else r.intent.quantity;
      var limit := if m.newLimitPaise.Some? then m.newLimitPaise.value else r.intent.limitPaise;
      (r.(intent := r.intent.(quantity := quantity, limitPaise := limit), lastTs := ts), Ok(()))
  }

  function AfterCancel(r: Record, ts: U64): (Record, Result<(), BrokerError>) {
    if r.state.IsTerminal() then (r, Err(Refused)) else (r.(state := Cancelled, lastTs := ts), Ok(()))
  }

  class OrderRecord {
    const id: string
    var intent: OrderIntent
    var filledQty: U64
    var avgFillPaise: I64
    var state: OrderState
    var lastTs: U64
    var fills: seq<Level>

    ghost function View(): Record
      reads this
    {
      Record(id, intent, filledQty, avgFillPaise, state, lastTs, fills)
    }

    constructor (id: string, intent: OrderIntent, ts: U64)
      ensures View() == NewRecord(id, intent, ts)
    {
      this.id, this.intent := id, intent;
      filledQty, avgFillPaise, state, lastTs, fills := 0, 0, New, ts, [];
    }

    method ApplyFills(batch: seq<Level>, ts: U64)
      modifies this
      ensures View() == AfterFills(old(View()), batch, ts)
    {
      lastTs := ts;
      if batch == [] {
        if state.New? {
          state := Submitted;
        }
        return;
      }
      var priorQty: int := filledQty;
      var priorNotional := SatI128(avgFillPaise * priorQty);
      ghost var startNotional := priorNotional;
      assert batch[0..] == batch;
      for i := 0 to |batch|
        invariant 0 <= priorQty
        invariant RunQty(priorQty, batch[i..], I128_MAX) == RunQty(filledQty, batch, I128_MAX)
        invariant RunNotional(priorNotional, batch[i..]) == RunNotional(startNotional, batch)
        invariant fills == old(fills) + batch[..i]
        invariant filledQty == old(filledQty) && avgFillPaise == old(avgFillPaise)
        invariant intent == old(intent) && state == old(state) && lastTs == ts
      {
        var q := batch[i].qty;
        assert batch[i..][1..] == batch[i + 1..];
        assert batch[..i + 1] == batch[..i] + [batch[i]];
        priorNotional := SatI128(priorNotional + SatI128(batch[i].price * q));
        priorQty := Min(priorQty + q, I128_MAX);
        fills := fills + [batch[i]];
      }
      assert batch[..|batch|] == batch && batch[|batch|..] == [];
      var newQty := Min(priorQty, U64_MAX);
      filledQty := newQty;
      avgFillPaise := if newQty == 0 then 0 else Clamp(TruncDiv(priorNotional, priorQty), I64_MIN, I64_MAX);
      var requested := intent.quantity;
      state := if filledQty >= requested then Filled
               else if filledQty == 0 then Submitted else PartiallyFilled;
    }

    method ApplyModification(m: OrderModification, ts: U64) returns (result: Result<(), BrokerError>)
      modifies this
      ensures (View(), result) == AfterModification(old(View()), m, ts)
    {
      if state.IsTerminal() {
        return Err(Refused);
      }
      if m.newQuantity.Some? {
        if m.newQuantity.value < filledQty {
          return Err(Refused);
        }
        intent := intent.(quantity := m.newQuantity.value);
      }
      if m.newLimitPaise.Some? {
        intent := intent.(limitPaise := m.newLimitPaise.value);
      }
      lastTs := ts;
      return Ok(());
    }

    method ApplyCancel(ts: U64) returns (result: Result<(), BrokerError>)
      modifies this
      ensures (View(), result) == AfterCancel(old(View()), ts)
    {
      if state.IsTerminal() {
        return Err(Refused);
      }
      state := Cancelled;
      lastTs := ts;
      return Ok(());
    }

    method ToStatus() returns (status: OrderStatus)
      ensures status == StatusOf(View())
    {
      status := OrderStatus(id, state, filledQty, avgFillPaise, Some(lastTs));
    }
  }

  function StatusOf(r: Record): OrderStatus {
    OrderStatus(r.id, r.state, r.filledQty, r.avgFillPaise, Some(r.lastTs))
  }

  /* ----- The running average ----- */

  /** Applying a batch to a record whose totals still fit `u64`: the quantity
      is exact, and the average is the old average, as a notional, plus the
      batch, divided once more. */
  lemma AfterFillsExact(r: Record, batch: seq<Level>, ts: U64)
    requires batch != [] && r.filledQty + TotalQty(batch) <= U64_MAX
    ensures var r' := AfterFills(r, batch, ts);
            && r'.filledQty == r.filledQty + TotalQty(batch)
            && r'.fills == r.fills + batch
            && r'.avgFillPaise == if r'.filledQty == 0 then 0
               else TruncDiv(r.avgFillPaise * r.filledQty + Notional(batch), r'.filledQty)
  {
    var avg, qty := r.avgFillPaise, r.filledQty;
    MulMonotone(I64_MIN, avg, qty);
    MulMonotone(avg, I64_MAX, qty);
    var prior := avg * qty;
    assert SatI128(prior) == prior;
    RunQtyExact(qty, batch, I128_MAX);
    RunNotionalExact(prior, qty, batch);
    var total := qty + TotalQty(batch);
    if total > 0 {
      NotionalBetween(batch, I64_MIN, I64_MAX);
      TruncDivBetween(prior + Notional(batch), total, I64_MIN, I64_MAX);
    }
  }

  /** Any batch leaves the order `Filled` exactly when its request is reached,
      `Submitted` when nothing has filled, and dates it; an empty one only
      submits a new order. */
  lemma BatchMovesState(r: Record, batch: seq<Level>, ts: U64)
    requires r.filledQty + TotalQty(batch) <= U64_MAX
    ensures var r' := AfterFills(r, batch, ts);
            && r'.id == r.id && r'.intent == r.intent && r'.lastTs == ts
            && (batch == [] ==> r' == r.(state := if r.state == New then Submitted else r.state, lastTs := ts))
            && (batch != [] ==>
                  && (r'.state == Filled <==> r.filledQty + TotalQty(batch) >= r.intent.quantity)
                  && (r'.state == Submitted <==> r.filledQty + TotalQty(batch) == 0 < r.intent.quantity)
                  && r'.state in {Filled, Submitted, PartiallyFilled})
  {
    if batch != [] {
      AfterFillsExact(r, batch, ts);
    }
  }

  /** The first batch of fills sets the exact average. */
  lemma FirstBatchIsVwap(r: Record, batch: seq<Level>, ts: U64)
    requires r.filledQty == 0 && r.avgFillPaise == 0 && TotalQty(batch) <= U64_MAX
    ensures AfterFills(r, batch, ts).filledQty == TotalQty(batch)
    ensures AfterFills(r, batch, ts).avgFillPaise == ExactVwap(batch)
  {
    if batch != [] {
      AfterFillsExact(r, batch, ts);
    }
  }

  function AfterBatches(r: Record, batches: seq<seq<Level>>, ts: U64): Record {
    if batches == [] then r
    else AfterFills(AfterBatches(r, batches[..|batches| - 1], ts), batches[|batches| - 1], ts)
  }

  function Flatten(batches: seq<seq<Level>>): seq<Level> {
    if batches == [] then [] else Flatten(batches[..|batches| - 1]) + batches[|batches| - 1]
  }

  /** What the reported average leaves out of the exact notional. */
  function Drift(r: Record): int {
    Notional(r.fills) - r.avgFillPaise * r.filledQty
  }

  /** Each batch adds less than one paisa of drift per unit filled. */
  lemma DriftStep(r: Record, batch: seq<Level>, ts: U64)
    requires batch != [] && r.filledQty + TotalQty(batch) <= U64_MAX
    ensures var r' := AfterFills(r, batch, ts);
            && Abs(Drift(r') - Drift(r)) <= r'.filledQty
            && (r'.filledQty > 0 ==> Abs(Drift(r') - Drift(r)) < r'.filledQty)
            && (r.avgFillPaise >= 0 && Notional(batch) >= 0 ==> Drift(r') >= Drift(r) && r'.avgFillPaise >= 0)
  {
    hide AfterFills;
    AfterFillsExact(r, batch, ts);
    TotalsAppend(r.fills, batch);
    var r' := AfterFills(r, batch, ts);
    var carried := r.avgFillPaise * r.filledQty + Notional(batch);
    if r'.filledQty > 0 {
      TruncDivRemainder(carried, r'.filledQty);
      if r.avgFillPaise >= 0 && Notional(batch) >= 0 {
        MulMonotone(0, r.avgFillPaise, r.filledQty);
      }
    } else {
      NoQtyNoNotional(batch);
    }
  }

  lemma {:induction false} NoQtyNoNotional(fills: seq<BookLevel>)
    requires TotalQty(fills) == 0
    ensures Notional(fills) == 0
  {
    if fills != [] {
      NoQtyNoNotional(fills[1..]);
    }
  }

  /** The quantity is exact, and the average is less than k paise off. */
  ghost predicate WithinPaise(r: Record, k: nat) {
    && r.filledQty == TotalQty(r.fills)
    && Abs(Drift(r)) <= k * r.filledQty
    && (r.filledQty > 0 ==> Abs(Drift(r)) < k * r.filledQty)
  }

  lemma WithinStep(r: Record, batch: seq<Level>, ts: U64, k: nat)
    requires WithinPaise(r, k)
    requires batch != [] && r.filledQty + TotalQty(batch) <= U64_MAX
    ensures WithinPaise(AfterFills(r, batch, ts), k + 1)
  {
    hide AfterFills, Drift;
    var r' := AfterFills(r, batch, ts);
    AfterFillsExact(r, batch, ts);
    TotalsAppend(r.fills, batch);
    DriftStep(r, batch, ts);
    MulMonotone(r.filledQty, r'.filledQty, k);
    Distribute(r'.filledQty, k, 1);
  }

  /** The drift of the running average is bounded: after k non-empty batches
      the quantity is exact and the average is less than k paise from the
      exact one, whatever the signs of the prices. */
  lemma {:induction false} DriftBounded(r: Record, batches: seq<seq<Level>>, ts: U64)
    requires r.filledQty == 0 && r.avgFillPaise == 0 && r.fills == []
    requires forall i :: 0 <= i < |batches| ==> batches[i] != []
    requires TotalQty(Flatten(batches)) <= U64_MAX
    ensures AfterBatches(r, batches, ts).fills == Flatten(batches)
    ensures WithinPaise(AfterBatches(r, batches, ts), |batches|)
  {
    if batches != [] {
      var k := |batches| - 1;
      var before := AfterBatches(r, batches[..k], ts);
      TotalsAppend(Flatten(batches[..k]), batches[k]);
      DriftBounded(r, batches[..k], ts);
      WithinStep(before, batches[k], ts, k);
    }
  }

  /** With batches of non-negative notional the average is never too high. */
  lemma {:induction false} NeverAboveExact(r: Record, batches: seq<seq<Level>>, ts: U64)
    requires r.filledQty == 0 && r.avgFillPaise == 0 && r.fills == []
    requires forall i :: 0 <= i < |batches| ==> batches[i] != [] && Notional(batches[i]) >= 0
    requires TotalQty(Flatten(batches)) <= U64_MAX
    ensures var r' := AfterBatches(r, batches, ts);
            Drift(r') >= 0 && r'.avgFillPaise >= 0
  {
    if batches != [] {
      var k := |batches| - 1;
      TotalsAppend(Flatten(batches[..k]), batches[k]);
      DriftBounded(r, batches[..k], ts);
      NeverAboveExact(r, batches[..k], ts);
      DriftStep(AfterBatches(r, batches[..k], ts), batches[k], ts);
    }
  }

  /** The running average does lose precision: three units at 1, 2 and 3
      paise in two batches are reported at 1, and average 2. */
  lemma DriftHappens(intent: OrderIntent, ts: U64)
    ensures var first: seq<Level> := [BookLevel(1, 1), BookLevel(2, 1)];
            var second: seq<Level> := [BookLevel(3, 1)];
            var r := AfterFills(AfterFills(NewRecord("SIM-1", intent, ts), first, ts), second, ts);
            r.avgFillPaise == 1 && ExactVwap(r.fills) == 2
  {
    hide AfterFills;
    var r0 := NewRecord("SIM-1", intent, ts);
    var first: seq<Level> := [BookLevel(1, 1), BookLevel(2, 1)];
    var second: seq<Level> := [BookLevel(3, 1)];
    assert first[1..] == [BookLevel(2, 1)];
    assert TotalQty(first) == 2 && Notional(first) == 3;
    assert TotalQty(second) == 1 && Notional(second) == 3;
    AfterFillsExact(r0, first, ts);
    var r1 := AfterFills(r0, first, ts);
    assert r1.fills == first && r1.filledQty == 2 && r1.avgFillPaise == 1;
    AfterFillsExact(r1, second, ts);
    TotalsAppend(first, second);
  }

  /* ----- When the running average stays exact ----- */

  /** Whatever batch comes next, as long as the quantity fits, the reported
      average is that of all the fills. */
  ghost predicate StaysExact(r: Record) {
    forall batch: seq<Level>, ts: U64 :: batch != [] && r.filledQty + TotalQty(batch) <= U64_MAX ==>
      AfterFills(r, batch, ts).avgFillPaise == ExactVwap(r.fills + batch)
  }

  /** The next batch is averaged exactly, whatever it is, if and only if the
      stored average times the quantity is still the whole notional. Two more
      units have to fit for a batch to show the difference. */
  lemma StaysExactIff(r: Record)
    requires r.filledQty == TotalQty(r.fills)
    ensures Drift(r) == 0 ==> StaysExact(r)
    ensures r.filledQty <= U64_MAX - 2 ==> (StaysExact(r) <==> Drift(r) == 0)
  {
    hide AfterFills, Drift;
    if Drift(r) == 0 {
      forall batch: seq<Level>, ts: U64 | batch != [] && r.filledQty + TotalQty(batch) <= U64_MAX
        ensures AfterFills(r, batch, ts).avgFillPaise == ExactVwap(r.fills + batch)
      {
        NextAverages(r, batch, ts);
      }
    } else if r.filledQty <= U64_MAX - 2 {
      var batch := DriftShows(r);
    }
  }

  /** The next average as reported and as it should be. */
  lemma NextAverages(r: Record, batch: seq<Level>, ts: U64)
    requires r.filledQty == TotalQty(r.fills)
    requires batch != [] && r.filledQty + TotalQty(batch) <= U64_MAX
    ensures var n := r.filledQty + TotalQty(batch);
            var carried := r.avgFillPaise * r.filledQty + Notional(batch);
            && AfterFills(r, batch, ts).avgFillPaise == (if n == 0 then 0 else TruncDiv(carried, n))
            && ExactVwap(r.fills + batch) == (if n == 0 then 0 else TruncDiv(carried + Drift(r), n))
  {
    hide AfterFills, TruncDiv;
    AfterFillsExact(r, batch, ts);
    TotalsAppend(r.fills, batch);
  }

  lemma TotalsOfTwo(a: BookLevel, b: BookLevel)
    ensures TotalQty([a, b]) == a.qty + b.qty
    ensures Notional([a, b]) == a.price * a.qty + b.price * b.qty
  {
    assert [a, b] == [a] + [b];
    TotalsAppend([a], [b]);
    assert TotalQty([a]) == a.qty && TotalQty([b]) == b.qty;
    assert Notional([a]) == a.price * a.qty && Notional([b]) == b.price * b.qty;
  }

  /** Two units that carry the total across a multiple of the new quantity. */
  lemma DriftShows(r: Record) returns (batch: seq<Level>)
    requires r.filledQty == TotalQty(r.fills) <= U64_MAX - 2 && Drift(r) != 0
    ensures batch != [] && TotalQty(batch) == 2
    ensures AfterFills(r, batch, 0).avgFillPaise != ExactVwap(r.fills + batch)
  {
    var n := r.filledQty + 2;
    var s := CrossesMultiple(r.avgFillPaise * r.filledQty, Drift(r), n);
    hide TruncDiv, AfterFills, Drift, ExactVwap, TotalQty, Notional;
    var one, other := BookLevel(s / 2, 1), BookLevel(s - s / 2, 1);
    batch := [one, other];
    TotalsOfTwo(one, other);
    assert TotalQty(batch) == 2 && Notional(batch) == s;
    NextAverages(r, batch, 0);
  }

  /** Two different numbers are moved by less than n to where their quotients differ. */
  lemma CrossesMultiple(x: int, d: int, n: int) returns (s: int)
    requires d != 0 && n >= 2
    ensures -n < s < n && TruncDiv(x + s, n) != TruncDiv(x + s + d, n)
  {
    if d > 0 {
      s := CrossesUp(x, d, n);
    } else {
      var mirrored := CrossesUp(-x, -d, n);
      s := -mirrored;
      TruncDivOdd(x + s, n);
      TruncDivOdd(x + s + d, n);
      assert -(x + s) == -x + mirrored && -(x + s + d) == -x + mirrored + -d;
    }
  }

  lemma TruncDivOdd(a: int, n: int)
    requires n > 0
    ensures TruncDiv(-a, n) == -TruncDiv(a, n)
  {
    assert a == 0 ==> a / n == 0;
  }

  lemma CrossesUp(x: int, d: int, n: int) returns (s: int)
    requires d > 0 && n >= 2
    ensures -n < s < n && TruncDiv(x + s, n) < TruncDiv(x + s + d, n)
  {
    var k;
    s, k := NextMultiple(x, n);
    var a, a' := x + s, x + s + d;
    TruncDivRemainder(a, n);
    TruncDivRemainder(a', n);
    hide TruncDiv;
    QuotientsApart(a, TruncDiv(a, n), a', TruncDiv(a', n), k, n);
  }

  /** The last number before the quotient becomes k, less than n away. */
  lemma NextMultiple(x: int, n: int) returns (s: int, k: int)
    requires n > 0
    ensures -n < s < n
    ensures x + s == if k > 0 then k * n - 1 else (k - 1) * n
  {
    if x >= 0 {
      k := x / n + 1;
      DivMod(x, n);
      Distribute(n, x / n, 1);
      s := k * n - 1 - x;
    } else {
      var m := (-x + n - 1) / n;
      DivMod(-x + n - 1, n);
      MulCancelLess(0, m, n);
      k := 1 - m;
      assert (k - 1) * n == -(m * n);
      s := (k - 1) * n - x;
    }
  }

  /** Quotients on the two sides of the point where the quotient becomes k. */
  lemma QuotientsApart(a: int, q: int, a': int, q': int, k: int, n: int)
    requires n > 0 && a < a' && Abs(a - q * n) < n && Abs(a' - q' * n) < n
    requires (a >= 0 ==> 0 <= q * n <= a) && (a <= 0 ==> a <= q * n <= 0)
    requires (a' >= 0 ==> 0 <= q' * n <= a') && (a' <= 0 ==> a' <= q' * n <= 0)
    requires if k > 0 then a == k * n - 1 else a == (k - 1) * n
    ensures q < k <= q'
  {
    Distribute(n, k, -1);
    if k > 0 {
      MulMonotone(1, k, n);
      MulCancelLess(q, k, n);
      MulCancelLess(k - 1, q', n);
    } else {
      MulMonotone(k, 0, n);
      MulCancelLess(q, k, n);
      MulCancelLess(k - 1, q', n);
    }
  }

  /** Why two units have to fit: a full record one paisa off takes no batch
      that could show it. */
  lemma FullRecordHidesDrift(intent: OrderIntent)
    ensures var r := NewRecord("SIM-1", intent, 0).(
                       filledQty := U64_MAX, fills := [BookLevel(1, 1), BookLevel(0, U64_MAX - 1)]);
            r.filledQty == TotalQty(r.fills) && Drift(r) == 1 && StaysExact(r)
  {
    var fills: seq<Level> := [BookLevel(1, 1), BookLevel(0, U64_MAX - 1)];
    var r := NewRecord("SIM-1", intent, 0).(filledQty := U64_MAX, fills := fills);
    TotalsOfTwo(fills[0], fills[1]);
    forall batch: seq<Level>, ts: U64 | batch != [] && r.filledQty + TotalQty(batch) <= U64_MAX
      ensures AfterFills(r, batch, ts).avgFillPaise == ExactVwap(r.fills + batch)
    {
      hide AfterFills;
      NextAverages(r, batch, ts);
      NoQtyNoNotional(batch);
    }
  }
}
