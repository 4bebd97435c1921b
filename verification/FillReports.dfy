/** Turning a broker's cumulative fill reports into per-fill quantities and prices. */
module FillReports {
  import opened MachineInts
  import opened BrokerApi
  import opened OrderTracker

  datatype Report = Report(cumQty: U64, cumAvg: I64, ts: U64)

  datatype FillEvent = FillEvent(qty: U64, price: I64, ts: U64)

  /** The change in notional between two cumulative reports. */
  function DeltaNotional(priorQty: U64, priorAvg: I64, cumQty: U64, cumAvg: I64): int {
    cumAvg * cumQty - priorAvg * priorQty
  }

  /** The `Fill` of a report accepted by the tracker, against the cumulative
      values read before: none when the quantity did not grow. The notional
      difference wraps to `i128` and its quotient to `i64`. */
  function FillOf(priorQty: U64, priorAvg: I64, report: Report): Option<FillEvent> {
    var delta := Max(report.cumQty - priorQty, 0);
    if delta == 0 then None
    else
      var notional := WrapI128(DeltaNotional(priorQty, priorAvg, report.cumQty, report.cumAvg));
      Some(FillEvent(delta, WrapI64(TruncDiv(notional, delta)), report.ts))
  }

  /** The second lock of a report: the tracker takes it, and the fill is worked
      out against the values read under the first lock. */
  function Accept(t: Tracker, priorQty: U64, priorAvg: I64, report: Report)
    : (Tracker, Result<(LifecycleEvent, Option<FillEvent>), ExecError>)
  {
    var (t', result) := AfterPartialFill(t, report.cumQty, report.cumAvg, report.ts);
    match result
    case Err(error) => (t', Err(error))
    case Ok(event) => (t', Ok((event, FillOf(priorQty, priorAvg, report))))
  }

  /** One report handled without interruption. */
  function AfterReport(t: Tracker, report: Report)
    : (Tracker, Result<(LifecycleEvent, Option<FillEvent>), ExecError>)
  {
    Accept(t, t.filledQty, t.avgFillPaise, report)
  }

  lemma FailedReport(t: Tracker, report: Report)
    requires AfterReport(t, report).1.Err?
    ensures AfterReport(t, report).0 == t
  {
  }

  function RunReports(t: Tracker, reports: seq<Report>): Tracker {
    if reports == [] then t
    else AfterReport(RunReports(t, reports[..|reports| - 1]), reports[|reports| - 1]).0
  }

  function FillsOf(result: Result<(LifecycleEvent, Option<FillEvent>), ExecError>): seq<FillEvent> {
    if result.Ok? && result.value.1.Some? then [result.value.1.value] else []
  }

  function EmittedFills(t: Tracker, reports: seq<Report>): seq<FillEvent> {
    if reports == [] then []
    else
      var before := reports[..|reports| - 1];
      EmittedFills(t, before) + FillsOf(AfterReport(RunReports(t, before), reports[|reports| - 1]).1)
  }

  function FilledTotal(fills: seq<FillEvent>): nat {
    if fills == [] then 0 else FilledTotal(fills[..|fills| - 1]) + fills[|fills| - 1].qty
  }

  function PaidTotal(fills: seq<FillEvent>): int {
    if fills == [] then 0
    else PaidTotal(fills[..|fills| - 1]) + fills[|fills| - 1].price * fills[|fills| - 1].qty
  }

  lemma TotalsSnoc(fills: seq<FillEvent>, fill: FillEvent)
    ensures FilledTotal(fills + [fill]) == FilledTotal(fills) + fill.qty
    ensures PaidTotal(fills + [fill]) == PaidTotal(fills) + fill.price * fill.qty
  {
    assert (fills + [fill])[..|fills|] == fills;
  }

  /* ----- Quantities ----- */

  /** The emitted quantities add up to exactly what the tracker filled, and
      never exceed the request, for any reports at all. */
  lemma {:induction false} QuantitiesAddUp(t: Tracker, reports: seq<Report>)
    requires TrackerOk(t)
    ensures var t' := RunReports(t, reports);
            && TrackerOk(t') && t'.requestedQty == t.requestedQty
            && FilledTotal(EmittedFills(t, reports)) == t'.filledQty - t.filledQty
            && t.filledQty + FilledTotal(EmittedFills(t, reports)) <= t.requestedQty
  {
    if reports != [] {
      var before, last := reports[..|reports| - 1], reports[|reports| - 1];
      QuantitiesAddUp(t, before);
      var mid := RunReports(t, before);
      CallKeepsTrackerOk(mid, CallPartialFill(last.cumQty, last.cumAvg, last.ts));
      var fills := FillsOf(AfterReport(mid, last).1);
      if fills != [] {
        TotalsSnoc(EmittedFills(t, before), fills[0]);
        assert fills == [fills[0]];
      } else {
        assert EmittedFills(t, before) + [] == EmittedFills(t, before);
      }
    }
  }

  /* ----- Prices ----- */

  predicate FitsI64(x: int) {
    I64_MIN <= x <= I64_MAX
  }

  lemma WrapIdentity(x: int)
    ensures I128_MIN <= x <= I128_MAX ==> WrapI128(x) == x
    ensures FitsI64(x) ==> WrapI64(x) == x
  {
  }

  /** A quotient that fits `i64` comes from a notional that fits `i128`. */
  lemma NotionalFits(priorQty: U64, priorAvg: I64, cumQty: U64, cumAvg: I64)
    requires priorQty < cumQty
    requires FitsI64(TruncDiv(DeltaNotional(priorQty, priorAvg, cumQty, cumAvg), cumQty - priorQty))
    ensures I128_MIN <= DeltaNotional(priorQty, priorAvg, cumQty, cumAvg) <= I128_MAX
  {
    var d, delta := DeltaNotional(priorQty, priorAvg, cumQty, cumAvg), cumQty - priorQty;
    TruncDivRemainder(d, delta);
    var quotient := TruncDiv(d, delta);
    MulMonotone(I64_MIN, quotient, delta);
    MulMonotone(quotient, I64_MAX, delta);
    if priorQty == 0 {
      MulMonotone(I64_MIN, cumAvg, cumQty);
    }
  }

  /** A per-fill price is within one paisa of the fill's true price if and only
      if that price, rounded toward zero, fits `i64`. */
  lemma PriceExactIff(priorQty: U64, priorAvg: I64, report: Report)
    requires priorQty < report.cumQty
    ensures var d := DeltaNotional(priorQty, priorAvg, report.cumQty, report.cumAvg);
            var fill := FillOf(priorQty, priorAvg, report).value;
            Abs(fill.price * fill.qty - d) < fill.qty <==> FitsI64(TruncDiv(d, fill.qty))
  {
    var d := DeltaNotional(priorQty, priorAvg, report.cumQty, report.cumAvg);
    var fill := FillOf(priorQty, priorAvg, report).value;
    if FitsI64(TruncDiv(d, fill.qty)) {
      NotionalFits(priorQty, priorAvg, report.cumQty, report.cumAvg);
      WrapIdentity(d);
      WrapIdentity(TruncDiv(d, fill.qty));
      TruncDivRemainder(d, fill.qty);
    } else {
      NoI64PriceFits(d, fill.qty, fill.price);
    }
  }

  lemma NoI64PriceFits(d: int, qty: nat, price: I64)
    requires qty > 0 && !FitsI64(TruncDiv(d, qty))
    ensures Abs(price * qty - d) >= qty
  {
    TruncDivRemainder(d, qty);
    var quotient := TruncDiv(d, qty);
    if quotient > I64_MAX {
      MulMonotone(price + 1, quotient, qty);
      Distribute(qty, price, 1);
    } else {
      MulMonotone(quotient, price - 1, qty);
      Distribute(qty, price, -1);
    }
  }

  /** A report whose price is representable, or, when the quantity does not
      grow, that repeats the average already known. */
  ghost predicate Faithful(t: Tracker, report: Report) {
    AfterReport(t, report).1.Ok? ==>
      if report.cumQty == t.filledQty then report.cumQty == 0 || report.cumAvg == t.avgFillPaise
      else FitsI64(TruncDiv(DeltaNotional(t.filledQty, t.avgFillPaise, report.cumQty, report.cumAvg),
                            report.cumQty - t.filledQty))
  }

  ghost predicate FaithfulRun(t: Tracker, reports: seq<Report>) {
    forall i :: 0 <= i < |reports| ==> Faithful(RunReports(t, reports[..i]), reports[i])
  }

  /** Rebuilt and reported notional differ by less than one paisa per unit. */
  ghost predicate Rebuilt(t: Tracker, fills: seq<FillEvent>) {
    && FilledTotal(fills) == t.filledQty
    && Abs(PaidTotal(fills) - t.avgFillPaise * t.filledQty) <= t.filledQty
    && (t.filledQty > 0 ==> Abs(PaidTotal(fills) - t.avgFillPaise * t.filledQty) < t.filledQty)
  }

  lemma ReportRebuilds(t: Tracker, fills: seq<FillEvent>, report: Report)
    requires TrackerOk(t) && Rebuilt(t, fills) && Faithful(t, report)
    ensures Rebuilt(AfterReport(t, report).0, fills + FillsOf(AfterReport(t, report).1))
  {
    var (t', result) := AfterReport(t, report);
    if result.Ok? && report.cumQty > t.filledQty {
      hide FilledTotal, PaidTotal, WrapI64, WrapI128, TruncDiv;
      PriceExactIff(t.filledQty, t.avgFillPaise, report);
      TotalsSnoc(fills, result.value.1.value);
    } else {
      assert fills + [] == fills;
    }
  }

  /** The average rebuilt from the emitted fills is strictly within one paisa
      of the broker's cumulative average, for any number of faithful reports. */
  lemma {:induction false} ReportsRebuild(t: Tracker, reports: seq<Report>)
    requires TrackerOk(t) && t.filledQty == 0
    requires FaithfulRun(t, reports)
    ensures Rebuilt(RunReports(t, reports), EmittedFills(t, reports))
  {
    if reports != [] {
      var before := reports[..|reports| - 1];
      assert forall i :: 0 <= i < |before| ==> before[..i] == reports[..i];
      ReportsRebuild(t, before);
      QuantitiesAddUp(t, before);
      ReportRebuilds(RunReports(t, before), EmittedFills(t, before), reports[|reports| - 1]);
    }
  }

  /** Why a repeated quantity must keep its average: 5 at 100 paise, reported
      again as 5 at 200, emits no second fill. */
  lemma RedeliveryCanMisprice(t: Tracker, ts: U64)
    requires t == NewTracker(1, 0, 10).(state := Submitted)
    ensures var reports := [Report(5, 100, ts), Report(5, 200, ts)];
            && RunReports(t, reports).avgFillPaise == 200
            && EmittedFills(t, reports) == [FillEvent(5, 100, ts)]
            && !Rebuilt(RunReports(t, reports), EmittedFills(t, reports))
  {
    var first, both := [Report(5, 100, ts)], [Report(5, 100, ts), Report(5, 200, ts)];
    assert first[..0] == [] && both[..1] == first;
    assert RunReports(t, []) == t && EmittedFills(t, []) == [];
    assert AfterReport(t, first[0]).1.Ok?;
    assert EmittedFills(t, first) == [FillEvent(5, 100, ts)];
    TotalsSnoc([], FillEvent(5, 100, ts));
  }

  /** Why every per-fill price must fit `i64`: one unit at 0, then two at the
      greatest average, makes the second fill's price wrap to -2. */
  lemma PriceCanWrap(t: Tracker, ts: U64)
    requires t == NewTracker(1, 0, 2).(state := PartiallyFilled, filledQty := 1)
    ensures FillsOf(AfterReport(t, Report(2, I64_MAX, ts)).1) == [FillEvent(1, -2, ts)]
    ensures !KeepsRebuilt(t, Report(2, I64_MAX, ts))
  {
    var report := Report(2, I64_MAX, ts);
    assert DeltaNotional(1, 0, 2, I64_MAX) == 2 * I64_MAX;
    assert !Faithful(t, report);
    hide Faithful;
    KeepsRebuiltIff(t, report);
  }

  /* ----- Exactly which reports keep the average rebuilt ----- */

  /** Whatever fills rebuilt the average before this report still do after it. */
  ghost predicate KeepsRebuilt(t: Tracker, report: Report) {
    forall fills :: Rebuilt(t, fills) ==>
      Rebuilt(AfterReport(t, report).0, fills + FillsOf(AfterReport(t, report).1))
  }

  /** Fills that say exactly what the tracker holds. */
  function ExactFills(t: Tracker): seq<FillEvent> {
    if t.filledQty == 0 then [] else [FillEvent(t.filledQty, t.avgFillPaise, 0)]
  }

  lemma ExactTotals(t: Tracker)
    ensures FilledTotal(ExactFills(t)) == t.filledQty
    ensures PaidTotal(ExactFills(t)) == t.avgFillPaise * t.filledQty
    ensures Rebuilt(t, ExactFills(t))
  {
    if t.filledQty > 0 {
      var fill := FillEvent(t.filledQty, t.avgFillPaise, 0);
      TotalsSnoc([], fill);
      assert [] + [fill] == ExactFills(t);
    }
  }

  /** A wrapped price is off by more than the whole quantity. */
  lemma WrappedPriceMisses(d: int, delta: nat, cumQty: U64)
    requires 0 < delta <= cumQty && !FitsI64(TruncDiv(d, delta))
    requires d < I128_MIN ==> delta < cumQty
    ensures Abs(WrapI64(TruncDiv(WrapI128(d), delta)) * delta - d) >= cumQty
  {
    var price := WrapI64(TruncDiv(WrapI128(d), delta));
    MulMonotone(I64_MIN, price, delta);
    MulMonotone(price, I64_MAX, delta);
    if I128_MIN <= d <= I128_MAX {
      WrapIdentity(d);
      WrapMoves(TruncDiv(d, delta));
      OffByAWrap(d, delta, price);
    }
  }

  lemma WrapMoves(x: int)
    requires !FitsI64(x)
    ensures Abs(WrapI64(x) - x) > U64_MAX
  {
  }

  lemma OffByAWrap(d: int, delta: nat, price: int)
    requires delta > 0 && Abs(price - TruncDiv(d, delta)) > U64_MAX
    ensures Abs(price * delta - d) > U64_MAX
  {
    var quotient := TruncDiv(d, delta);
    TruncDivRemainder(d, delta);
    if price > quotient {
      MulMonotone(quotient + U64_MAX + 1, price, delta);
      Distribute(delta, quotient, U64_MAX + 1);
    } else {
      MulMonotone(price, quotient - U64_MAX - 1, delta);
      Distribute(delta, quotient, -U64_MAX - 1);
    }
  }

  lemma DifferentAverages(a: int, b: int, qty: nat)
    requires a != b
    ensures Abs(a * qty - b * qty) >= qty
  {
    if a > b {
      MulMonotone(b + 1, a, qty);
      Distribute(qty, b, 1);
    } else {
      MulMonotone(a + 1, b, qty);
      Distribute(qty, a, 1);
    }
  }

  lemma UnfaithfulBreaks(t: Tracker, report: Report)
    requires TrackerOk(t) && AfterReport(t, report).1.Ok? && !Faithful(t, report)
    ensures var (t', result) := AfterReport(t, report);
            !Rebuilt(t', ExactFills(t) + FillsOf(result))
  {
    var (t', result) := AfterReport(t, report);
    var fills := ExactFills(t);
    ExactTotals(t);
    if report.cumQty == t.filledQty {
      hide FilledTotal, PaidTotal, ExactFills;
      assert fills + [] == fills;
      DifferentAverages(t.avgFillPaise, report.cumAvg, t.filledQty);
    } else {
      hide FilledTotal, PaidTotal, WrapI64, WrapI128, TruncDiv, ExactFills;
      var fill := result.value.1.value;
      TotalsSnoc(fills, fill);
      var d := DeltaNotional(t.filledQty, t.avgFillPaise, report.cumQty, report.cumAvg);
      if t.filledQty == 0 {
        MulMonotone(I64_MIN, report.cumAvg, report.cumQty);
      }
      WrappedPriceMisses(d, fill.qty, report.cumQty);
    }
  }

  /** An accepted report keeps every rebuilt history rebuilt if and only if it
      is faithful: a repeated quantity repeats its average, and the price of a
      new quantity fits `i64`. */
  lemma KeepsRebuiltIff(t: Tracker, report: Report)
    requires TrackerOk(t) && AfterReport(t, report).1.Ok?
    ensures KeepsRebuilt(t, report) <==> Faithful(t, report)
  {
    hide Faithful, AfterReport;
    if Faithful(t, report) {
      forall fills | Rebuilt(t, fills)
        ensures Rebuilt(AfterReport(t, report).0, fills + FillsOf(AfterReport(t, report).1))
      {
        ReportRebuilds(t, fills, report);
      }
    } else {
      ExactTotals(t);
      UnfaithfulBreaks(t, report);
    }
  }
}
