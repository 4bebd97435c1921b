/** The active/backup router, driven by one caller at a time. */
module Router {
  import opened MachineInts
  import opened Windows
  import opened AdapterStatistics

  const WINDOW_SIZE: nat := 64

  datatype Slot = Primary | Backup {
    function Other(): Slot {
      if Primary? then Backup else Primary
    }
  }

  datatype Thresholds = Thresholds(errorRateBps: U32, p99LatencyMs: U32, minSamples: U32)

  datatype FailoverEvent = FailoverEvent(
    from: Slot, to: Slot, errorRateBps: nat, p99LatencyMs: U32, ts: U64)

  datatype RoundTrip = RoundTrip(failed: bool, latencyMs: U32, ts: U64) {
    function ToSample(): Sample {
      Sample(failed, latencyMs)
    }
  }

  datatype RouterState = RouterState(active: Slot, primary: seq<Sample>, backup: seq<Sample>) {
    function WindowOf(slot: Slot): seq<Sample> {
      if slot.Primary? then primary else backup
    }

    function WithWindow(slot: Slot, w: seq<Sample>): RouterState {
      if slot.Primary? then this.(primary := w) else this.(backup := w)
    }
  }

  const FRESH := RouterState(Primary, [], [])

  /** Whether a window that has just grown calls for a failover. */
  predicate Breaches(t: Thresholds, w: seq<Sample>) {
    && |w| >= t.minSamples
    && (ErrorRateBps(w) >= t.errorRateBps || P99(w) >= t.p99LatencyMs)
  }

  function AfterOutcome(t: Thresholds, r: RouterState, o: RoundTrip): (RouterState, Option<FailoverEvent>) {
    var w := LastN(r.WindowOf(r.active) + [o.ToSample()], WINDOW_SIZE);
    var recorded := r.WithWindow(r.active, w);
    if !Breaches(t, w) then (recorded, None)
    else
      var to := r.active.Other();
      (recorded.WithWindow(to, []).(active := to),
       Some(FailoverEvent(r.active, to, ErrorRateBps(w), P99(w), o.ts)))
  }

  class BrokerRouter {
    const thresholds: Thresholds
    const primaryStats: AdapterStats
    const backupStats: AdapterStats
    var active: Slot

    ghost predicate Valid()
      reads this, primaryStats, backupStats
    {
      && primaryStats != backupStats
      && primaryStats.Valid() && primaryStats.capacity == WINDOW_SIZE
      && backupStats.Valid() && backupStats.capacity == WINDOW_SIZE
    }

    ghost function View(): RouterState
      reads this, primaryStats, backupStats
      requires Valid()
    {
      RouterState(active, primaryStats.Window(), backupStats.Window())
    }

    constructor (thresholds: Thresholds)
      ensures Valid() && View() == FRESH && this.thresholds == thresholds
      ensures fresh(primaryStats) && fresh(backupStats)
    {
      this.thresholds := thresholds;
      var p := new AdapterStats(WINDOW_SIZE);
      var b := new AdapterStats(WINDOW_SIZE);
      primaryStats, backupStats, active := p, b, Primary;
    }

    /** Record an outcome against the active adapter and detect failover. */
    method RecordOutcome(failed: bool, latencyMs: U32, ts: U64) returns (event: Option<FailoverEvent>)
      requires Valid()
      modifies this, primaryStats, backupStats
      ensures Valid()
      ensures (View(), event) == AfterOutcome(thresholds, old(View()), RoundTrip(failed, latencyMs, ts))
    {
      hide ErrorRateBps, P99, LastN, AdapterStats.Valid, AdapterStats.Window;
      var slot := active;
      var stats := if slot.Primary? then primaryStats else backupStats;
      stats.Record(failed, latencyMs);
      var n := stats.WindowLen();
      if n < thresholds.minSamples {
        return None;
      }
      var er := stats.ErrorRate();
      var p99 := stats.P99LatencyMs();
      var breach := er >= thresholds.errorRateBps || p99 >= thresholds.p99LatencyMs;
      if !breach {
        return None;
      }
      var want := slot.Other();
      if active != slot {
        return None;
      }
      active := want;
      match want {
        case Primary => primaryStats.Reset();
        case Backup => backupStats.Reset();
      }
      event := Some(FailoverEvent(slot, want, er, p99, ts));
    }
  }

  /* ----- Serial runs ----- */

  function RunOutcomes(t: Thresholds, outs: seq<RoundTrip>): RouterState {
    if outs == [] then FRESH
    else AfterOutcome(t, RunOutcomes(t, outs[..|outs| - 1]), outs[|outs| - 1]).0
  }

  function Failovers(t: Thresholds, outs: seq<RoundTrip>): seq<FailoverEvent> {
    if outs == [] then []
    else
      var before := outs[..|outs| - 1];
      var event := AfterOutcome(t, RunOutcomes(t, before), outs[|outs| - 1]).1;
      Failovers(t, before) + if event.Some? then [event.value] else []
  }

  /** The outcomes since the last failover, or since the start. */
  function SinceFailover(t: Thresholds, outs: seq<RoundTrip>): seq<Sample> {
    if outs == [] then []
    else
      var before, last := outs[..|outs| - 1], outs[|outs| - 1];
      if AfterOutcome(t, RunOutcomes(t, before), last).1.Some? then []
      else SinceFailover(t, before) + [last.ToSample()]
  }

  /** The active window is the last 64 outcomes since the last failover. */
  lemma {:induction false} ActiveWindow(t: Thresholds, outs: seq<RoundTrip>)
    ensures var r := RunOutcomes(t, outs);
            r.WindowOf(r.active) == LastN(SinceFailover(t, outs), WINDOW_SIZE)
  {
    if outs != [] {
      var before, last := outs[..|outs| - 1], outs[|outs| - 1];
      ActiveWindow(t, before);
      LastNPush(SinceFailover(t, before), last.ToSample(), WINDOW_SIZE);
      hide Breaches, LastN;
      EmptyWindow();
    }
  }

  lemma EmptyWindow()
    ensures LastN<Sample>([], WINDOW_SIZE) == []
  {
  }

  /** Failover is exact: after any outcomes, the next one switches slots if and
      only if the last 64 outcomes since the previous switch are at least
      `minSamples` and their failures reach the error threshold or their
      largest measured latency reaches the latency limit. */
  lemma FailoverIff(t: Thresholds, outs: seq<RoundTrip>, next: RoundTrip)
    ensures var w := LastN(SinceFailover(t, outs) + [next.ToSample()], WINDOW_SIZE);
            AfterOutcome(t, RunOutcomes(t, outs), next).1.Some?
            <==> |w| >= t.minSamples
                 && (Failures(w) * 10_000 >= t.errorRateBps * |w| || Largest(Measured(w)) >= t.p99LatencyMs)
  {
    ActiveWindow(t, outs);
    LastNPush(SinceFailover(t, outs), next.ToSample(), WINDOW_SIZE);
    var w := LastN(SinceFailover(t, outs) + [next.ToSample()], WINDOW_SIZE);
    ErrorRateReachesIff(w, t.errorRateBps);
    P99IsLargest(w);
  }

  /** The slot before the n-th failover. */
  function SlotOf(n: nat): Slot {
    if n % 2 == 0 then Primary else Backup
  }

  /** What one failover event says: the slots it leaves and enters, and the
      rounded-down error rate and largest latency of the window that breached. */
  ghost predicate Reports(event: FailoverEvent, from: Slot, to: Slot, w: seq<Sample>, ts: U64) {
    && event.from == from && event.to == to && event.ts == ts
    && event.errorRateBps * |w| <= Failures(w) * 10_000 < (event.errorRateBps + 1) * |w|
    && event.p99LatencyMs == Largest(Measured(w))
  }

  /** One outcome either announces the switch, makes it, keeps the window that
      breached and starts the other afresh; or announces nothing, extends the
      active window and leaves the rest alone. */
  ghost predicate MadeAsAnnounced(
      r: RouterState, r': RouterState, event: Option<FailoverEvent>, w: seq<Sample>, from: Slot, to: Slot, ts: U64)
  {
    && r.active == from && r'.WindowOf(from) == w
    && (event.Some? ==>
          Reports(event.value, from, to, w, ts) && r'.active == to && r'.WindowOf(to) == [])
    && (event.None? ==> r'.active == from && r'.WindowOf(to) == r.WindowOf(to))
  }

  lemma OutcomeMade(t: Thresholds, r: RouterState, o: RoundTrip)
    requires |r.WindowOf(r.active)| <= WINDOW_SIZE
    ensures var (r', event) := AfterOutcome(t, r, o);
            var w := LastN(r.WindowOf(r.active) + [o.ToSample()], WINDOW_SIZE);
            MadeAsAnnounced(r, r', event, w, r.active, if r.active == Primary then Backup else Primary, o.ts)
  {
    var w := LastN(r.WindowOf(r.active) + [o.ToSample()], WINDOW_SIZE);
    assert w != [] && |w| <= WINDOW_SIZE;
    P99IsLargest(w);
    RateRounds(w);
    hide LastN, ErrorRateBps, P99, Measured, Largest, Failures;
  }

  lemma RateRounds(w: seq<Sample>)
    requires w != []
    ensures ErrorRateBps(w) * |w| <= Failures(w) * 10_000 < (ErrorRateBps(w) + 1) * |w|
  {
    DivMod(Failures(w) * 10_000, |w|);
    Distribute(|w|, ErrorRateBps(w), 1);
  }

  /** What one more outcome adds to a run. */
  lemma OneMore(t: Thresholds, outs: seq<RoundTrip>, last: RoundTrip)
    ensures var (r', event) := AfterOutcome(t, RunOutcomes(t, outs), last);
            && RunOutcomes(t, outs + [last]) == r'
            && Failovers(t, outs + [last]) == Failovers(t, outs) + if event.Some? then [event.value] else []
  {
    assert (outs + [last])[..|outs|] == outs;
    hide AfterOutcome;
  }

  lemma Switches(t: Thresholds, r: RouterState, o: RoundTrip)
    ensures var (r', event) := AfterOutcome(t, r, o);
            r'.active == if event.Some? then r.active.Other() else r.active
  {
    hide LastN, Breaches, ErrorRateBps, P99;
  }

  lemma NextSlot(n: nat)
    ensures SlotOf(n + 1) == SlotOf(n).Other()
  {
  }

  lemma {:induction false} ActiveSlot(t: Thresholds, outs: seq<RoundTrip>)
    ensures RunOutcomes(t, outs).active == SlotOf(|Failovers(t, outs)|)
  {
    if outs != [] {
      var before, last := outs[..|outs| - 1], outs[|outs| - 1];
      assert outs == before + [last];
      ActiveSlot(t, before);
      OneMore(t, before, last);
      hide *;
      Switches(t, RunOutcomes(t, before), last);
      NextSlot(|Failovers(t, before)|);
    }
  }

  /** Failovers are made as announced: after any outcomes the active slot is the
      parity of the number of events, and the next outcome switches from it to
      the other, with its announcement, or not at all. */
  lemma FailoverMade(t: Thresholds, outs: seq<RoundTrip>, next: RoundTrip)
    ensures var (r, k) := (RunOutcomes(t, outs), |Failovers(t, outs)|);
            var (r', event) := AfterOutcome(t, r, next);
            var w := LastN(SinceFailover(t, outs) + [next.ToSample()], WINDOW_SIZE);
            MadeAsAnnounced(r, r', event, w, SlotOf(k), SlotOf(k + 1), next.ts)
  {
    hide AfterOutcome, RunOutcomes, Failovers, SinceFailover, MadeAsAnnounced, LastN;
    ActiveSlot(t, outs);
    ActiveWindow(t, outs);
    LastNPush(SinceFailover(t, outs), next.ToSample(), WINDOW_SIZE);
    LastNShort(SinceFailover(t, outs));
    OutcomeMade(t, RunOutcomes(t, outs), next);
  }

  lemma LastNShort(history: seq<Sample>)
    ensures |LastN(history, WINDOW_SIZE)| <= WINDOW_SIZE
  {
  }

  /** The i-th event of any run leaves the slot of parity i for the other. */
  lemma {:induction false} EventsAlternate(t: Thresholds, outs: seq<RoundTrip>, i: nat)
    requires i < |Failovers(t, outs)|
    ensures Failovers(t, outs)[i].from == SlotOf(i) && Failovers(t, outs)[i].to == SlotOf(i + 1)
  {
    if outs != [] {
      var before, last := outs[..|outs| - 1], outs[|outs| - 1];
      assert outs == before + [last];
      OneMore(t, before, last);
      hide AfterOutcome, RunOutcomes, Failovers, SinceFailover;
      if i < |Failovers(t, before)| {
        EventsAlternate(t, before, i);
      } else {
        FailoverMade(t, before, last);
      }
    }
  }

  /** The router cannot flap: each failover costs at least `minSamples`
      outcomes, and never less than one. */
  lemma {:induction false} CannotFlap(t: Thresholds, outs: seq<RoundTrip>)
    ensures |Failovers(t, outs)| * Max(1, t.minSamples) + |SinceFailover(t, outs)| <= |outs|
  {
    if outs != [] {
      var before, last := outs[..|outs| - 1], outs[|outs| - 1];
      CannotFlap(t, before);
      ActiveWindow(t, before);
      LastNPush(SinceFailover(t, before), last.ToSample(), WINDOW_SIZE);
      if AfterOutcome(t, RunOutcomes(t, before), last).1.Some? {
        assert |SinceFailover(t, before) + [last.ToSample()]| >= Max(1, t.minSamples);
        Distribute(Max(1, t.minSamples), |Failovers(t, before)|, 1);
      }
    }
  }
}
