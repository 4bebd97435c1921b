/** The execution engine: approval tokens, order trackers, retries and failover. */
module ExecutionEngine {
  import opened MachineInts
  import opened BrokerApi
  import opened OrderTracker
  import opened FillReports
  import opened Retry
  import opened Router
  import opened EngineSteps

  class ExecutionEngine {
    const cfg: Settings
    const router: BrokerRouter
    var trackers: map<nat, OrderLifecycleTracker>
    var consumedTokens: set<Token>
    /** What each tracker holds. */
    ghost var held: map<nat, Tracker>

    ghost predicate Valid()
      reads this, router, router.primaryStats, router.backupStats, trackers.Values
    {
      && router.Valid() && router.thresholds == cfg.thresholds
      && trackers.Keys == held.Keys
      && forall c :: c in trackers ==> trackers[c].correlationId == c && trackers[c].View() == held[c]
    }

    ghost function View(): EngineState
      reads this, router, router.primaryStats, router.backupStats
      requires router.Valid()
    {
      EngineState(consumedTokens, held, router.View())
    }

    constructor (cfg: Settings)
      ensures Valid() && View() == IDLE && this.cfg == cfg
      ensures fresh(router) && fresh(router.primaryStats) && fresh(router.backupStats)
    {
      this.cfg := cfg;
      var r := new BrokerRouter(cfg.thresholds);
      router, trackers, consumedTokens, held := r, map[], {}, map[];
    }

    /** The only way to a broker. Returns the events or the error, the number
        of adapter calls and the waits between them. */
    method Submit(a: Approval, adapters: Adapters, jitter: nat -> JitterUnit, now: U64)
      returns (result: Result<seq<EngineEvent>, ExecError>, calls: nat, sleeps: seq<nat>)
      requires Valid()
      modifies this, router, router.primaryStats, router.backupStats, trackers.Values
      ensures Valid() && fresh(trackers.Values - old(trackers.Values))
      ensures (View(), result) == AfterSubmit(cfg, old(View()), a, adapters, now)
      ensures calls == if !Reaches(cfg, old(View()), a) then 0
                       else Calls(cfg.policy, Operation(cfg, old(View()), a, adapters), 1)
      ensures |sleeps| == if calls == 0 then 0 else calls - 1
    {
      hide Outcome, Calls, FoldAck, FoldError, Router.AfterOutcome;
      calls, sleeps := 0, [];
      var cid := a.intent.correlationId;
      if !cfg.verify(a) {
        return Err(InvalidToken), calls, sleeps;
      }
      if a.token in consumedTokens {
        return Err(DuplicateToken), calls, sleeps;
      }
      consumedTokens := consumedTokens + {a.token};
      var slot := router.active;
      var broker := cfg.IdOf(slot);
      Track(cid, broker, a.sizedQty);
      var intent := Translate(a.intent, a.sizedQty);
      if intent.None? {
        return Err(InternalError), calls, sleeps;
      }
      var outcome;
      outcome, calls, sleeps :=
        RetryWithBackoff(cfg.policy, jitter, Attempt(broker, slot, adapters, intent.value));
      match outcome {
        case Ok(ack) =>
          result := HandleSubmitOk(cid, ack, now);
        case Err(error) =>
          var events := HandleSubmitErr(cid, error, now);
          result := Err(error);
      }
    }

    /** Install a tracker unless the order has one. */
    method Track(cid: nat, broker: BrokerId, qty: U64)
      requires Valid()
      modifies this
      ensures Valid() && fresh(trackers.Values - old(trackers.Values))
      ensures View() == old(View()).(trackers := Tracked(old(held), cid, broker, qty))
    {
      if cid !in trackers {
        var tracker := new OrderLifecycleTracker(cid, broker, qty);
        trackers := trackers[cid := tracker];
        held := held[cid := tracker.View()];
      }
    }

    method HandleSubmitOk(cid: nat, ack: SubmitAck, now: U64)
      returns (result: Result<seq<EngineEvent>, ExecError>)
      requires Valid() && cid in trackers
      modifies this, router, router.primaryStats, router.backupStats, trackers[cid]
      ensures Valid() && trackers == old(trackers)
      ensures (View(), result) == FoldAck(cfg.thresholds, old(View()), cid, ack, now)
    {
      hide Router.AfterOutcome, BrokerRouter.Valid, BrokerRouter.View, Moved;
      ghost var before := held[cid];
      var tracker := trackers[cid];
      var moved := tracker.Submit(Some(ack.brokerOrderId), now);
      if moved.Err? {
        FailedMove(before, Submitted, Some(ack.brokerOrderId), now);
        return Err(moved.error);
      }
      held := held[cid := tracker.View()];
      var events := [Lifecycle(moved.value)];
      var failover := router.RecordOutcome(false, 0, now);
      assert events + [] == events;
      if failover.Some? {
        events := events + [Switched(failover.value)];
      }
      result := Ok(events);
    }

    method HandleSubmitErr(cid: nat, error: ExecError, now: U64) returns (events: seq<EngineEvent>)
      requires Valid() && cid in trackers
      modifies this, router, router.primaryStats, router.backupStats, trackers[cid]
      ensures Valid() && trackers == old(trackers)
      ensures (View(), events) == FoldError(cfg.thresholds, old(View()), cid, error, now)
    {
      hide Router.AfterOutcome, BrokerRouter.Valid, BrokerRouter.View, Spurned;
      var tracker := trackers[cid];
      var lifecycle := DriveToRejected(tracker, now);
      held := held[cid := tracker.View()];
      events := [Failed(cid, error)] + lifecycle;
      assert events + [] == events;
      if error.CountsTowardFailover() {
        var failover := router.RecordOutcome(true, U32_MAX, now);
        if failover.Some? {
          events := events + [Switched(failover.value)];
        }
      }
    }

    /** A cumulative fill report from the broker, handled without interruption. */
    method OnFill(cid: nat, symbol: U32, side: nat, report: Report)
      returns (result: Result<seq<EngineEvent>, ExecError>)
      requires Valid()
      modifies this, trackers.Values
      ensures Valid() && trackers == old(trackers)
      ensures (View(), result) == AfterFill(old(View()), cid, symbol, side, report)
    {
      hide AfterReport, BrokerRouter.Valid, BrokerRouter.View;
      if cid !in trackers {
        return Err(InternalError);
      }
      var tracker := trackers[cid];
      var reported := TakeReport(tracker, report);
      if reported.Err? {
        FailedReport(held[cid], report);
        return Err(reported.error);
      }
      held := held[cid := tracker.View()];
      var (event, fill) := reported.value;
      result := Ok([Lifecycle(event)] + if fill.Some? then [Fill(cid, symbol, side, fill.value)] else []);
    }

    /** Cancel an order; `answer` is what the adapter in slot `asked` says about
        the broker order id sent, empty when the tracker has none. */
    method Cancel(cid: nat, answer: (Slot, string) -> Option<BrokerError>, now: U64)
      returns (result: Result<EngineEvent, ExecError>)
      requires Valid()
      modifies this, trackers.Values
      ensures Valid() && trackers == old(trackers)
      ensures (View(), result)
           == AfterCancelRequest(old(View()), cid,
                if cid in old(held) then answer(old(router.active), SentId(old(held)[cid])) else None, now)
    {
      if cid !in trackers {
        return Err(InternalError);
      }
      var tracker := trackers[cid];
      var id := if tracker.brokerOrderId.Some? then tracker.brokerOrderId.value else "";
      var answered := answer(router.active, id);
      if answered.Some? {
        return Err(Broker(tracker.broker, 1, answered.value));
      }
      var moved := tracker.Cancel(now);
      if moved.Err? {
        return Err(moved.error);
      }
      held := held[cid := tracker.View()];
      result := Ok(Lifecycle(moved.value));
    }
  }

  /** Reject an order, through `Submitted` if it never got there. */
  method DriveToRejected(tracker: OrderLifecycleTracker, now: U64) returns (events: seq<EngineEvent>)
    modifies tracker
    ensures (tracker.View(), events) == Spurned(old(tracker.View()), now)
  {
    events := [];
    if tracker.state.New? {
      var submitted := tracker.Submit(None, now);
      events := EventsOf(submitted);
    }
    var rejected := tracker.Reject(now);
    events := events + EventsOf(rejected);
  }

  /** The tracker's part of a fill report, its two locks taken in a row. */
  method TakeReport(tracker: OrderLifecycleTracker, report: Report)
    returns (result: Result<(LifecycleEvent, Option<FillEvent>), ExecError>)
    modifies tracker
    ensures (tracker.View(), result) == AfterReport(old(tracker.View()), report)
  {
    var priorQty, priorAvg := tracker.filledQty, tracker.avgFillPaise;
    result := AcceptReport(tracker, priorQty, priorAvg, report);
  }

  /** The second lock, whatever the tracker held under the first. */
  method AcceptReport(tracker: OrderLifecycleTracker, priorQty: U64, priorAvg: I64, report: Report)
    returns (result: Result<(LifecycleEvent, Option<FillEvent>), ExecError>)
    modifies tracker
    ensures (tracker.View(), result) == Accept(old(tracker.View()), priorQty, priorAvg, report)
  {
    var moved := tracker.PartialFill(report.cumQty, report.cumAvg, report.ts);
    if moved.Err? {
      return Err(moved.error);
    }
    var delta := Max(report.cumQty - priorQty, 0);
    if delta == 0 {
      return Ok((moved.value, None));
    }
    var cumNotional := report.cumAvg * report.cumQty;
    var priorNotional := priorAvg * priorQty;
    var price := WrapI64(TruncDiv(WrapI128(cumNotional - priorNotional), delta));
    result := Ok((moved.value, Some(FillEvent(delta, price, report.ts))));
  }

  /** The broker order id a cancellation sends. */
  function SentId(t: Tracker): string {
    if t.brokerOrderId.Some? then t.brokerOrderId.value else ""
  }
}
