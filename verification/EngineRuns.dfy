/** What holds of the execution engine after any run of operations, one at a time. */
module EngineRuns {
  import opened MachineInts
  import opened BrokerApi
  import opened OrderTracker
  import opened FillReports
  import opened Retry
  import opened Router
  import opened EngineSteps

  /* ----- One submission ----- */

  /** The attempt that ends the retry loop, and what the adapter said to it. */
  function LastAttempt(cfg: Settings, s: EngineState, a: Approval, adapters: Adapters): nat
    requires Translate(a.intent, a.sizedQty).Some?
  {
    Calls(cfg.policy, Operation(cfg, s, a, adapters), 1)
  }

  function LastAnswer(cfg: Settings, s: EngineState, a: Approval, adapters: Adapters)
    : Result<SubmitAck, BrokerError>
    requires Translate(a.intent, a.sizedQty).Some?
  {
    adapters(s.router.active, Translate(a.intent, a.sizedQty).value, LastAttempt(cfg, s, a, adapters))
  }

  /** The outcome the router hears of: an acknowledgement, or a final refusal
      or HTTP failure. Retryable errors are never among them. */
  function Heard(answer: Result<SubmitAck, BrokerError>, now: U64): Option<RoundTrip> {
    match answer
    case Ok(_) => Some(RoundTrip(false, 0, now))
    case Err(error) =>
      if error.Refused? || error.Http? then Some(RoundTrip(true, U32_MAX, now)) else None
  }

  function Hear(t: Thresholds, r: RouterState, heard: Option<RoundTrip>): RouterState {
    if heard.Some? then AfterOutcome(t, r, heard.value).0 else r
  }

  /** The loop's outcome in terms of the adapter's answers alone. */
  lemma LoopEnds(cfg: Settings, s: EngineState, a: Approval, adapters: Adapters)
    requires Translate(a.intent, a.sizedQty).Some?
    ensures var (n, last) := (LastAttempt(cfg, s, a, adapters), LastAnswer(cfg, s, a, adapters));
            var asked := Translate(a.intent, a.sizedQty).value;
            && 1 <= n <= Budget(cfg.policy)
            && (forall k :: 1 <= k < n ==>
                  var answer := adapters(s.router.active, asked, k);
                  answer.Err? && answer.error.IsRetryable())
            && (last.Err? && last.error.IsRetryable() ==> n == Budget(cfg.policy))
            && Outcome(cfg.policy, Operation(cfg, s, a, adapters))
               == match last
                  case Ok(ack) => Ok(ack)
                  case Err(error) =>
                    if error.IsRetryable() then Err(RetryExhausted(n))
                    else Err(Broker(cfg.IdOf(s.router.active), n, error))
  {
    var op, asked := Operation(cfg, s, a, adapters), Translate(a.intent, a.sizedQty).value;
    CallsStopFirst(cfg.policy, op, 1);
    forall k | 1 <= k < LastAttempt(cfg, s, a, adapters)
      ensures var answer := adapters(s.router.active, asked, k);
              answer.Err? && answer.error.IsRetryable()
    {
      assert Retries(op(k));
    }
  }

  /** A new order that reaches the broker ends `Submitted` or `Rejected` as the
      last answer decides, no other order changes, and the router hears of it
      at most once. */
  lemma NewOrderOutcome(cfg: Settings, s: EngineState, a: Approval, adapters: Adapters, now: U64)
    requires Reaches(cfg, s, a) && a.intent.correlationId !in s.trackers
    ensures var cid := a.intent.correlationId;
            var (s', result) := AfterSubmit(cfg, s, a, adapters, now);
            var last := LastAnswer(cfg, s, a, adapters);
            && s'.trackers == s.trackers[cid := Tracker(
                 cid, cfg.IdOf(s.router.active), if last.Ok? then Submitted else Rejected, a.sizedQty, 0, 0,
                 if last.Ok? then Some(last.value.brokerOrderId) else None)]
            && s'.consumed == s.consumed + {a.token}
            && s'.router == Hear(cfg.thresholds, s.router, Heard(last, now))
            && (result.Ok? <==> last.Ok?)
            && (result.Err? ==> !result.error.IsRetryable())
  {
    LoopEnds(cfg, s, a, adapters);
    hide Router.AfterOutcome, LastAnswer, LastAttempt, Outcome, Operation;
  }

  /** An order id used again reuses the old tracker. The new acknowledgement is
      recorded if and only if the old order was still `New`; otherwise it is
      lost and `submit` fails. A failure marks the old order `Rejected` if and
      only if it was `New` or `Submitted`. */
  lemma ReusedOrderOutcome(cfg: Settings, s: EngineState, a: Approval, adapters: Adapters, now: U64)
    requires Reaches(cfg, s, a) && a.intent.correlationId in s.trackers
    ensures var cid := a.intent.correlationId;
            var (s', result) := AfterSubmit(cfg, s, a, adapters, now);
            var (last, t, t') := (LastAnswer(cfg, s, a, adapters), s.trackers[cid], s'.trackers[cid]);
            && (last.Ok? ==>
                  && (result.Ok? <==> t.state.New?)
                  && (t' != t <==> t.state.New?)
                  && (t.state.New? ==> t'.brokerOrderId == Some(last.value.brokerOrderId))
                  && (!t.state.New? ==> s'.router == s.router))
            && (last.Err? ==>
                  && result.Err?
                  && (t' != t <==> t.state.New? || t.state.Submitted?)
                  && (t' != t ==> t' == t.(state := Rejected)))
  {
    LoopEnds(cfg, s, a, adapters);
    hide Router.AfterOutcome, LastAnswer, LastAttempt, Outcome, Operation;
  }

  /* ----- Runs ----- */

  datatype Step =
    | SubmitStep(a: Approval, adapters: Adapters, now: U64)
    | FillStep(cid: nat, symbol: U32, side: nat, report: Report)
    | CancelStep(cid: nat, answer: Option<BrokerError>, now: U64)

  ghost function Next(cfg: Settings, s: EngineState, step: Step): EngineState {
    match step
    case SubmitStep(a, adapters, now) => AfterSubmit(cfg, s, a, adapters, now).0
    case FillStep(cid, symbol, side, report) => AfterFill(s, cid, symbol, side, report).0
    case CancelStep(cid, answer, now) => AfterCancelRequest(s, cid, answer, now).0
  }

  ghost function Run(cfg: Settings, steps: seq<Step>): EngineState {
    if |steps| == 0 then IDLE
    else Next(cfg, Run(cfg, steps[..|steps| - 1]), steps[|steps| - 1])
  }

  /** How an order may move on: its terms fixed, its fills growing, its end final. */
  ghost predicate MovesOn(t: Tracker, t': Tracker) {
    && TrackerOk(t')
    && t'.correlationId == t.correlationId && t'.broker == t.broker && t'.requestedQty == t.requestedQty
    && t.filledQty <= t'.filledQty
    && (t.state.IsTerminal() ==> t' == t)
  }

  ghost predicate AllOk(s: EngineState) {
    forall c :: c in s.trackers ==> TrackerOk(s.trackers[c]) && s.trackers[c].correlationId == c
  }

  ghost predicate Grows(s: EngineState, s': EngineState) {
    && AllOk(s') && s.consumed <= s'.consumed
    && (forall c :: c in s.trackers ==> c in s'.trackers && MovesOn(s.trackers[c], s'.trackers[c]))
  }

  lemma AckGrows(t: Thresholds, s: EngineState, cid: nat, ack: SubmitAck, now: U64)
    requires AllOk(s) && cid in s.trackers
    ensures Grows(s, FoldAck(t, s, cid, ack, now).0)
  {
    hide Router.AfterOutcome;
  }

  lemma ErrorGrows(t: Thresholds, s: EngineState, cid: nat, error: ExecError, now: U64)
    requires AllOk(s) && cid in s.trackers
    ensures Grows(s, FoldError(t, s, cid, error, now).0)
  {
    hide Router.AfterOutcome;
  }

  lemma GrowsTransitive(a: EngineState, b: EngineState, c: EngineState)
    requires Grows(a, b) && Grows(b, c)
    ensures Grows(a, c)
  {
    hide TrackerOk;
  }

  lemma SubmitGrows(cfg: Settings, s: EngineState, a: Approval, adapters: Adapters, now: U64)
    requires AllOk(s)
    ensures Grows(s, AfterSubmit(cfg, s, a, adapters, now).0)
  {
    var s', mid, cid := AfterSubmit(cfg, s, a, adapters, now).0, Installed(cfg, s, a), a.intent.correlationId;
    InstallGrows(cfg, s, a);
    hide Grows, AllOk, Installed, Outcome, FoldAck, FoldError;
    if !Admits(cfg, s, a) {
      GrowsReflexive(s);
    } else if Reaches(cfg, s, a) {
      match Outcome(cfg.policy, Operation(cfg, s, a, adapters))
      case Ok(ack) =>
        AckGrows(cfg.thresholds, mid, cid, ack, now);
        GrowsTransitive(s, mid, s');
      case Err(error) =>
        ErrorGrows(cfg.thresholds, mid, cid, error, now);
        GrowsTransitive(s, mid, s');
    }
  }

  lemma InstallGrows(cfg: Settings, s: EngineState, a: Approval)
    requires AllOk(s)
    ensures Grows(s, Installed(cfg, s, a)) && AllOk(Installed(cfg, s, a))
    ensures a.intent.correlationId in Installed(cfg, s, a).trackers
  {
  }

  lemma FillGrows(s: EngineState, cid: nat, symbol: U32, side: nat, report: Report)
    requires AllOk(s)
    ensures Grows(s, AfterFill(s, cid, symbol, side, report).0)
  {
    if cid in s.trackers {
      CallKeepsTrackerOk(s.trackers[cid], CallPartialFill(report.cumQty, report.cumAvg, report.ts));
      hide FillOf;
    }
  }

  lemma CancelGrows(s: EngineState, cid: nat, answer: Option<BrokerError>, now: U64)
    requires AllOk(s)
    ensures Grows(s, AfterCancelRequest(s, cid, answer, now).0)
  {
  }

  lemma StepGrows(cfg: Settings, s: EngineState, step: Step)
    requires AllOk(s)
    ensures Grows(s, Next(cfg, s, step))
  {
    match step
    case SubmitStep(a, adapters, now) => SubmitGrows(cfg, s, a, adapters, now);
    case FillStep(cid, symbol, side, report) => FillGrows(s, cid, symbol, side, report);
    case CancelStep(cid, answer, now) => CancelGrows(s, cid, answer, now);
  }

  /** From any point of any run on, no order disappears, changes its terms,
      loses fills, fills beyond its request or leaves an end state, and no
      token becomes unconsumed. */
  lemma {:induction false} RunGrows(cfg: Settings, steps: seq<Step>, i: nat)
    requires i <= |steps|
    ensures AllOk(Run(cfg, steps))
    ensures Grows(Run(cfg, steps[..i]), Run(cfg, steps))
  {
    hide Grows, AllOk;
    if |steps| == 0 {
      Idle();
    } else {
      var before := steps[..|steps| - 1];
      RunGrows(cfg, before, Min(i, |before|));
      StepGrows(cfg, Run(cfg, before), steps[|steps| - 1]);
      assert Run(cfg, steps) == Next(cfg, Run(cfg, before), steps[|steps| - 1]);
      GrowsKeepsOk(Run(cfg, before), Run(cfg, steps));
      if i < |steps| {
        assert before[..i] == steps[..i];
        GrowsTransitive(Run(cfg, steps[..i]), Run(cfg, before), Run(cfg, steps));
      } else {
        assert steps[..i] == steps;
        GrowsReflexive(Run(cfg, steps));
      }
    }
  }

  lemma Idle()
    ensures AllOk(IDLE) && Grows(IDLE, IDLE)
  {
  }

  lemma GrowsKeepsOk(s: EngineState, s': EngineState)
    requires Grows(s, s')
    ensures AllOk(s')
  {
  }

  lemma GrowsReflexive(s: EngineState)
    requires AllOk(s)
    ensures Grows(s, s)
  {
  }

  /** One token gets at most one submission of a run to a broker. */
  lemma TokenReachesOnce(cfg: Settings, steps: seq<Step>, i: nat, j: nat)
    requires i < j < |steps| && steps[i].SubmitStep? && steps[j].SubmitStep?
    requires steps[i].a.token == steps[j].a.token
    requires Admits(cfg, Run(cfg, steps[..i]), steps[i].a)
    ensures !Reaches(cfg, Run(cfg, steps[..j]), steps[j].a)
  {
    assert steps[..i + 1][..i] == steps[..i];
    assert steps[..j][..i + 1] == steps[..i + 1];
    Consumes(cfg, Run(cfg, steps[..i]), steps[i]);
    RunGrows(cfg, steps[..j], i + 1);
  }

  lemma Consumes(cfg: Settings, s: EngineState, step: Step)
    requires step.SubmitStep?
    ensures Next(cfg, s, step).consumed
         == if Admits(cfg, s, step.a) then s.consumed + {step.a.token} else s.consumed
  {
    hide Outcome, Router.AfterOutcome, Moved;
  }

  /* ----- Fill conservation ----- */

  ghost function EventsFrom(cfg: Settings, s: EngineState, step: Step): seq<EngineEvent> {
    match step
    case SubmitStep(a, adapters, now) =>
      (var r := AfterSubmit(cfg, s, a, adapters, now).1; if r.Ok? then r.value else [])
    case FillStep(cid, symbol, side, report) =>
      (var r := AfterFill(s, cid, symbol, side, report).1; if r.Ok? then r.value else [])
    case CancelStep(cid, answer, now) =>
      (var r := AfterCancelRequest(s, cid, answer, now).1; if r.Ok? then [r.value] else [])
  }

  ghost function AllEvents(cfg: Settings, steps: seq<Step>): seq<EngineEvent> {
    if |steps| == 0 then []
    else
      var before := steps[..|steps| - 1];
      AllEvents(cfg, before) + EventsFrom(cfg, Run(cfg, before), steps[|steps| - 1])
  }

  /** The quantity the events report as filled for an order. */
  function ReportedQty(events: seq<EngineEvent>, cid: nat): nat {
    if events == [] then 0
    else
      var last := events[|events| - 1];
      ReportedQty(events[..|events| - 1], cid)
      + if last.Fill? && last.correlationId == cid then last.fill.qty else 0
  }

  lemma {:induction false} ReportedAppend(a: seq<EngineEvent>, b: seq<EngineEvent>, cid: nat)
    ensures ReportedQty(a + b, cid) == ReportedQty(a, cid) + ReportedQty(b, cid)
  {
    if b == [] {
      assert a + b == a;
    } else {
      var n := |b| - 1;
      ReportedAppend(a, b[..n], cid);
      assert (a + b)[..|a + b| - 1] == a + b[..n];
    }
  }

  function FilledOf(s: EngineState, cid: nat): nat {
    if cid in s.trackers then s.trackers[cid].filledQty else 0
  }

  lemma ReportedShort(events: seq<EngineEvent>, cid: nat)
    requires |events| <= 2 && (|events| > 0 ==> !events[0].Fill?)
    ensures ReportedQty(events, cid)
         == if |events| == 2 && events[1].Fill? && events[1].correlationId == cid then events[1].fill.qty else 0
  {
    if |events| == 2 {
      assert events[..1][..0] == [];
    }
  }

  lemma SubmitReports(cfg: Settings, s: EngineState, step: Step, cid: nat)
    requires step.SubmitStep?
    ensures FilledOf(Next(cfg, s, step), cid) == FilledOf(s, cid)
    ensures ReportedQty(EventsFrom(cfg, s, step), cid) == 0
  {
    hide Outcome, Operation, Router.AfterOutcome, ReportedQty;
    ReportedShort(EventsFrom(cfg, s, step), cid);
  }

  lemma StepReports(cfg: Settings, s: EngineState, step: Step, cid: nat)
    requires AllOk(s)
    ensures FilledOf(Next(cfg, s, step), cid)
         == FilledOf(s, cid) + ReportedQty(EventsFrom(cfg, s, step), cid)
  {
    if step.SubmitStep? {
      SubmitReports(cfg, s, step, cid);
    } else {
      hide AfterSubmit, ReportedQty, WrapI64, WrapI128, TruncDiv;
      ReportedShort(EventsFrom(cfg, s, step), cid);
    }
  }

  /** Fill conservation over whole runs of operations one at a time, on any
      orders in any order: what the emitted fills say an order filled is exactly
      what its tracker holds, and never more than its request. */
  lemma {:induction false} FillsConserved(cfg: Settings, steps: seq<Step>, cid: nat)
    ensures var s := Run(cfg, steps);
            && ReportedQty(AllEvents(cfg, steps), cid) == FilledOf(s, cid)
            && (cid in s.trackers ==> FilledOf(s, cid) <= s.trackers[cid].requestedQty)
  {
    if |steps| > 0 {
      var before, last := steps[..|steps| - 1], steps[|steps| - 1];
      FillsConserved(cfg, before, cid);
      RunGrows(cfg, before, 0);
      StepReports(cfg, Run(cfg, before), last, cid);
      ReportedAppend(AllEvents(cfg, before), EventsFrom(cfg, Run(cfg, before), last), cid);
    }
    RunGrows(cfg, steps, 0);
  }

  /* ----- Failover over whole runs ----- */

  /** The outcome a step reports to the router. */
  ghost function Sampled(cfg: Settings, s: EngineState, step: Step): seq<RoundTrip> {
    if !step.SubmitStep? || !Reaches(cfg, s, step.a) then []
    else
      var (cid, last) := (step.a.intent.correlationId, LastAnswer(cfg, s, step.a, step.adapters));
      var heard := Heard(last, step.now);
      if heard.None? || (last.Ok? && cid in s.trackers && !s.trackers[cid].state.New?) then []
      else [heard.value]
  }

  ghost function AllSampled(cfg: Settings, steps: seq<Step>): seq<RoundTrip> {
    if |steps| == 0 then []
    else
      var before := steps[..|steps| - 1];
      AllSampled(cfg, before) + Sampled(cfg, Run(cfg, before), steps[|steps| - 1])
  }

  lemma StepSamples(cfg: Settings, s: EngineState, step: Step)
    ensures var sampled := Sampled(cfg, s, step);
            && Next(cfg, s, step).router
               == (if sampled == [] then s.router else AfterOutcome(cfg.thresholds, s.router, sampled[0]).0)
            && |s.consumed| + |sampled| <= |Next(cfg, s, step).consumed|
  {
    hide Router.AfterOutcome, LastAnswer, LastAttempt, Outcome;
    match step
    case SubmitStep(a, adapters, now) =>
      if Translate(a.intent, a.sizedQty).Some? {
        LoopEnds(cfg, s, a, adapters);
      }
      Consumes(cfg, s, step);
      hide Operation;
    case _ =>
  }

  /** With operations one at a time, the engine drives the router as one serial
      caller, at most once per consumed token; so each failover costs at least
      `minSamples` tokens. */
  lemma FailoversCostTokens(cfg: Settings, steps: seq<Step>)
    ensures var (s, outs) := (Run(cfg, steps), AllSampled(cfg, steps));
            && s.router == RunOutcomes(cfg.thresholds, outs)
            && |outs| <= |s.consumed|
            && |Failovers(cfg.thresholds, outs)| * Max(1, cfg.thresholds.minSamples) <= |s.consumed|
  {
    SampledSerially(cfg, steps);
    CannotFlap(cfg.thresholds, AllSampled(cfg, steps));
  }

  lemma {:induction false} SampledSerially(cfg: Settings, steps: seq<Step>)
    ensures var (s, outs) := (Run(cfg, steps), AllSampled(cfg, steps));
            s.router == RunOutcomes(cfg.thresholds, outs) && |outs| <= |s.consumed|
  {
    if |steps| > 0 {
      var before, last := steps[..|steps| - 1], steps[|steps| - 1];
      SampledSerially(cfg, before);
      var s, outs := Run(cfg, before), AllSampled(cfg, before);
      StepSamples(cfg, s, last);
      hide Sampled, Next;
      var sampled := Sampled(cfg, s, last);
      if sampled == [] {
        assert outs + sampled == outs;
      } else {
        assert (outs + sampled)[..|outs|] == outs;
      }
    }
  }
}
