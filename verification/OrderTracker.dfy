/** The execution engine's state machine for one order. */
module OrderTracker {
  import opened MachineInts
  import opened BrokerApi

  type BrokerId = nat

  /** Errors of the execution engine, without their message texts. */
  datatype ExecError =
    | InvalidToken | DuplicateToken
    | InvalidFsmTransition(from: OrderState, to: OrderState)
    | Broker(broker: BrokerId, attempt: nat, source: BrokerError)
    | RetryExhausted(attempts: nat)
    | InternalError
  {
    predicate IsRetryable() {
      Broker? && source.IsRetryable()
    }

    predicate CountsTowardFailover() {
      Broker? && source.CountsTowardFailover()
    }
  }

  datatype LifecycleEvent = LifecycleEvent(
    correlationId: nat, broker: BrokerId, state: OrderState,
    filledQty: U64, avgFillPaise: I64, brokerOrderId: Option<string>, ts: U64)

  datatype Tracker = Tracker(
    correlationId: nat, broker: BrokerId, state: OrderState, requestedQty: U64,
    filledQty: U64, avgFillPaise: I64, brokerOrderId: Option<string>)

  predicate IsLegalTransition(from: OrderState, to: OrderState) {
    match (from, to)
    case (New, Submitted) => true
    case (Submitted, PartiallyFilled) => true
    case (Submitted, Filled) => true
    case (Submitted, Cancelled) => true
    case (Submitted, Rejected) => true
    case (PartiallyFilled, PartiallyFilled) => true
    case (PartiallyFilled, Filled) => true
    case (PartiallyFilled, Cancelled) => true
    case _ => false
  }

  function NewTracker(correlationId: nat, broker: BrokerId, requestedQty: U64): Tracker {
    Tracker(correlationId, broker, New, requestedQty, 0, 0, None)
  }

  function EventOf(t: Tracker, ts: U64): LifecycleEvent {
    LifecycleEvent(t.correlationId, t.broker, t.state, t.filledQty, t.avgFillPaise, t.brokerOrderId, ts)
  }

  function Moved(t: Tracker, target: OrderState, id: Option<string>, ts: U64)
    : (Tracker, Result<LifecycleEvent, ExecError>)
  {
    if !IsLegalTransition(t.state, target) then (t, Err(InvalidFsmTransition(t.state, target)))
    else
      var t' := t.(state := target, brokerOrderId := if id.Some? then id else t.brokerOrderId);
      (t', Ok(EventOf(t', ts)))
  }

  lemma FailedMove(t: Tracker, target: OrderState, id: Option<string>, ts: U64)
    requires Moved(t, target, id, ts).1.Err?
    ensures Moved(t, target, id, ts).0 == t
  {
  }

  function FillTarget(t: Tracker, cumQty: U64): OrderState {
    if cumQty >= t.requestedQty && t.requestedQty > 0 then Filled else PartiallyFilled
  }

  function AfterPartialFill(t: Tracker, cumQty: U64, cumAvg: I64, ts: U64)
    : (Tracker, Result<LifecycleEvent, ExecError>)
  {
    if cumQty < t.filledQty || cumQty > t.requestedQty then (t, Err(InternalError))
    else if !IsLegalTransition(t.state, FillTarget(t, cumQty)) then
      (t, Err(InvalidFsmTransition(t.state, FillTarget(t, cumQty))))
    else
      var t' := t.(filledQty := cumQty, avgFillPaise := cumAvg, state := FillTarget(t, cumQty));
      (t', Ok(EventOf(t', ts)))
  }

  class OrderLifecycleTracker {
    const correlationId: nat
    const broker: BrokerId
    const requestedQty: U64
    var state: OrderState
    var filledQty: U64
    var avgFillPaise: I64
    var brokerOrderId: Option<string>

    ghost function View(): Tracker
      reads this
    {
      Tracker(correlationId, broker, state, requestedQty, filledQty, avgFillPaise, brokerOrderId)
    }

    constructor (correlationId: nat, broker: BrokerId, requestedQty: U64)
      ensures View() == NewTracker(correlationId, broker, requestedQty)
    {
      this.correlationId, this.broker, this.requestedQty := correlationId, broker, requestedQty;
      state, filledQty, avgFillPaise, brokerOrderId := New, 0, 0, None;
    }

    method Submit(id: Option<string>, ts: U64) returns (result: Result<LifecycleEvent, ExecError>)
      modifies this
      ensures (View(), result) == Moved(old(View()), Submitted, id, ts)
    {
      result := TransitionNoFill(Submitted, ts, id);
    }

    method PartialFill(cumQty: U64, cumAvg: I64, ts: U64) returns (result: Result<LifecycleEvent, ExecError>)
      modifies this
      ensures (View(), result) == AfterPartialFill(old(View()), cumQty, cumAvg, ts)
    {
      if cumQty < filledQty {
        return Err(InternalError);
      }
      if cumQty > requestedQty {
        return Err(InternalError);
      }
      var target := if cumQty >= requestedQty && requestedQty > 0 then Filled else PartiallyFilled;
      if !IsLegalTransition(state, target) {
        return Err(InvalidFsmTransition(state, target));
      }
      filledQty, avgFillPaise, state := cumQty, cumAvg, target;
      var event := MakeEvent(ts);
      result := Ok(event);
    }

    method Cancel(ts: U64) returns (result: Result<LifecycleEvent, ExecError>)
      modifies this
      ensures (View(), result) == Moved(old(View()), Cancelled, None, ts)
    {
      result := TransitionNoFill(Cancelled, ts, None);
    }

    method Reject(ts: U64) returns (result: Result<LifecycleEvent, ExecError>)
      modifies this
      ensures (View(), result) == Moved(old(View()), Rejected, None, ts)
    {
      result := TransitionNoFill(Rejected, ts, None);
    }

    method Transition(target: OrderState, ts: U64) returns (result: Result<LifecycleEvent, ExecError>)
      modifies this
      ensures (View(), result) == Moved(old(View()), target, None, ts)
    {
      result := TransitionNoFill(target, ts, None);
    }

    method TransitionNoFill(target: OrderState, ts: U64, id: Option<string>)
      returns (result: Result<LifecycleEvent, ExecError>)
      modifies this
      ensures (View(), result) == Moved(old(View()), target, id, ts)
    {
      if !IsLegalTransition(state, target) {
        return Err(InvalidFsmTransition(state, target));
      }
      if id.Some? {
        brokerOrderId := id;
      }
      state := target;
      var event := MakeEvent(ts);
      result := Ok(event);
    }

    method MakeEvent(ts: U64) returns (event: LifecycleEvent)
      ensures event == EventOf(View(), ts)
    {
      event := LifecycleEvent(correlationId, broker, state, filledQty, avgFillPaise, brokerOrderId, ts);
    }
  }

  /* ----- When a call is accepted, and what it then does ----- */

  /** A fill report is taken exactly when it neither shrinks nor over-fills the
      order and the order is `Submitted` or `PartiallyFilled`; it then holds the
      reported values, is `Filled` exactly when all of a request has filled,
      and the event says so. Otherwise nothing changes. */
  lemma PartialFillAnswers(t: Tracker, cumQty: U64, cumAvg: I64, ts: U64)
    ensures var (t', result) := AfterPartialFill(t, cumQty, cumAvg, ts);
            var state := if cumQty == t.requestedQty > 0 then Filled else PartiallyFilled;
            && (result.Ok? <==> t.filledQty <= cumQty <= t.requestedQty && (t.state == Submitted || t.state == PartiallyFilled))
            && (result.Ok? ==>
                  && t' == t.(filledQty := cumQty, avgFillPaise := cumAvg, state := state)
                  && result.value == LifecycleEvent(
                       t.correlationId, t.broker, state, cumQty, cumAvg, t.brokerOrderId, ts))
            && (result.Err? ==>
                  && t' == t
                  && result.error == if t.filledQty <= cumQty <= t.requestedQty
                                     then InvalidFsmTransition(t.state, state) else InternalError)
  {
  }

  /** Where a call without a fill may start: only a new order is submitted, only
      a live one cancelled, only a submitted one rejected. */
  predicate Allows(state: OrderState, target: OrderState)
    requires target == Submitted || target == Cancelled || target == Rejected
  {
    if target == Submitted then state == New
    else if target == Rejected then state == Submitted
    else state == Submitted || state == PartiallyFilled
  }

  /** Submitting, cancelling and rejecting succeed exactly from there; they move
      the state, keep the fills, record an id only when given one, and the event
      says so. Otherwise nothing changes. */
  lemma MoveAnswers(t: Tracker, target: OrderState, id: Option<string>, ts: U64)
    requires target == Submitted || target == Cancelled || target == Rejected
    ensures var (t', result) := Moved(t, target, id, ts);
            var known := if id.Some? then id else t.brokerOrderId;
            && (result.Ok? <==> Allows(t.state, target))
            && (result.Ok? ==>
                  && t' == t.(state := target, brokerOrderId := known)
                  && result.value == LifecycleEvent(
                       t.correlationId, t.broker, target, t.filledQty, t.avgFillPaise, known, ts))
            && (result.Err? ==> t' == t && result.error == InvalidFsmTransition(t.state, target))
  {
  }

  /* ----- Whole traces ----- */

  datatype Call =
    | CallSubmit(id: Option<string>, ts: U64)
    | CallPartialFill(cumQty: U64, cumAvg: I64, ts: U64)
    | CallCancel(ts: U64)
    | CallReject(ts: U64)
    | CallTransition(target: OrderState, ts: U64)

  function Apply(t: Tracker, call: Call): (Tracker, Result<LifecycleEvent, ExecError>) {
    match call
    case CallSubmit(id, ts) => Moved(t, Submitted, id, ts)
    case CallPartialFill(cumQty, cumAvg, ts) => AfterPartialFill(t, cumQty, cumAvg, ts)
    case CallCancel(ts) => Moved(t, Cancelled, None, ts)
    case CallReject(ts) => Moved(t, Rejected, None, ts)
    case CallTransition(target, ts) => Moved(t, target, None, ts)
  }

  function RunCalls(t: Tracker, calls: seq<Call>): Tracker {
    if calls == [] then t
    else Apply(RunCalls(t, calls[..|calls| - 1]), calls[|calls| - 1]).0
  }

  /** The states of the events the calls emit, in order. */
  function Emitted(t: Tracker, calls: seq<Call>): seq<OrderState> {
    if calls == [] then []
    else
      var before := calls[..|calls| - 1];
      var result := Apply(RunCalls(t, before), calls[|calls| - 1]).1;
      Emitted(t, before) + if result.Ok? then [result.value.state] else []
  }

  /** A prefix of: Submitted, partial fills, and then one end state, where a
      rejection comes straight after Submitted. */
  ghost predicate LegalTrace(trace: seq<OrderState>) {
    var last := |trace| - 1;
    && (|trace| > 0 ==> trace[0] == Submitted)
    && (forall i :: 0 < i < last ==> trace[i] == PartiallyFilled)
    && (last > 0 ==>
          || trace[last].PartiallyFilled? || trace[last].Filled? || trace[last].Cancelled?
          || (trace[last].Rejected? && last == 1))
  }

  /** Whatever is called, in any order, the emitted states form a legal trace
      that ends in the tracker's state. */
  lemma {:induction false} TraceIsLegal(t: Tracker, calls: seq<Call>)
    requires t.state == New
    ensures var trace := Emitted(t, calls);
            && LegalTrace(trace)
            && RunCalls(t, calls).state == if trace == [] then New else trace[|trace| - 1]
  {
    if calls != [] {
      var before := calls[..|calls| - 1];
      TraceIsLegal(t, before);
      TraceStep(Emitted(t, before), RunCalls(t, before), calls[|calls| - 1]);
    }
  }

  lemma TraceStep(trace: seq<OrderState>, t: Tracker, call: Call)
    requires LegalTrace(trace)
    requires t.state == if trace == [] then New else trace[|trace| - 1]
    ensures var (t', result) := Apply(t, call);
            && (result.Ok? ==> LegalTrace(trace + [t'.state]) && result.value.state == t'.state)
            && (result.Err? ==> t' == t)
  {
  }

  /** Fills never shrink or exceed the request; the order is `Filled` exactly
      when everything requested has filled; nothing fills before submission
      or on a rejected order. */
  ghost predicate TrackerOk(t: Tracker) {
    && t.filledQty <= t.requestedQty
    && (t.state.Filled? <==> t.filledQty == t.requestedQty > 0)
    && (t.state.New? || t.state.Submitted? || t.state.Rejected? ==> t.filledQty == 0)
  }

  /** Every call but the raw transition keeps that, and a failed call changes nothing. */
  lemma CallKeepsTrackerOk(t: Tracker, call: Call)
    requires TrackerOk(t) && !call.CallTransition?
    ensures var (t', result) := Apply(t, call);
            && TrackerOk(t') && t.filledQty <= t'.filledQty && t'.requestedQty == t.requestedQty
            && (result.Err? ==> t' == t)
            && (result.Ok? ==> result.value == EventOf(t', call.ts))
  {
  }

  lemma {:induction false} RunKeepsTrackerOk(t: Tracker, calls: seq<Call>)
    requires TrackerOk(t)
    requires forall i :: 0 <= i < |calls| ==> !calls[i].CallTransition?
    ensures TrackerOk(RunCalls(t, calls))
    ensures t.filledQty <= RunCalls(t, calls).filledQty <= t.requestedQty
    ensures RunCalls(t, calls).requestedQty == t.requestedQty
  {
    if calls != [] {
      var before := calls[..|calls| - 1];
      RunKeepsTrackerOk(t, before);
      CallKeepsTrackerOk(RunCalls(t, before), calls[|calls| - 1]);
    }
  }

  /** The raw transition can reach `Filled` with quantity outstanding: a
      successful one keeps the law if and only if its target is not `Filled`. */
  lemma RawTransitionKeepsLawIff(t: Tracker, target: OrderState, ts: U64)
    requires TrackerOk(t) && Apply(t, CallTransition(target, ts)).1.Ok?
    ensures TrackerOk(Apply(t, CallTransition(target, ts)).0) <==> !target.Filled?
  {
  }
}
