/** What each operation of the execution engine makes of the engine's state. */
module EngineSteps {
  import opened MachineInts
  import opened Matching
  import opened BrokerApi
  import opened OrderTracker
  import opened FillReports
  import opened Retry
  import opened Router

  type Token = seq<bv8>

  /** An order intent as it travels, its enumerations still raw bytes. */
  datatype WireIntent = WireIntent(
    correlationId: nat, symbol: U32, side: nat, quantity: U64,
    orderType: nat, limitPaise: I64, exchange: int)

  /** A token with everything it must have been signed for. */
  datatype Approval = Approval(token: Token, intent: WireIntent, sizedQty: U64, ts: U64, sequence: U64)

  datatype Settings = Settings(
    verify: Approval -> bool, policy: RetryPolicy, thresholds: Thresholds,
    primaryId: BrokerId, backupId: BrokerId)
  {
    function IdOf(slot: Slot): BrokerId {
      if slot.Primary? then primaryId else backupId
    }
  }

  /** What the adapter in a slot answers to an order on its n-th attempt. */
  type Adapters = (Slot, OrderIntent, nat) -> Result<SubmitAck, BrokerError>

  datatype EngineEvent =
    | Lifecycle(event: LifecycleEvent)
    | Switched(failover: FailoverEvent)
    | Failed(correlationId: nat, error: ExecError)
    | Fill(correlationId: nat, symbol: U32, side: nat, fill: FillEvent)

  datatype EngineState = EngineState(
    consumed: set<Token>, trackers: map<nat, Tracker>, router: RouterState)

  const IDLE := EngineState({}, map[], FRESH)

  function Translate(intent: WireIntent, sizedQty: U64): Option<OrderIntent> {
    if intent.side > 1 || intent.orderType > 1 || (intent.exchange != 0 && intent.exchange != 1) then None
    else Some(OrderIntent(
      intent.correlationId, intent.symbol, if intent.side == 0 then Buy else Sell, sizedQty,
      if intent.orderType == 0 then Market else Limit, intent.limitPaise,
      if intent.exchange == 0 then Nse else Bse))
  }

  /** The bytes of a translated order, its quantity the sized one. */
  function Wire(intent: OrderIntent): WireIntent {
    WireIntent(
      intent.correlationId, intent.symbol, if intent.side.Buy? then 0 else 1, intent.quantity,
      if intent.orderType.Market? then 0 else 1, intent.limitPaise, if intent.exchange.Nse? then 0 else 1)
  }

  /** Translation refuses exactly the intents no order stands for, and
      otherwise changes nothing but the quantity, to the sized one. */
  lemma TranslationKeeps(intent: WireIntent, sizedQty: U64)
    ensures var translated := Translate(intent, sizedQty);
            && (translated.Some? <==> exists order :: Wire(order) == intent)
            && (translated.Some? ==> Wire(translated.value) == intent.(quantity := sizedQty))
            && (translated.Some? ==>
                  && (translated.value.side == if intent.side == 0 then Buy else Sell)
                  && (translated.value.orderType == if intent.orderType == 0 then Market else Limit)
                  && (translated.value.exchange == if intent.exchange == 0 then Nse else Bse))
  {
    if Translate(intent, sizedQty).Some? {
      assert Wire(Translate(intent, sizedQty).value.(quantity := intent.quantity)) == intent;
    }
  }

  /** One attempt, its adapter error attributed to the broker and attempt. */
  function Attempt(broker: BrokerId, slot: Slot, adapters: Adapters, intent: OrderIntent)
    : nat -> Result<SubmitAck, ExecError>
  {
    (n: nat) =>
      match adapters(slot, intent, n)
      case Ok(ack) => Ok(ack)
      case Err(error) => Err(Broker(broker, n, error))
  }

  function Tracked(trackers: map<nat, Tracker>, cid: nat, broker: BrokerId, qty: U64): map<nat, Tracker> {
    if cid in trackers then trackers else trackers[cid := NewTracker(cid, broker, qty)]
  }

  function Switches(event: Option<FailoverEvent>): seq<EngineEvent> {
    if event.Some? then [Switched(event.value)] else []
  }

  function EventsOf(result: Result<LifecycleEvent, ExecError>): seq<EngineEvent> {
    if result.Ok? then [Lifecycle(result.value)] else []
  }

  /** Fold the broker's acknowledgement into the order and the router. */
  function FoldAck(t: Thresholds, s: EngineState, cid: nat, ack: SubmitAck, now: U64)
    : (EngineState, Result<seq<EngineEvent>, ExecError>)
    requires cid in s.trackers
  {
    var (tracker, moved) := Moved(s.trackers[cid], Submitted, Some(ack.brokerOrderId), now);
    match moved
    case Err(error) => (s, Err(error))
    case Ok(event) =>
      var (router, failover) := AfterOutcome(t, s.router, RoundTrip(false, 0, now));
      (s.(trackers := s.trackers[cid := tracker], router := router),
       Ok([Lifecycle(event)] + Switches(failover)))
  }

  /** An order driven into `Rejected`, through `Submitted` when still new. */
  function Spurned(t: Tracker, now: U64): (Tracker, seq<EngineEvent>) {
    var (t1, first) := if t.state.New? then Moved(t, Submitted, None, now) else (t, Err(InternalError));
    var (t2, second) := Moved(t1, Rejected, None, now);
    (t2, EventsOf(first) + EventsOf(second))
  }

  function FoldError(t: Thresholds, s: EngineState, cid: nat, error: ExecError, now: U64)
    : (EngineState, seq<EngineEvent>)
    requires cid in s.trackers
  {
    var (tracker, events) := Spurned(s.trackers[cid], now);
    var (router, failover) :=
      if error.CountsTowardFailover() then AfterOutcome(t, s.router, RoundTrip(true, U32_MAX, now))
      else (s.router, None);
    (s.(trackers := s.trackers[cid := tracker], router := router),
     [Failed(cid, error)] + events + Switches(failover))
  }

  function FoldOutcome(
      t: Thresholds, s: EngineState, cid: nat, outcome: Result<SubmitAck, ExecError>, now: U64)
    : (EngineState, Result<seq<EngineEvent>, ExecError>)
    requires cid in s.trackers
  {
    match outcome
    case Ok(ack) => FoldAck(t, s, cid, ack, now)
    case Err(error) => (FoldError(t, s, cid, error, now).0, Err(error))
  }

  /** Whether a submission gets past the token checks. */
  predicate Admits(cfg: Settings, s: EngineState, a: Approval) {
    cfg.verify(a) && a.token !in s.consumed
  }

  /** Whether a submission gets as far as the broker. */
  predicate Reaches(cfg: Settings, s: EngineState, a: Approval) {
    Admits(cfg, s, a) && Translate(a.intent, a.sizedQty).Some?
  }

  /** The state once the token is consumed and the order tracked. */
  function Installed(cfg: Settings, s: EngineState, a: Approval): EngineState {
    s.(consumed := s.consumed + {a.token},
       trackers := Tracked(s.trackers, a.intent.correlationId, cfg.IdOf(s.router.active), a.sizedQty))
  }

  /** The adapter calls a submission makes, as the retry loop sees them. */
  function Operation(cfg: Settings, s: EngineState, a: Approval, adapters: Adapters)
    : nat -> Result<SubmitAck, ExecError>
    requires Translate(a.intent, a.sizedQty).Some?
  {
    Attempt(cfg.IdOf(s.router.active), s.router.active, adapters, Translate(a.intent, a.sizedQty).value)
  }

  function AfterSubmit(cfg: Settings, s: EngineState, a: Approval, adapters: Adapters, now: U64)
    : (EngineState, Result<seq<EngineEvent>, ExecError>)
  {
    if !cfg.verify(a) then (s, Err(InvalidToken))
    else if a.token in s.consumed then (s, Err(DuplicateToken))
    else if Translate(a.intent, a.sizedQty).None? then (Installed(cfg, s, a), Err(InternalError))
    else
      FoldOutcome(cfg.thresholds, Installed(cfg, s, a), a.intent.correlationId,
                  Outcome(cfg.policy, Operation(cfg, s, a, adapters)), now)
  }

  function AfterFill(s: EngineState, cid: nat, symbol: U32, side: nat, report: Report)
    : (EngineState, Result<seq<EngineEvent>, ExecError>)
  {
    if cid !in s.trackers then (s, Err(InternalError))
    else
      var (tracker, result) := AfterReport(s.trackers[cid], report);
      match result
      case Err(error) => (s, Err(error))
      case Ok((event, fill)) =>
        (s.(trackers := s.trackers[cid := tracker]),
         Ok([Lifecycle(event)] + if fill.Some? then [Fill(cid, symbol, side, fill.value)] else []))
  }

  /** `answer` is what the active adapter says to the cancellation. */
  function AfterCancelRequest(s: EngineState, cid: nat, answer: Option<BrokerError>, now: U64)
    : (EngineState, Result<EngineEvent, ExecError>)
  {
    if cid !in s.trackers then (s, Err(InternalError))
    else if answer.Some? then (s, Err(Broker(s.trackers[cid].broker, 1, answer.value)))
    else
      var (tracker, result) := Moved(s.trackers[cid], Cancelled, None, now);
      match result
      case Err(error) => (s, Err(error))
      case Ok(event) => (s.(trackers := s.trackers[cid := tracker]), Ok(Lifecycle(event)))
  }
}
