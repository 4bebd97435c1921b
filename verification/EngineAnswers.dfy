/** What each operation of the execution engine answers, announces and changes,
    said of the order, the broker's answers and the active slot alone. */
module EngineAnswers {
  import opened MachineInts
  import opened Matching
  import opened BrokerApi
  import opened OrderTracker
  import opened FillReports
  import opened Retry
  import opened Router
  import opened EngineSteps
  import opened EngineRuns

  /* ----- Submission ----- */

  /** What turns a submission away before any broker: a token that does not
      verify, one already consumed, an intent that does not translate. The first
      two change nothing; the last has consumed the token and tracked the order. */
  lemma SubmissionRefused(cfg: Settings, s: EngineState, a: Approval, adapters: Adapters, now: U64)
    ensures var (s', result) := AfterSubmit(cfg, s, a, adapters, now);
            var (cid, verified, spent) := (a.intent.correlationId, cfg.verify(a), a.token in s.consumed);
            && (result == Err(InvalidToken) <==> !verified)
            && (result == Err(DuplicateToken) <==> verified && spent)
            && (result == Err(InternalError) <==>
                  verified && !spent && Translate(a.intent, a.sizedQty).None?)
            && (!verified || spent ==> s' == s)
            && (result == Err(InternalError) ==>
                  && s'.consumed == s.consumed + {a.token} && s'.router == s.router
                  && s'.trackers == if cid in s.trackers then s.trackers
                                    else s.trackers[cid := Tracker(cid, BrokerOf(cfg, s), New, a.sizedQty, 0, 0, None)])
  {
    hide Outcome, Operation, Router.AfterOutcome;
    if Translate(a.intent, a.sizedQty).Some? {
      LoopEnds(cfg, s, a, adapters);
    }
  }

  /** The broker an order goes to. */
  function BrokerOf(cfg: Settings, s: EngineState): BrokerId {
    if s.router.active == Primary then cfg.primaryId else cfg.backupId
  }

  /** The order as a submission finds it: as tracked, or new. */
  function Found(cfg: Settings, s: EngineState, a: Approval): Tracker {
    var cid := a.intent.correlationId;
    if cid in s.trackers then s.trackers[cid] else Tracker(cid, BrokerOf(cfg, s), New, a.sizedQty, 0, 0, None)
  }

  /** The switch, announced exactly when the active slot changed. */
  ghost predicate SwitchAnnounced(events: seq<EngineEvent>, before: RouterState, after: RouterState, now: U64) {
    if before.active == after.active then events == []
    else
      && |events| == 1 && events[0].Switched?
      && events[0].failover.from == before.active && events[0].failover.to == after.active
      && events[0].failover.ts == now
  }

  function Announced(t: Tracker, state: OrderState, id: Option<string>, now: U64): EngineEvent {
    Lifecycle(LifecycleEvent(t.correlationId, t.broker, state, t.filledQty, t.avgFillPaise, id, now))
  }

  lemma SwitchIff(t: Thresholds, r: RouterState, o: RoundTrip)
    ensures var (r', event) := AfterOutcome(t, r, o);
            SwitchAnnounced(EngineSteps.Switches(event), r, r', o.ts)
  {
    hide Windows.LastN, Breaches, AdapterStatistics.ErrorRateBps, AdapterStatistics.P99;
  }

  /** An acknowledged submission of an order still new announces it `Submitted`
      under the broker's id, and then the switch if the router made one; of an
      order further on it fails with the illegal move. */
  lemma SubmissionAcknowledged(cfg: Settings, s: EngineState, a: Approval, adapters: Adapters, now: U64)
    requires Reaches(cfg, s, a) && LastAnswer(cfg, s, a, adapters).Ok?
    ensures var (s', result) := AfterSubmit(cfg, s, a, adapters, now);
            var (t, ack) := (Found(cfg, s, a), LastAnswer(cfg, s, a, adapters).value);
            if t.state == New then
              && result.Ok? && |result.value| > 0
              && result.value[0] == Announced(t, Submitted, Some(ack.brokerOrderId), now)
              && SwitchAnnounced(result.value[1..], s.router, s'.router, now)
              && s'.trackers == s.trackers[a.intent.correlationId :=
                   t.(state := Submitted, brokerOrderId := Some(ack.brokerOrderId))]
            else result == Err(InvalidFsmTransition(t.state, Submitted)) && s'.trackers == s.trackers
  {
    LoopEnds(cfg, s, a, adapters);
    SwitchIff(cfg.thresholds, s.router, RoundTrip(false, 0, now));
    hide Router.AfterOutcome, LastAnswer, LastAttempt, Outcome, Operation, SwitchAnnounced;
  }

  /** A failed submission returns the broker's last error with the broker and
      the attempt, or, for a transient or network error, that the budget ran out. */
  lemma SubmissionFailed(cfg: Settings, s: EngineState, a: Approval, adapters: Adapters, now: U64)
    requires Reaches(cfg, s, a) && LastAnswer(cfg, s, a, adapters).Err?
    ensures var result := AfterSubmit(cfg, s, a, adapters, now).1;
            var (error, n) := (LastAnswer(cfg, s, a, adapters).error, LastAttempt(cfg, s, a, adapters));
            if error.Transient? || error.Network? then
              n == Max(cfg.policy.maxAttempts, 1) && result == Err(RetryExhausted(n))
            else result == Err(Broker(BrokerOf(cfg, s), n, error))
  {
    LoopEnds(cfg, s, a, adapters);
    hide Router.AfterOutcome, LastAnswer, LastAttempt, Outcome, Operation;
  }

  /** The attempts go on exactly through transient and network errors: all
      before the last are such, the budget ends the loop only on one. */
  lemma AttemptsMade(cfg: Settings, s: EngineState, a: Approval, adapters: Adapters)
    requires Reaches(cfg, s, a)
    ensures var (n, asked) := (LastAttempt(cfg, s, a, adapters), Translate(a.intent, a.sizedQty).value);
            && 1 <= n <= Max(cfg.policy.maxAttempts, 1)
            && (forall k :: 1 <= k < n ==>
                  var answer := adapters(s.router.active, asked, k);
                  answer.Err? && (answer.error.Transient? || answer.error.Network?))
            && (var answer := adapters(s.router.active, asked, n);
                n == Max(cfg.policy.maxAttempts, 1)
                || answer.Ok? || !(answer.error.Transient? || answer.error.Network?))
  {
    LoopEnds(cfg, s, a, adapters);
  }

  /** The broker errors that say the broker itself is failing. */
  predicate Counts(error: BrokerError) {
    error.Transient? || error.Network? || error.Http? || error.Refused?
  }

  /** Folding in an error announces the error, then the moves that reject an
      order not past `Submitted`, then the switch if the router made one; and
      the router hears of it only when a broker failed in a way that counts. */
  lemma ErrorFolded(t: Thresholds, s: EngineState, cid: nat, error: ExecError, now: U64)
    requires cid in s.trackers
    ensures var (s', events) := FoldError(t, s, cid, error, now);
            var order := s.trackers[cid];
            var moves := if order.state == New then
                           [Announced(order, Submitted, order.brokerOrderId, now),
                            Announced(order, Rejected, order.brokerOrderId, now)]
                         else if order.state == Submitted then
                           [Announced(order, Rejected, order.brokerOrderId, now)]
                         else [];
            && |events| >= 1 + |moves|
            && events[0] == Failed(cid, error)
            && events[1..1 + |moves|] == moves
            && SwitchAnnounced(events[1 + |moves|..], s.router, s'.router, now)
            && s'.trackers == s.trackers[cid := if moves == [] then order else order.(state := Rejected)]
            && (s'.router != s.router ==> error.Broker? && Counts(error.source))
  {
    SwitchIff(t, s.router, RoundTrip(true, U32_MAX, now));
    hide Router.AfterOutcome;
  }

  /* ----- Fills and cancellations ----- */

  /** A fill report of a known order is taken exactly when it neither shrinks
      nor over-fills it and the order is live. Then only that order changes, to
      the reported values; the state is announced, and after it a fill of
      exactly what is new, if anything is. Otherwise nothing changes. */
  lemma FillAnswers(s: EngineState, cid: nat, symbol: U32, side: nat, report: Report)
    ensures var (s', result) := AfterFill(s, cid, symbol, side, report);
            if cid !in s.trackers then s' == s && result == Err(InternalError)
            else
              var t := s.trackers[cid];
              var state := if report.cumQty == t.requestedQty > 0 then Filled else PartiallyFilled;
              var t' := t.(state := state, filledQty := report.cumQty, avgFillPaise := report.cumAvg);
              && (result.Ok? <==>
                    t.filledQty <= report.cumQty <= t.requestedQty && (t.state == Submitted || t.state == PartiallyFilled))
              && (result.Err? ==> s' == s)
              && (result.Ok? ==>
                    && s' == s.(trackers := s.trackers[cid := t'])
                    && |result.value| == (if report.cumQty > t.filledQty then 2 else 1)
                    && result.value[0] == Announced(t', state, t.brokerOrderId, report.ts)
                    && (report.cumQty > t.filledQty ==>
                          && result.value[1].Fill?
                          && result.value[1].correlationId == cid && result.value[1].symbol == symbol
                          && result.value[1].side == side
                          && result.value[1].fill.qty == report.cumQty - t.filledQty
                          && result.value[1].fill.ts == report.ts))
  {
    hide WrapI64, WrapI128, TruncDiv;
    if cid in s.trackers {
      PartialFillAnswers(s.trackers[cid], report.cumQty, report.cumAvg, report.ts);
      hide AfterPartialFill;
    }
  }

  /** A cancellation of a known order succeeds exactly when the adapter agrees
      and the order is live. Then only that order's state changes, and the event
      says so. Otherwise nothing changes, and a refusal returns the adapter's
      error under the order's broker. */
  lemma CancelAnswers(s: EngineState, cid: nat, answer: Option<BrokerError>, now: U64)
    ensures var (s', result) := AfterCancelRequest(s, cid, answer, now);
            if cid !in s.trackers then s' == s && result == Err(InternalError)
            else
              var t := s.trackers[cid];
              && (result.Ok? <==> answer.None? && (t.state == Submitted || t.state == PartiallyFilled))
              && (result.Ok? ==>
                    && s' == s.(trackers := s.trackers[cid := t.(state := Cancelled)])
                    && result.value == Announced(t, Cancelled, t.brokerOrderId, now))
              && (result.Err? ==>
                    && s' == s
                    && result.error == if answer.Some? then Broker(t.broker, 1, answer.value)
                                       else InvalidFsmTransition(t.state, Cancelled))
  {
    if cid in s.trackers {
      MoveAnswers(s.trackers[cid], Cancelled, None, now);
    }
  }
}
