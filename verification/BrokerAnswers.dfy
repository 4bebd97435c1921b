/** What each request to the simulated exchange does, said of the book and the
    order alone. */
module BrokerAnswers {
  import opened MachineInts
  import opened Matching
  import opened OrderBooks
  import opened OrderBookLaws
  import opened BrokerApi
  import opened Vwap
  import opened OrderRecords
  import opened SimulatedBroker
  import opened BrokerRuns

  /** A submission to a ready broker with a book for the symbol: the order is
      acknowledged under the id it is recorded under, takes from the opposite
      side what greedy matching of its whole quantity under its own limit takes,
      leaves the rest of the books alone, and reports exactly what it took. */
  lemma SubmitAccepted(s: Broker, intent: OrderIntent, ts: U64)
    requires s.ready.Ready? && intent.symbol in s.books
    ensures var (s', result) := AfterSubmit(s, intent, ts);
            var id := "SIM-" + Decimal(Min(s.nextId + 1, U64_MAX));
            var (book, book') := (s.books[intent.symbol], s'.books[intent.symbol]);
            var ladder := if intent.side.Buy? then Ladder(Buy, book.asks) else Ladder(Sell, book.bids);
            var limit := if intent.orderType.Market? then None else Some(intent.limitPaise);
            && result == Ok(SubmitAck(id, Some(ts)))
            && id in s'.orders && s'.orders == s.orders[id := s'.orders[id]]
            && s'.books == s.books[intent.symbol := book']
            && s'.ready == s.ready && s'.nextId == Min(s.nextId + 1, U64_MAX)
            && (if intent.side.Buy? then book'.bids == book.bids else book'.asks == book.asks)
            && Answers(s'.orders[id], intent, Fills(intent.side, ladder, intent.quantity, limit), id, ts)
  {
    hide AfterFills, Ladder, Fills, Depleted, Decimal, OrderFills;
    var book, side := s.books[intent.symbol], intent.side;
    SubmittedRecordOk(s, intent, ts);
    OrderFillsAre(side, if side.Buy? then book.asks else book.bids, intent.quantity, LimitOf(intent));
    FirstRecord(intent, SubmitFills(s, intent), OrderId(MintedId(s)), ts);
  }

  /** The record of an order that took these fills in one batch. */
  ghost predicate Answers(r: Record, intent: OrderIntent, fills: seq<BookLevel>, id: string, ts: U64) {
    && r.id == id && r.intent == intent && r.fills == fills && r.lastTs == ts
    && r.filledQty == TotalQty(fills) <= intent.quantity
    && r.avgFillPaise == ExactVwap(fills)
    && r.state == (if TotalQty(fills) == intent.quantity && fills != [] then Filled
                   else if TotalQty(fills) == 0 then Submitted else PartiallyFilled)
  }

  lemma FirstRecord(intent: OrderIntent, fills: seq<Level>, id: string, ts: U64)
    requires TotalQty(fills) <= intent.quantity
    ensures Answers(AfterFills(NewRecord(id, intent, ts), fills, ts), intent, fills, id, ts)
  {
    FirstBatchIsVwap(NewRecord(id, intent, ts), fills, ts);
    hide RunQty, RunNotional, ExactVwap;
    if fills != [] {
      AfterFillsExact(NewRecord(id, intent, ts), fills, ts);
    }
  }

  /** These fills are the smaller of the quantity and what the limit allows,
      and this allocation of as much over the eligible levels is no better. */
  ghost predicate NoBetter(
      fills: seq<BookLevel>, side: Side, ladder: seq<BookLevel>, q: nat, limit: Option<int>, alloc: seq<nat>)
  {
    && TotalQty(fills) == Min(q, EligibleQty(side, ladder, limit))
    && (Feasible(side, ladder, limit, alloc) && Sum(alloc) == TotalQty(fills) ==>
          if side.Buy? then Notional(fills) <= Cost(ladder, alloc) else Notional(fills) >= Cost(ladder, alloc))
  }

  /** An accepted order gets the smaller of what it asks for and what its limit
      allows, and no other allocation over the eligible levels is better for it:
      always for a buy, and for a sell unless a bid at the least `i64` shares the
      book with another. */
  lemma SubmitMatchesBest(s: Broker, intent: OrderIntent, ts: U64, alloc: seq<nat>)
    requires s.ready.Ready? && intent.symbol in s.books
    requires intent.side.Sell? ==>
               I64_MIN !in s.books[intent.symbol].bids || s.books[intent.symbol].bids.Keys == {I64_MIN}
    ensures var (s', result) := AfterSubmit(s, intent, ts);
            var (book, side) := (s.books[intent.symbol], intent.side);
            var ladder := if side.Buy? then Ladder(Buy, book.asks) else Ladder(Sell, book.bids);
            var limit := if intent.orderType.Market? then None else Some(intent.limitPaise);
            && result.Ok? && result.value.brokerOrderId in s'.orders
            && NoBetter(s'.orders[result.value.brokerOrderId].fills, side, ladder, intent.quantity, limit, alloc)
  {
    hide AfterSubmit, Ladder, Fills, TotalQty, Decimal, BestFirst, NoBetter, ExactVwap;
    var book, side := s.books[intent.symbol], intent.side;
    var limit := if intent.orderType.Market? then None else Some(intent.limitPaise);
    SubmitAccepted(s, intent, ts);
    if side.Buy? {
      AsksBestFirst(book.asks);
      FillsBest(Buy, Ladder(Buy, book.asks), intent.quantity, limit, alloc);
    } else {
      BidsBestFirst(book.bids);
      FillsBest(Sell, Ladder(Sell, book.bids), intent.quantity, limit, alloc);
    }
  }

  lemma FillsBest(side: Side, ladder: seq<BookLevel>, q: nat, limit: Option<int>, alloc: seq<nat>)
    requires BestFirst(side, ladder)
    ensures NoBetter(Fills(side, ladder, q, limit), side, ladder, q, limit, alloc)
  {
    hide BestFirst, Fills, TotalQty, Notional, Sum, Cost;
    FillsTotal(side, ladder, q, limit);
    if Feasible(side, ladder, limit, alloc) && Sum(alloc) == TotalQty(Fills(side, ladder, q, limit)) {
      GreedyIsOptimal(side, ladder, q, limit, alloc);
    }
  }

  /** A submission is refused exactly when the broker is not ready, which takes
      no id, or has no book for the symbol, which does. */
  lemma SubmitRefused(s: Broker, intent: OrderIntent, ts: U64)
    ensures var (s', result) := AfterSubmit(s, intent, ts);
            && (result == Err(NotReady) <==> !s.ready.Ready?)
            && (result == Err(Refused) <==> s.ready.Ready? && intent.symbol !in s.books)
            && (result.Ok? <==> s.ready.Ready? && intent.symbol in s.books)
            && (result.Err? ==>
                  s' == s.(nextId := if s.ready.Ready? then Min(s.nextId + 1, U64_MAX) else s.nextId))
  {
  }

  /** The first reason there is to refuse a request for an existing order. */
  function Refusal(s: Broker, id: string): Option<BrokerError> {
    if !s.ready.Ready? then Some(NotReady)
    else if id !in s.orders then Some(UnknownOrderId(id))
    else if s.orders[id].state in {Filled, Cancelled, Rejected} then Some(Refused)
    else None
  }

  /** A cancellation ends exactly a live order the ready broker knows; it
      changes that order's state and time and nothing else. */
  lemma CancelAnswers(s: Broker, id: string, ts: U64)
    ensures var (s', result) := AfterCancelOrder(s, id, ts);
            match Refusal(s, id)
            case Some(error) => result == Err(error) && s' == s
            case None =>
              && result.Ok?
              && s' == s.(orders := s.orders[id := s.orders[id].(state := Cancelled, lastTs := ts)])
  {
    if s.ready.Ready? && id in s.orders {
      assert s.orders[id := s.orders[id]] == s.orders;
    }
  }

  /** A modification changes exactly the quantity, limit and time of a live
      order, where asked to, and is refused below what has filled. */
  lemma ModifyAnswers(s: Broker, m: OrderModification, ts: U64)
    ensures var (s', result) := AfterModify(s, m, ts);
            var id := m.brokerOrderId;
            match Refusal(s, id)
            case Some(error) => result == Err(error) && s' == s
            case None =>
              var r := s.orders[id];
              if m.newQuantity.Some? && m.newQuantity.value < r.filledQty then result == Err(Refused) && s' == s
              else
                && result.Ok? && id in s'.orders && s' == s.(orders := s.orders[id := s'.orders[id]])
                && var r' := s'.orders[id];
                && r' == r.(intent := r'.intent, lastTs := ts)
                && r'.intent == r.intent.(quantity := r'.intent.quantity, limitPaise := r'.intent.limitPaise)
                && (m.newQuantity.Some? ==> r'.intent.quantity == m.newQuantity.value)
                && (m.newQuantity.None? ==> r'.intent.quantity == r.intent.quantity)
                && (m.newLimitPaise.Some? ==> r'.intent.limitPaise == m.newLimitPaise.value)
                && (m.newLimitPaise.None? ==> r'.intent.limitPaise == r.intent.limitPaise)
  {
    if s.ready.Ready? && m.brokerOrderId in s.orders {
      assert s.orders[m.brokerOrderId := s.orders[m.brokerOrderId]] == s.orders;
    }
  }
}
