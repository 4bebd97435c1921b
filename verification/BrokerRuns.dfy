/** Whole runs of the simulated exchange: conservation of liquidity, fresh
    ids, and what every order record keeps. */
module BrokerRuns {
  import opened MachineInts
  import opened Matching
  import opened OrderBooks
  import opened OrderBookLaws
  import opened BrokerApi
  import opened Vwap
  import opened OrderRecords
  import opened SimulatedBroker

  datatype Request =
    | SetBook(symbol: U32, book: Book)
    | SetReady(state: ReadyState)
    | Submit(intent: OrderIntent, ts: U64)
    | Modify(m: OrderModification, ts: U64)
    | Cancel(id: string, ts: U64)

  function Step(s: Broker, req: Request): Broker {
    match req
    case SetBook(symbol, book) => s.(books := s.books[symbol := book])
    case SetReady(state) => s.(ready := state)
    case Submit(intent, ts) => AfterSubmit(s, intent, ts).0
    case Modify(m, ts) => AfterModify(s, m, ts).0
    case Cancel(id, ts) => AfterCancelOrder(s, id, ts).0
  }

  function Run(s: Broker, reqs: seq<Request>): Broker {
    if reqs == [] then s else Step(Run(s, reqs[..|reqs| - 1]), reqs[|reqs| - 1])
  }

  /* ----- Order ids ----- */

  lemma {:induction false} DecimalInjective(m: nat, n: nat)
    requires Decimal(m) == Decimal(n)
    ensures m == n
  {
    var a, b := Decimal(m), Decimal(n);
    assert a[|a| - 1] == "0123456789"[m % 10] && b[|b| - 1] == "0123456789"[n % 10];
    DigitInjective(m % 10, n % 10);
    if m < 10 && n < 10 {
    } else if m >= 10 && n >= 10 {
      assert Decimal(m / 10) == a[..|a| - 1] && Decimal(n / 10) == b[..|b| - 1];
      DecimalInjective(m / 10, n / 10);
    } else {
      DecimalNotEmpty(m / 10);
      DecimalNotEmpty(n / 10);
    }
  }

  lemma DigitInjective(i: nat, j: nat)
    requires i < 10 && j < 10 && "0123456789"[i] == "0123456789"[j]
    ensures i == j
  {
  }

  lemma DecimalNotEmpty(n: nat)
    ensures Decimal(n) != []
  {
  }

  lemma OrderIdInjective(m: nat, n: nat)
    requires OrderId(m) == OrderId(n)
    ensures m == n
  {
    assert OrderId(m)[4..] == Decimal(m) && OrderId(n)[4..] == Decimal(n);
    DecimalInjective(m, n);
  }

  /* ----- What every reachable broker keeps ----- */

  /** A record never over-fills, its average is that of its fills, and its
      state agrees with what filled. */
  ghost predicate RecordOk(r: Record) {
    && r.filledQty == TotalQty(r.fills) <= r.intent.quantity
    && r.avgFillPaise == ExactVwap(r.fills)
    && !r.state.New? && !r.state.Rejected?
    && (r.state.Submitted? ==> r.filledQty == 0)
    && (r.state.PartiallyFilled? ==> 0 < r.filledQty)
    && (r.state.Filled? ==> r.filledQty == r.intent.quantity)
  }

  ghost predicate MintedBy(id: string, n: nat) {
    exists k :: 1 <= k <= n && id == OrderId(k)
  }

  ghost predicate BooksOk(s: Broker) {
    forall sym :: sym in s.books ==> NoEmptyLevel(s.books[sym].bids) && NoEmptyLevel(s.books[sym].asks)
  }

  ghost predicate OrdersOk(s: Broker) {
    forall id :: id in s.orders ==> MintedBy(id, s.nextId) && s.orders[id].id == id && RecordOk(s.orders[id])
  }

  ghost predicate WellFormed(s: Broker) {
    BooksOk(s) && OrdersOk(s)
  }

  ghost predicate WellFormedRequest(req: Request) {
    req.SetBook? ==> NoEmptyLevel(req.book.bids) && NoEmptyLevel(req.book.asks)
  }

  /** The record of an accepted submission: at most the quantity asked for,
      the exact average of its fills, `Filled` exactly when fully filled. */
  lemma SubmittedRecordOk(s: Broker, intent: OrderIntent, ts: U64)
    requires intent.symbol in s.books
    ensures var r := SubmitRecord(s, intent, ts);
            && RecordOk(r) && r.id == OrderId(MintedId(s)) && r.intent == intent
            && r.fills == SubmitFills(s, intent)
            && (intent.quantity > 0 ==> (r.state.Filled? <==> r.filledQty == intent.quantity))
  {
    hide OrderId, AfterFills, TotalQty;
    var side := SideOf(s.books[intent.symbol], intent.side);
    FillBounds(intent.side, Ladder(intent.side, side), intent.quantity, LimitOf(intent));
    OrderFillsAre(intent.side, side, intent.quantity, LimitOf(intent));
    FreshRecordFilled(NewRecord(OrderId(MintedId(s)), intent, ts), SubmitFills(s, intent), ts);
  }

  lemma FreshRecordFilled(r: Record, fills: seq<Level>, ts: U64)
    requires r == NewRecord(r.id, r.intent, ts)
    requires TotalQty(fills) <= r.intent.quantity
    ensures var r' := AfterFills(r, fills, ts);
            && RecordOk(r') && r'.id == r.id && r'.intent == r.intent && r'.fills == fills
            && (r.intent.quantity > 0 ==> (r'.state.Filled? <==> r'.filledQty == r.intent.quantity))
  {
    hide RunQty, RunNotional;
    FirstBatchIsVwap(r, fills, ts);
    var r' := AfterFills(r, fills, ts);
    assert r'.fills == fills;
    assert r'.state.Submitted? ==> r'.filledQty == 0;
  }

  ghost predicate InBand(fills: seq<BookLevel>, lo: int, hi: int) {
    forall i :: 0 <= i < |fills| ==> lo <= fills[i].price <= hi
  }

  /** Limit protection: once filled at all, a limit buy's average is at most its limit and a limit
      sell's at least its limit, and the average lies in every band that
      holds the fill prices. */
  lemma LimitProtection(s: Broker, intent: OrderIntent, ts: U64)
    requires intent.symbol in s.books
    ensures var r := SubmitRecord(s, intent, ts);
            r.filledQty > 0 ==>
              && (intent.orderType.Limit? && intent.side.Buy? ==> r.avgFillPaise <= intent.limitPaise)
              && (intent.orderType.Limit? && intent.side.Sell? ==> r.avgFillPaise >= intent.limitPaise)
              && forall lo, hi :: InBand(r.fills, lo, hi) ==> lo <= r.avgFillPaise <= hi
  {
    hide SubmitRecord, ExactVwap, Ladder, Fills, TotalQty, OrderId, OrderFills;
    SubmittedRecordOk(s, intent, ts);
    var r := SubmitRecord(s, intent, ts);
    if r.filledQty == 0 {
      return;
    }
    forall lo, hi | InBand(r.fills, lo, hi) ensures lo <= r.avgFillPaise <= hi {
      VwapBetween(r.fills, lo, hi);
    }
    var side := SideOf(s.books[intent.symbol], intent.side);
    FillBounds(intent.side, Ladder(intent.side, side), intent.quantity, LimitOf(intent));
    OrderFillsAre(intent.side, side, intent.quantity, LimitOf(intent));
    if intent.orderType.Limit? {
      assert InBand(r.fills, if intent.side.Buy? then I64_MIN else intent.limitPaise,
                    if intent.side.Buy? then intent.limitPaise else I64_MAX);
    }
  }

  lemma MintedLater(id: string, m: nat, n: nat)
    requires MintedBy(id, m) && m <= n
    ensures MintedBy(id, n)
  {
  }

  /** Every request keeps the broker well formed. */
  lemma StepWellFormed(s: Broker, req: Request)
    requires WellFormed(s) && WellFormedRequest(req)
    ensures WellFormed(Step(s, req)) && s.nextId <= Step(s, req).nextId <= s.nextId + 1
  {
    hide SubmitRecord, SubmitFills, BooksOk, OrdersOk;
    StepBooks(s, req);
    StepOrders(s, req);
  }

  lemma StepBooks(s: Broker, req: Request)
    requires BooksOk(s) && WellFormedRequest(req)
    ensures BooksOk(Step(s, req))
  {
    if req.Submit? && req.intent.symbol in s.books {
      var book := s.books[req.intent.symbol];
      DepletedNoEmpty(req.intent.side, SideOf(book, req.intent.side), SubmitFills(s, req.intent));
    }
    hide NoEmptyLevel, Depleted, SubmitRecord, SubmitFills;
  }

  lemma StepOrders(s: Broker, req: Request)
    requires OrdersOk(s)
    ensures OrdersOk(Step(s, req))
  {
    hide SubmitRecord, SubmitFills, Depleted, OrderId;
    var s' := Step(s, req);
    if req.Submit? && req.intent.symbol in s.books {
      SubmittedRecordOk(s, req.intent, req.ts);
      assert 1 <= MintedId(s);
      assert MintedBy(OrderId(MintedId(s)), MintedId(s));
    }
    forall id | id in s'.orders
      ensures MintedBy(id, s'.nextId) && s'.orders[id].id == id && RecordOk(s'.orders[id])
    {
      if id in s.orders {
        MintedLater(id, s.nextId, s'.nextId);
      }
    }
  }

  lemma {:induction false} RunWellFormed(s: Broker, reqs: seq<Request>)
    requires WellFormed(s)
    requires forall i :: 0 <= i < |reqs| ==> WellFormedRequest(reqs[i])
    ensures WellFormed(Run(s, reqs))
    ensures s.nextId <= Run(s, reqs).nextId <= s.nextId + |reqs|
  {
    if reqs != [] {
      RunWellFormed(s, reqs[..|reqs| - 1]);
      StepWellFormed(Run(s, reqs[..|reqs| - 1]), reqs[|reqs| - 1]);
    }
  }

  /** What the broker reports of an order after any requests: it knows exactly
      the orders on record, unless misconfigured, and reports the order asked
      for, never over-filled, at the exact average of its fills. */
  lemma StatusTruthful(s: Broker, reqs: seq<Request>, id: string)
    requires WellFormed(s)
    requires forall i :: 0 <= i < |reqs| ==> WellFormedRequest(reqs[i])
    ensures var (s', status) := (Run(s, reqs), Status(Run(s, reqs), id));
            && (status.Ok? <==> !s'.ready.ConfigError? && id in s'.orders)
            && (status.Ok? ==>
                  && status.value.brokerOrderId == id
                  && status.value.state == s'.orders[id].state
                  && status.value.brokerTs == Some(s'.orders[id].lastTs)
                  && status.value.filledQty == TotalQty(s'.orders[id].fills) <= s'.orders[id].intent.quantity
                  && status.value.avgFillPaise == ExactVwap(s'.orders[id].fills)
                  && (status.value.state.Filled? ==> status.value.filledQty == s'.orders[id].intent.quantity))
  {
    RunWellFormed(s, reqs);
  }

  /** Before the counter saturates, a minted id belongs to no earlier order. */
  lemma MintedIdFresh(s: Broker)
    requires WellFormed(s) && s.nextId < U64_MAX
    ensures OrderId(MintedId(s)) !in s.orders
  {
    var id := OrderId(MintedId(s));
    if id in s.orders {
      var k :| 1 <= k <= s.nextId && id == OrderId(k);
      OrderIdInjective(k, MintedId(s));
    }
  }

  /** A request that fails changes nothing but the id counter. */
  lemma FailureKeepsState(s: Broker, req: Request)
    requires req.Submit? ==> AfterSubmit(s, req.intent, req.ts).1.Err?
    requires req.Modify? ==> AfterModify(s, req.m, req.ts).1.Err?
    requires req.Cancel? ==> AfterCancelOrder(s, req.id, req.ts).1.Err?
    requires !req.SetBook? && !req.SetReady?
    ensures Step(s, req).(nextId := s.nextId) == s
    ensures !req.Submit? ==> Step(s, req) == s
  {
    if req.Modify? && req.m.brokerOrderId in s.orders {
      assert s.orders[req.m.brokerOrderId := s.orders[req.m.brokerOrderId]] == s.orders;
    }
    if req.Cancel? && req.id in s.orders {
      assert s.orders[req.id := s.orders[req.id]] == s.orders;
    }
  }

  /* ----- Conservation over runs ----- */

  /** What one order took from this side of this symbol at this price. */
  function Taken(r: Record, symbol: U32, side: Side, price: int): nat {
    if r.intent.symbol == symbol && r.intent.side == side then QtyAt(r.fills, price) else 0
  }

  /** What the orders with ids numbered in (lo, hi] took. */
  function TakenBy(orders: map<string, Record>, lo: nat, hi: nat, symbol: U32, side: Side, price: int): nat
    decreases hi
  {
    if hi <= lo then 0
    else TakenBy(orders, lo, hi - 1, symbol, side, price)
         + if OrderId(hi) in orders then Taken(orders[OrderId(hi)], symbol, side, price) else 0
  }

  lemma {:induction false} TakenBySame(
      a: map<string, Record>, b: map<string, Record>, lo: nat, hi: nat, symbol: U32, side: Side, price: int)
    requires forall k :: lo < k <= hi ==>
               && (OrderId(k) in a <==> OrderId(k) in b)
               && (OrderId(k) in a ==>
                     Taken(a[OrderId(k)], symbol, side, price) == Taken(b[OrderId(k)], symbol, side, price))
    ensures TakenBy(a, lo, hi, symbol, side, price) == TakenBy(b, lo, hi, symbol, side, price)
    decreases hi
  {
    if lo < hi {
      TakenBySame(a, b, lo, hi - 1, symbol, side, price);
    }
  }

  /** What rests on a side at a price plus what orders since `lo` took there. */
  function Seeded(s: Broker, lo: nat, symbol: U32, side: Side, price: I64): nat
    requires symbol in s.books
  {
    Resting(side, SideOf(s.books[symbol], side), price)
    + TakenBy(s.orders, lo, s.nextId, symbol, side, price)
  }

  /** An accepted submission moves liquidity from the book to its own record. */
  lemma SubmitMoves(s: Broker, intent: OrderIntent, ts: U64, symbol: U32, side: Side, price: I64)
    requires WellFormed(s) && symbol in s.books
    requires s.ready.Ready? && intent.symbol in s.books
    ensures var s' := AfterSubmit(s, intent, ts).0;
            && symbol in s'.books
            && Resting(side, SideOf(s.books[symbol], side), price)
            == Resting(side, SideOf(s'.books[symbol], side), price)
               + Taken(SubmitRecord(s, intent, ts), symbol, side, price)
  {
    hide SubmitRecord, Depleted, OrderFills, OrderId;
    SubmittedRecordOk(s, intent, ts);
    OrderConserves(intent.side, SideOf(s.books[intent.symbol], intent.side),
                   intent.quantity, LimitOf(intent), price);
  }

  /** One request, before the counter saturates, keeps the total. */
  lemma StepConserves(s: Broker, req: Request, lo: nat, symbol: U32, side: Side, price: I64)
    requires WellFormed(s) && WellFormedRequest(req) && symbol in s.books
    requires lo <= s.nextId < U64_MAX
    requires req.SetBook? ==> req.symbol != symbol
    ensures symbol in Step(s, req).books
    ensures Seeded(Step(s, req), lo, symbol, side, price) == Seeded(s, lo, symbol, side, price)
  {
    hide Resting, SubmitFills, SubmitRecord, OrderId, BooksOk, OrdersOk;
    var s' := Step(s, req);
    if req.Submit? {
      if s.ready.Ready? && req.intent.symbol in s.books {
        SubmitMoves(s, req.intent, req.ts, symbol, side, price);
      }
      MintedIdFresh(s);
      OlderOrdersKept(s, s', lo, symbol, side, price);
      assert s'.nextId == s.nextId || s'.nextId == s.nextId + 1;
    } else {
      TakenBySame(s.orders, s'.orders, lo, s.nextId, symbol, side, price);
    }
  }

  lemma OlderOrdersKept(s: Broker, s': Broker, lo: nat, symbol: U32, side: Side, price: I64)
    requires s'.orders.Keys - {OrderId(MintedId(s))} == s.orders.Keys
    requires forall id :: id in s.orders ==> s'.orders[id] == s.orders[id]
    requires lo <= s.nextId < U64_MAX
    ensures TakenBy(s'.orders, lo, s.nextId, symbol, side, price)
         == TakenBy(s.orders, lo, s.nextId, symbol, side, price)
  {
    forall k | lo < k <= s.nextId ensures OrderId(k) != OrderId(MintedId(s)) {
      if OrderId(k) == OrderId(MintedId(s)) {
        OrderIdInjective(k, MintedId(s));
      }
    }
    TakenBySame(s.orders, s'.orders, lo, s.nextId, symbol, side, price);
  }

  /** Liquidity conservation over whole runs: after any requests that do not
      replace the symbol's book, what the book held at a price is what it
      still holds plus what the orders submitted since then took there. */
  lemma {:induction false} RunConserves(
      s: Broker, reqs: seq<Request>, symbol: U32, side: Side, price: I64)
    requires WellFormed(s) && symbol in s.books
    requires forall i :: 0 <= i < |reqs| ==> WellFormedRequest(reqs[i])
    requires forall i :: 0 <= i < |reqs| && reqs[i].SetBook? ==> reqs[i].symbol != symbol
    requires s.nextId + |reqs| <= U64_MAX
    ensures symbol in Run(s, reqs).books
    ensures var s' := Run(s, reqs);
            Resting(side, SideOf(s.books[symbol], side), price)
            == Resting(side, SideOf(s'.books[symbol], side), price)
               + TakenBy(s'.orders, s.nextId, s'.nextId, symbol, side, price)
  {
    RunKeepsSeeded(s, reqs, symbol, side, price);
  }

  lemma {:induction false} RunKeepsSeeded(
      s: Broker, reqs: seq<Request>, symbol: U32, side: Side, price: I64)
    requires WellFormed(s) && symbol in s.books
    requires forall i :: 0 <= i < |reqs| ==> WellFormedRequest(reqs[i])
    requires forall i :: 0 <= i < |reqs| && reqs[i].SetBook? ==> reqs[i].symbol != symbol
    requires s.nextId + |reqs| <= U64_MAX
    ensures symbol in Run(s, reqs).books
    ensures Seeded(Run(s, reqs), s.nextId, symbol, side, price) == Seeded(s, s.nextId, symbol, side, price)
  {
    if reqs != [] {
      var before := reqs[..|reqs| - 1];
      RunKeepsSeeded(s, before, symbol, side, price);
      RunWellFormed(s, before);
      StepConserves(Run(s, before), reqs[|reqs| - 1], s.nextId, symbol, side, price);
    }
  }

  /** Conservation has one exception, and this is exactly when it fails: an
      accepted submission keeps the total over all orders if and only if its
      id is not that of an order which had taken from this side at this
      price. Ids repeat only once the counter has saturated. */
  lemma SubmitConservesIff(s: Broker, intent: OrderIntent, ts: U64, symbol: U32, side: Side, price: I64)
    requires WellFormed(s) && symbol in s.books
    requires s.ready.Ready? && intent.symbol in s.books
    ensures var id := OrderId(MintedId(s));
            && symbol in AfterSubmit(s, intent, ts).0.books
            && (id in s.orders ==> s.nextId == U64_MAX)
            && (Seeded(AfterSubmit(s, intent, ts).0, 0, symbol, side, price) == Seeded(s, 0, symbol, side, price)
                <==> (id !in s.orders || Taken(s.orders[id], symbol, side, price) == 0))
  {
    if s.nextId < U64_MAX {
      MintedIdFresh(s);
      StepConserves(s, Submit(intent, ts), 0, symbol, side, price);
    } else {
      SaturatedSubmit(s, intent, ts, symbol, side, price);
    }
  }

  lemma SaturatedSubmit(s: Broker, intent: OrderIntent, ts: U64, symbol: U32, side: Side, price: I64)
    requires WellFormed(s) && symbol in s.books && s.nextId == U64_MAX
    requires s.ready.Ready? && intent.symbol in s.books
    ensures var id := OrderId(MintedId(s));
            && symbol in AfterSubmit(s, intent, ts).0.books
            && Seeded(AfterSubmit(s, intent, ts).0, 0, symbol, side, price)
               + (if id in s.orders then Taken(s.orders[id], symbol, side, price) else 0)
            == Seeded(s, 0, symbol, side, price)
  {
    var s' := AfterSubmit(s, intent, ts).0;
    SubmitMoves(s, intent, ts, symbol, side, price);
    hide Resting, SubmitRecord, SubmitFills, OrderId, Taken;
    forall k | 0 < k <= U64_MAX - 1 ensures OrderId(k) != OrderId(U64_MAX) {
      if OrderId(k) == OrderId(U64_MAX) {
        OrderIdInjective(k, U64_MAX);
      }
    }
    TakenBySame(s.orders, s'.orders, 0, U64_MAX - 1, symbol, side, price);
    TakenByLast(s.orders, 0, U64_MAX, symbol, side, price);
    TakenByLast(s'.orders, 0, U64_MAX, symbol, side, price);
  }

  lemma TakenByLast(orders: map<string, Record>, lo: nat, hi: nat, symbol: U32, side: Side, price: int)
    requires lo < hi
    ensures TakenBy(orders, lo, hi, symbol, side, price)
         == TakenBy(orders, lo, hi - 1, symbol, side, price)
            + if OrderId(hi) in orders then Taken(orders[OrderId(hi)], symbol, side, price) else 0
  {
  }

  /* ----- Modification and state ----- */

  /** A modification does not recompute the state: where `Filled` meant
      exactly "all filled" before, it still does afterwards if and only if
      the new quantity is not the quantity already filled. */
  lemma ModifyKeepsFilledIff(r: Record, m: OrderModification, ts: U64)
    requires RecordOk(r) && (r.state.Filled? <==> r.filledQty == r.intent.quantity)
    requires AfterModification(r, m, ts).1.Ok?
    ensures RecordOk(AfterModification(r, m, ts).0)
    ensures var r' := AfterModification(r, m, ts).0;
            (r'.state.Filled? <==> r'.filledQty == r'.intent.quantity)
            <==> m.newQuantity != Some(r.filledQty)
  {
  }
}
