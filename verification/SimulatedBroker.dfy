/** The simulated exchange: books by symbol, orders by id, one id counter. */
module SimulatedBroker {
  import opened MachineInts
  import opened Matching
  import opened OrderBooks
  import opened BrokerApi
  import opened OrderRecords

  datatype Book = Book(bids: BookSide, asks: BookSide)

  datatype Broker = Broker(
    books: map<U32, Book>, orders: map<string, Record>, nextId: U64, ready: ReadyState)

  /** The stored side an order of `side` trades against. */
  function SideOf(book: Book, side: Side): BookSide {
    if side.Buy? then book.asks else book.bids
  }

  function WithSide(book: Book, side: Side, m: BookSide): Book {
    if side.Buy? then book.(asks := m) else book.(bids := m)
  }

  function Decimal(n: nat): string {
    if n < 10 then ["0123456789"[n]] else Decimal(n / 10) + ["0123456789"[n % 10]]
  }

  function OrderId(n: nat): string {
    "SIM-" + Decimal(n)
  }

  function LimitOf(intent: OrderIntent): Option<I64> {
    if intent.orderType.Market? then None else Some(intent.limitPaise)
  }

  function BooksAfter(books: map<U32, Book>, intent: OrderIntent, fills: seq<BookLevel>): map<U32, Book>
    requires intent.symbol in books
  {
    var book := books[intent.symbol];
    books[intent.symbol := WithSide(book, intent.side, Depleted(intent.side, SideOf(book, intent.side), fills))]
  }

  function MintedId(s: Broker): nat {
    Min(s.nextId + 1, U64_MAX)
  }

  /** What an order takes from the book of its symbol. */
  function SubmitFills(s: Broker, intent: OrderIntent): seq<Level>
    requires intent.symbol in s.books
  {
    OrderFills(intent.side, SideOf(s.books[intent.symbol], intent.side), intent.quantity, LimitOf(intent))
  }

  function SubmitRecord(s: Broker, intent: OrderIntent, ts: U64): Record
    requires intent.symbol in s.books
  {
    AfterFills(NewRecord(OrderId(MintedId(s)), intent, ts), SubmitFills(s, intent), ts)
  }

  function AfterSubmit(s: Broker, intent: OrderIntent, ts: U64): (Broker, Result<SubmitAck, BrokerError>) {
    if !s.ready.Ready? then (s, Err(NotReady))
    else if intent.symbol !in s.books then (s.(nextId := MintedId(s)), Err(Refused))
    else
      var id := OrderId(MintedId(s));
      (s.(nextId := MintedId(s),
          books := BooksAfter(s.books, intent, SubmitFills(s, intent)),
          orders := s.orders[id := SubmitRecord(s, intent, ts)]),
       Ok(SubmitAck(id, Some(ts))))
  }

  function AfterModify(s: Broker, m: OrderModification, ts: U64): (Broker, Result<(), BrokerError>) {
    if !s.ready.Ready? then (s, Err(NotReady))
    else if m.brokerOrderId !in s.orders then (s, Err(UnknownOrderId(m.brokerOrderId)))
    else
      var (r, result) := AfterModification(s.orders[m.brokerOrderId], m, ts);
      (s.(orders := s.orders[m.brokerOrderId := r]), result)
  }

  function AfterCancelOrder(s: Broker, id: string, ts: U64): (Broker, Result<(), BrokerError>) {
    if !s.ready.Ready? then (s, Err(NotReady))
    else if id !in s.orders then (s, Err(UnknownOrderId(id)))
    else
      var (r, result) := AfterCancel(s.orders[id], ts);
      (s.(orders := s.orders[id := r]), result)
  }

  function Status(s: Broker, id: string): Result<OrderStatus, BrokerError> {
    if s.ready.ConfigError? then Err(NotReady)
    else if id !in s.orders then Err(UnknownOrderId(id))
    else Ok(StatusOf(s.orders[id]))
  }

  class SimulatedBroker {
    var books: map<U32, OrderBook>
    var orders: map<string, OrderRecord>
    var nextId: U64
    var ready: ReadyState

    /** Every book and every record belongs to one key. */
    ghost predicate Valid()
      reads this, books.Values, orders.Values
    {
      && (forall s :: s in books ==> books[s].Valid())
      && (forall s, s' :: s in books && s' in books && s != s' ==> books[s] != books[s'])
      && (forall id, id' :: id in orders && id' in orders && id != id' ==> orders[id] != orders[id'])
    }

    ghost function BooksView(): map<U32, Book>
      reads this, books.Values
    {
      map s | s in books :: Book(books[s].bids, books[s].asks)
    }

    ghost function OrdersView(): map<string, Record>
      reads this, orders.Values
    {
      map id | id in orders :: orders[id].View()
    }

    ghost function View(): Broker
      reads this, books.Values, orders.Values
    {
      Broker(BooksView(), OrdersView(), nextId, ready)
    }

    constructor (readyAtConstruction: bool)
      ensures Valid()
      ensures View() == Broker(map[], map[], 0, if readyAtConstruction then Ready else ConfigError)
    {
      books, orders, nextId := map[], map[], 0;
      ready := if readyAtConstruction then Ready else ConfigError;
    }

    /** Replace or create the book of a symbol; the broker now owns the book. */
    method SetBook(symbol: U32, book: OrderBook)
      requires Valid() && book.Valid() && book !in books.Values
      modifies this`books
      ensures Valid()
      ensures View() == old(View()).(books := old(BooksView())[symbol := Book(book.bids, book.asks)])
    {
      books := books[symbol := book];
      assert BooksView() == old(BooksView())[symbol := Book(book.bids, book.asks)];
      assert OrdersView() == old(OrdersView());
    }

    method SetReady(state: ReadyState)
      requires Valid()
      modifies this`ready
      ensures Valid() && View() == old(View()).(ready := state)
    {
      ready := state;
    }

    method DoSubmit(intent: OrderIntent, ts: U64) returns (result: Result<SubmitAck, BrokerError>)
      requires Valid()
      modifies this, books.Values
      ensures Valid()
      ensures (View(), result) == AfterSubmit(old(View()), intent, ts)
      ensures books == old(books)
    {
      hide OrderFills, Depleted, AfterFills, OrderId, NoEmptyLevel, BooksAfter;
      if !ready.Ready? {
        return Err(NotReady);
      }
      nextId := Min(nextId + 1, U64_MAX);
      assert Valid() && BooksView() == old(BooksView()) && OrdersView() == old(OrdersView());
      assert intent.symbol in books <==> intent.symbol in BooksView();
      hide BooksView, OrdersView, Valid;
      var id := OrderId(nextId);
      if intent.symbol !in books {
        return Err(Refused);
      }
      var fills := TakeLiquidity(intent);
      InstallRecord(id, intent, fills, ts);
      result := Ok(SubmitAck(id, Some(ts)));
    }

    /** The part of a submission that creates the order's record. */
    method InstallRecord(id: string, intent: OrderIntent, fills: seq<Level>, ts: U64)
      requires Valid()
      modifies this`orders
      ensures Valid()
      ensures View() == old(View()).(
                orders := old(OrdersView())[id := AfterFills(NewRecord(id, intent, ts), fills, ts)])
    {
      hide AfterFills, NoEmptyLevel;
      var record := new OrderRecord(id, intent, ts);
      record.ApplyFills(fills, ts);
      orders := orders[id := record];
      assert OrdersView() == old(OrdersView())[id := record.View()];
      assert BooksView() == old(BooksView());
    }

    /** The part of a submission that consumes the symbol's book. */
    method TakeLiquidity(intent: OrderIntent) returns (fills: seq<Level>)
      requires Valid() && intent.symbol in books
      modifies books.Values
      ensures Valid()
      ensures fills == OrderFills(
                intent.side, SideOf(old(BooksView())[intent.symbol], intent.side), intent.quantity, LimitOf(intent))
      ensures View() == old(View()).(books := BooksAfter(old(BooksView()), intent, fills))
    {
      hide OrderFills, Depleted, NoEmptyLevel;
      var book := books[intent.symbol];
      var qty := intent.quantity;
      var limit := match intent.orderType case Market => None case Limit => Some(intent.limitPaise);
      match intent.side {
        case Buy => fills := book.ConsumeAsks(qty, limit);
        case Sell => fills := book.ConsumeBids(qty, limit);
      }
      assert BooksView() == BooksAfter(old(BooksView()), intent, fills);
      assert OrdersView() == old(OrdersView());
    }

    method DoModify(m: OrderModification, ts: U64) returns (result: Result<(), BrokerError>)
      requires Valid()
      modifies orders.Values
      ensures Valid()
      ensures (View(), result) == AfterModify(old(View()), m, ts)
    {
      if !ready.Ready? {
        return Err(NotReady);
      }
      if m.brokerOrderId !in orders {
        return Err(UnknownOrderId(m.brokerOrderId));
      }
      result := orders[m.brokerOrderId].ApplyModification(m, ts);
      assert OrdersView() == AfterModify(old(View()), m, ts).0.orders;
      assert BooksView() == old(BooksView());
    }

    method DoCancel(id: string, ts: U64) returns (result: Result<(), BrokerError>)
      requires Valid()
      modifies orders.Values
      ensures Valid()
      ensures (View(), result) == AfterCancelOrder(old(View()), id, ts)
    {
      if !ready.Ready? {
        return Err(NotReady);
      }
      if id !in orders {
        return Err(UnknownOrderId(id));
      }
      result := orders[id].ApplyCancel(ts);
      assert OrdersView() == AfterCancelOrder(old(View()), id, ts).0.orders;
      assert BooksView() == old(BooksView());
    }

    method DoStatus(id: string) returns (result: Result<OrderStatus, BrokerError>)
      requires Valid()
      ensures result == Status(View(), id)
    {
      if ready.ConfigError? {
        return Err(NotReady);
      }
      if id !in orders {
        return Err(UnknownOrderId(id));
      }
      var status := orders[id].ToStatus();
      result := Ok(status);
    }
  }
}
