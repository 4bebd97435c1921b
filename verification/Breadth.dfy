/** Volatility breadth: per-symbol windows of returns and their pooled variance,
    over exact reals. */
module Breadth {
  import opened MachineInts
  import opened Windows
  import opened RingWindows

  const VOLATILITY_WINDOW: nat := 60

  datatype SymbolId = SymbolId(raw: U32)

  datatype SymbolView = SymbolView(
    lastLtp: I64, prevClose: I64, window: seq<real>, prevLtp: Option<I64>)

  function PctReturn(price: I64, prev: I64): real
    requires prev != 0
  {
    (price as real - prev as real) / prev as real
  }

  /** The return is the one number that takes the previous price to the new one. */
  lemma ReturnIsRelative(price: I64, prev: I64, r: real)
    requires prev != 0
    ensures r == PctReturn(price, prev) <==> prev as real * (1.0 + r) == price as real
  {
    var p, q := price as real, prev as real;
    assert PctReturn(price, prev) * q == p - q;
    assert q * (1.0 + r) == q + r * q;
    if r * q == p - q {
      CancelFactor(r, PctReturn(price, prev), q);
    }
  }

  lemma CancelFactor(a: real, b: real, q: real)
    requires q != 0.0 && a * q == b * q
    ensures a == b
  {
    assert (a - b) * q == 0.0;
  }

  /** A symbol before its first tick. */
  function NewView(closes: map<SymbolId, I64>, symbol: SymbolId): SymbolView {
    SymbolView(0, if symbol in closes then closes[symbol] else 0, [], None)
  }

  /** A symbol after one more tick: the return from its previous price, unless
      that was 0, enters its window. */
  function Ticked(s: SymbolView, ltp: I64): SymbolView {
    var window :=
      if s.prevLtp.Some? && s.prevLtp.value != 0
      then LastN(s.window + [PctReturn(ltp, s.prevLtp.value)], VOLATILITY_WINDOW)
      else s.window;
    SymbolView(ltp, s.prevClose, window, Some(ltp))
  }

  function AfterTick(view: map<SymbolId, SymbolView>, closes: map<SymbolId, I64>, symbol: SymbolId, ltp: I64)
    : map<SymbolId, SymbolView>
  {
    view[symbol := Ticked(if symbol in view then view[symbol] else NewView(closes, symbol), ltp)]
  }

  /* ----- Pooled sums ----- */

  datatype Moments = Moments(n: nat, sum: real, sumSq: real)

  const NOTHING := Moments(0, 0.0, 0.0)

  function Plus(a: Moments, b: Moments): Moments {
    Moments(a.n + b.n, a.sum + b.sum, a.sumSq + b.sumSq)
  }

  function MomentsOf(xs: seq<real>): Moments {
    if xs == [] then NOTHING else Plus(Moments(1, xs[0], xs[0] * xs[0]), MomentsOf(xs[1..]))
  }

  function SquaredDeviations(xs: seq<real>, centre: real): real {
    if xs == [] then 0.0
    else (xs[0] - centre) * (xs[0] - centre) + SquaredDeviations(xs[1..], centre)
  }

  function WindowsOf(view: map<SymbolId, SymbolView>): map<SymbolId, seq<real>> {
    map s | s in view :: view[s].window
  }

  ghost function Pick(keys: set<SymbolId>): SymbolId
    requires keys != {}
    ensures Pick(keys) in keys
  {
    var k :| k in keys; k
  }

  /** The windows of these symbols taken together. */
  ghost function Pooled(windows: map<SymbolId, seq<real>>, keys: set<SymbolId>): Moments
    requires keys <= windows.Keys
  {
    if keys == {} then NOTHING
    else Plus(MomentsOf(windows[Pick(keys)]), Pooled(windows, keys - {Pick(keys)}))
  }

  ghost function PooledDeviations(windows: map<SymbolId, seq<real>>, keys: set<SymbolId>, centre: real): real
    requires keys <= windows.Keys
  {
    if keys == {} then 0.0
    else SquaredDeviations(windows[Pick(keys)], centre) + PooledDeviations(windows, keys - {Pick(keys)}, centre)
  }

  /** The population variance of the pool by its two-pass definition, 0 below
      two samples, and the sample count. */
  ghost function Volatility(windows: map<SymbolId, seq<real>>): (real, nat) {
    var pool := Pooled(windows, windows.Keys);
    if pool.n < 2 then (0.0, pool.n)
    else (PooledDeviations(windows, windows.Keys, pool.sum / pool.n as real) / pool.n as real, pool.n)
  }

  lemma PlusSwap(a: Moments, b: Moments, c: Moments)
    ensures Plus(a, Plus(b, c)) == Plus(b, Plus(a, c))
  {
  }

  /** Any symbol can be pooled first: the order does not matter. */
  lemma {:induction false} PoolAnyFirst(windows: map<SymbolId, seq<real>>, keys: set<SymbolId>, s: SymbolId)
    requires keys <= windows.Keys && s in keys
    ensures Pooled(windows, keys) == Plus(MomentsOf(windows[s]), Pooled(windows, keys - {s}))
  {
    hide MomentsOf, Plus;
    var k := Pick(keys);
    if k != s {
      PoolAnyFirst(windows, keys - {k}, s);
      PoolAnyFirst(windows, keys - {s}, k);
      assert keys - {k} - {s} == keys - {s} - {k};
      PlusSwap(MomentsOf(windows[k]), MomentsOf(windows[s]), Pooled(windows, keys - {k} - {s}));
    }
  }

  /** The squared deviations about a centre, from the moments alone. */
  function Expanded(m: Moments, c: real): real {
    m.sumSq - 2.0 * c * m.sum + c * c * m.n as real
  }

  lemma ExpandSum(a: Moments, b: Moments, c: real)
    ensures Expanded(Plus(a, b), c) == Expanded(a, c) + Expanded(b, c)
  {
    var n: real := (a.n + b.n) as real;
    assert n == a.n as real + b.n as real;
    assert 2.0 * c * (a.sum + b.sum) == 2.0 * c * a.sum + 2.0 * c * b.sum;
    assert c * c * n == c * c * a.n as real + c * c * b.n as real;
  }

  lemma ExpandOne(x: real, c: real)
    ensures Expanded(Moments(1, x, x * x), c) == (x - c) * (x - c) >= 0.0
  {
  }

  lemma {:induction false} DeviationsExpand(xs: seq<real>, centre: real)
    ensures SquaredDeviations(xs, centre) == Expanded(MomentsOf(xs), centre) >= 0.0
  {
    if xs == [] {
      assert Expanded(NOTHING, centre) == 0.0;
    } else {
      var x, rest := xs[0], xs[1..];
      assert MomentsOf(xs) == Plus(Moments(1, x, x * x), MomentsOf(rest));
      assert SquaredDeviations(xs, centre) == (x - centre) * (x - centre) + SquaredDeviations(rest, centre);
      hide *;
      DeviationsExpand(rest, centre);
      ExpandOne(x, centre);
      ExpandSum(Moments(1, x, x * x), MomentsOf(rest), centre);
    }
  }

  lemma {:induction false} PooledExpand(windows: map<SymbolId, seq<real>>, keys: set<SymbolId>, centre: real)
    requires keys <= windows.Keys
    ensures PooledDeviations(windows, keys, centre) == Expanded(Pooled(windows, keys), centre) >= 0.0
  {
    if keys != {} {
      hide Expanded, MomentsOf, SquaredDeviations, Plus;
      var k := Pick(keys);
      PooledExpand(windows, keys - {k}, centre);
      DeviationsExpand(windows[k], centre);
      ExpandSum(MomentsOf(windows[k]), Pooled(windows, keys - {k}), centre);
    }
  }

  /** The one-pass formula equals the two-pass variance, so it is never negative. */
  lemma OnePassIsTwoPass(windows: map<SymbolId, seq<real>>)
    requires Pooled(windows, windows.Keys).n >= 2
    ensures var m := Pooled(windows, windows.Keys);
            var mean := m.sum / m.n as real;
            && m.sumSq / m.n as real - mean * mean == Volatility(windows).0
            && Volatility(windows).0 >= 0.0
  {
    hide Pooled, PooledDeviations, Expanded;
    var m := Pooled(windows, windows.Keys);
    PooledExpand(windows, windows.Keys, m.sum / m.n as real);
    MeanSquares(m);
    NonNegativeQuotient(Expanded(m, m.sum / m.n as real), m.n as real);
  }

  /** The variance is the least mean squared deviation from any centre, so the
      pool's mean is its true centre. */
  lemma VolatilityIsLeast(windows: map<SymbolId, seq<real>>, centre: real)
    requires Pooled(windows, windows.Keys).n >= 2
    ensures Volatility(windows).0 * Pooled(windows, windows.Keys).n as real
         <= PooledDeviations(windows, windows.Keys, centre)
  {
    hide Pooled, PooledDeviations, Expanded;
    var m := Pooled(windows, windows.Keys);
    var n := m.n as real;
    var mean := m.sum / n;
    PooledExpand(windows, windows.Keys, centre);
    PooledExpand(windows, windows.Keys, mean);
    LeastAtMean(m, centre);
    var total := PooledDeviations(windows, windows.Keys, mean);
    assert total / n * n == total;
  }

  lemma LeastAtMean(m: Moments, c: real)
    requires m.n > 0
    ensures Expanded(m, m.sum / m.n as real) <= Expanded(m, c)
  {
    var n := m.n as real;
    var mean := m.sum / n;
    assert mean * n == m.sum;
    SquareNonNegative(c - mean, n);
    Completed(m.sumSq, mean, c, n);
  }

  lemma SquareNonNegative(x: real, n: real)
    requires n >= 0.0
    ensures n * (x * x) >= 0.0
  {
    assert x * x >= 0.0;
  }

  lemma Completed(sumSq: real, mean: real, c: real, n: real)
    ensures sumSq - 2.0 * c * (mean * n) + c * c * n
         == sumSq - 2.0 * mean * (mean * n) + mean * mean * n + n * ((c - mean) * (c - mean))
  {
    assert (c - mean) * (c - mean) == c * c - 2.0 * c * mean + mean * mean;
    assert n * (c * c - 2.0 * c * mean + mean * mean) == n * (c * c) - n * (2.0 * c * mean) + n * (mean * mean);
    assert n * (c * c) == c * c * n && n * (mean * mean) == mean * mean * n;
    assert n * (2.0 * c * mean) == 2.0 * c * (mean * n);
    assert 2.0 * mean * (mean * n) == 2.0 * (mean * mean * n);
  }

  /** A window counts each of its returns once. */
  lemma {:induction false} MomentsCount(xs: seq<real>)
    ensures MomentsOf(xs).n == |xs|
  {
    if xs != [] {
      MomentsCount(xs[1..]);
    }
  }

  lemma MeanSquares(m: Moments)
    requires m.n > 0
    ensures var mean := m.sum / m.n as real;
            Expanded(m, mean) / m.n as real == m.sumSq / m.n as real - mean * mean
  {
    var n := m.n as real;
    var mean := m.sum / n;
    assert mean * n == m.sum;
    MeanTimesSum(mean, n, m.sum);
    assert Expanded(m, mean) == m.sumSq - mean * m.sum;
    QuotientOfDifference(m.sumSq, mean, m.sum, n);
  }

  lemma MeanTimesSum(mean: real, n: real, sum: real)
    requires mean * n == sum
    ensures mean * mean * n == mean * sum
  {
  }

  lemma QuotientOfDifference(sumSq: real, mean: real, sum: real, n: real)
    requires n > 0.0 && mean == sum / n
    ensures (sumSq - mean * sum) / n == sumSq / n - mean * mean
  {
    assert (sumSq / n - mean * mean) * n == sumSq - mean * sum by {
      assert mean * n == sum;
      MeanTimesSum(mean, n, sum);
    }
  }

  lemma NonNegativeQuotient(x: real, n: real)
    requires x >= 0.0 && n > 0.0
    ensures x / n >= 0.0
  {
  }

  lemma PlusAgain(a: Moments, b: Moments, c: Moments)
    ensures Plus(Plus(a, b), c) == Plus(a, Plus(b, c))
  {
  }

  lemma PlusNothing(a: Moments)
    ensures Plus(a, NOTHING) == a
  {
  }

  /** One window's share of the running sums. */
  method Accumulate(items: seq<real>, before: Moments) returns (after: Moments)
    ensures after == Plus(before, MomentsOf(items))
  {
    var sum, sumSq, n := before.sum, before.sumSq, before.n;
    for i := 0 to |items|
      invariant Plus(Moments(n, sum, sumSq), MomentsOf(items[i..])) == Plus(before, MomentsOf(items))
    {
      var x := items[i];
      assert items[i..][1..] == items[i + 1..];
      sum, sumSq, n := sum + x, sumSq + x * x, n + 1;
    }
    PlusNothing(Moments(n, sum, sumSq));
    after := Moments(n, sum, sumSq);
  }

  /** The one-pass variance of the sums, with their count. */
  method VarianceOf(m: Moments, ghost windows: map<SymbolId, seq<real>>) returns (volatility: (real, nat))
    requires m == Pooled(windows, windows.Keys)
    ensures volatility == Volatility(windows)
  {
    hide Pooled, PooledDeviations;
    var variance := 0.0;
    if m.n >= 2 {
      var mean := m.sum / m.n as real;
      variance := m.sumSq / m.n as real - mean * mean;
      OnePassIsTwoPass(windows);
      if variance < 0.0 {
        variance := 0.0;
      }
    }
    volatility := (variance, m.n);
    assert m.n == Volatility(windows).1;
    assert variance == Volatility(windows).0;
  }

  class SymbolState {
    var lastLtp: I64
    const prevClose: I64
    const window: RingWindow<real>
    var prevLtp: Option<I64>
    ghost const Repr: set<object>

    ghost predicate Valid()
      reads this, Repr
    {
      Repr == {this, window, window.buf} && window.Valid() && window.buf.Length == VOLATILITY_WINDOW
    }

    ghost function View(): SymbolView
      reads this, Repr
      requires Valid()
    {
      SymbolView(lastLtp, prevClose, window.Contents(), prevLtp)
    }

    ghost predicate Holds(v: SymbolView)
      reads this, Repr
    {
      this in Repr && Valid() && View() == v
    }

    constructor (prevClose: I64)
      ensures Valid() && fresh(Repr)
      ensures View() == SymbolView(0, prevClose, [], None)
    {
      this.lastLtp, this.prevClose, this.prevLtp := 0, prevClose, None;
      var empty := new RingWindow<real>(VOLATILITY_WINDOW, 0.0);
      this.window := empty;
      this.Repr := {this, empty, empty.buf};
    }

    method Tick(ltp: I64)
      requires Valid()
      modifies Repr
      ensures Valid()
      ensures View() == Ticked(old(View()), ltp)
    {
      if prevLtp.Some? && prevLtp.value != 0 {
        window.Push(PctReturn(ltp, prevLtp.value));
      }
      lastLtp := ltp;
      prevLtp := Some(ltp);
    }
  }

  class BreadthAggregator {
    const closes: map<SymbolId, I64>
    const batchTicks: U32
    var state: map<SymbolId, SymbolState>
    var ticksSincePublish: U32
    /** What each symbol's state holds. */
    ghost var view: map<SymbolId, SymbolView>
    ghost var Repr: set<object>

    ghost predicate Valid()
      reads this, Repr
    {
      && this in Repr
      && state.Keys == view.Keys
      && (forall s :: s in state ==>
            && state[s] in Repr && state[s].Repr <= Repr && this !in state[s].Repr
            && state[s].Holds(view[s]))
      && (forall s, s' :: s in state && s' in state && s != s' ==> state[s].Repr !! state[s'].Repr)
    }

    constructor (closes: map<SymbolId, I64>, batchTicks: U32)
      ensures Valid() && view == map[] && fresh(Repr)
      ensures this.closes == closes && this.batchTicks == batchTicks && ticksSincePublish == 0
    {
      this.closes, this.batchTicks := closes, batchTicks;
      state, ticksSincePublish, view, Repr := map[], 0, map[], {this};
    }

    /** Feed one tick; `elapsed` tells whether the batch interval has passed.
        Publishes the pooled variance and sample count on a batch boundary. */
    method OnTick(symbol: SymbolId, ltp: I64, elapsed: bool) returns (published: Option<(real, nat)>)
      requires Valid()
      modifies Repr
      ensures Valid() && fresh(Repr - old(Repr))
      ensures view == AfterTick(old(view), closes, symbol, ltp)
      ensures published.Some? <==> Min(old(ticksSincePublish) + 1, U32_MAX) >= batchTicks || elapsed
      ensures published.Some? ==> published.value == Volatility(WindowsOf(view))
      ensures ticksSincePublish == if published.Some? then 0 else Min(old(ticksSincePublish) + 1, U32_MAX)
    {
      hide SymbolState.Holds, AfterTick, Volatility, WindowsOf;
      UpdateSymbol(symbol, ltp);
      ticksSincePublish := Min(ticksSincePublish + 1, U32_MAX);
      published := None;
      if ticksSincePublish >= batchTicks || elapsed {
        var result := ComputeVolatility();
        published := Some(result);
        ticksSincePublish := 0;
      }
    }

    /** The part of a tick that updates its symbol, first seen or not. */
    method UpdateSymbol(symbol: SymbolId, ltp: I64)
      requires Valid()
      modifies Repr
      ensures Valid() && fresh(Repr - old(Repr))
      ensures view == AfterTick(old(view), closes, symbol, ltp)
      ensures ticksSincePublish == old(ticksSincePublish)
    {
      hide Valid, NewView, Ticked;
      SameKeys();
      if symbol !in state {
        AddSymbol(symbol);
      }
      TickKnown(symbol, ltp);
    }

    method TickKnown(symbol: SymbolId, ltp: I64)
      requires Valid() && symbol in state
      modifies Repr
      ensures Valid() && fresh(Repr - old(Repr))
      ensures view == old(view)[symbol := Ticked(old(view)[symbol], ltp)]
      ensures ticksSincePublish == old(ticksSincePublish)
    {
      hide SymbolState.View, SymbolState.Valid, Ticked;
      var s := state[symbol];
      assert s.Holds(view[symbol]);
      s.Tick(ltp);
      view := view[symbol := s.View()];
      assert s.Holds(view[symbol]);
    }

    method AddSymbol(symbol: SymbolId)
      requires Valid() && symbol !in state
      modifies this
      ensures Valid() && fresh(Repr - old(Repr))
      ensures state.Keys == old(state.Keys) + {symbol}
      ensures view == old(view)[symbol := NewView(closes, symbol)]
      ensures ticksSincePublish == old(ticksSincePublish)
    {
      hide SymbolState.View, SymbolState.Valid;
      var added := new SymbolState(if symbol in closes then closes[symbol] else 0);
      state := state[symbol := added];
      Repr := Repr + added.Repr + {added};
      view := view[symbol := added.View()];
      assert added.Holds(view[symbol]);
    }

    /** The one-pass variance over every symbol's window, and the number of
        returns pooled; the square root taken of it is not modelled. */
    method ComputeVolatility() returns (volatility: (real, nat))
      requires Valid()
      ensures volatility == Volatility(WindowsOf(view))
    {
      hide Valid, PooledDeviations, MomentsOf, SquaredDeviations;
      SameKeys();
      var m, todo := NOTHING, state.Keys;
      ghost var windows := WindowsOf(view);
      ghost var all := Pooled(windows, windows.Keys);
      assert windows.Keys == state.Keys;
      PlusNothing(all);
      assert Plus(m, all) == all;
      while todo != {}
        invariant todo <= state.Keys
        invariant Plus(m, Pooled(windows, todo)) == all
        decreases todo
      {
        var s :| s in todo;
        var items := ReadWindow(s);
        hide *;
        PoolAnyFirst(windows, todo, s);
        PlusAgain(m, MomentsOf(items), Pooled(windows, todo - {s}));
        m := Accumulate(items, m);
        todo := todo - {s};
      }
      assert Pooled(windows, {}) == NOTHING;
      PlusNothing(m);
      hide *;
      volatility := VarianceOf(m, windows);
    }

    lemma SameKeys()
      requires Valid()
      ensures this in Repr && state.Keys == view.Keys
    {
    }

    method ReadWindow(s: SymbolId) returns (items: seq<real>)
      requires Valid() && s in view
      ensures items == view[s].window
    {
      assert state[s].Holds(view[s]);
      items := state[s].window.Iter();
    }
  }

  /* ----- Any run of ticks ----- */

  function RunTicks(closes: map<SymbolId, I64>, ticks: seq<(SymbolId, I64)>): map<SymbolId, SymbolView> {
    if ticks == [] then map[]
    else
      var last := ticks[|ticks| - 1];
      AfterTick(RunTicks(closes, ticks[..|ticks| - 1]), closes, last.0, last.1)
  }

  function PricesOf(ticks: seq<(SymbolId, I64)>, symbol: SymbolId): seq<I64> {
    if ticks == [] then []
    else
      var last := ticks[|ticks| - 1];
      PricesOf(ticks[..|ticks| - 1], symbol) + if last.0 == symbol then [last.1] else []
  }

  /** The percentage returns between consecutive prices, skipping those from 0. */
  function Returns(prices: seq<I64>): seq<real> {
    if |prices| < 2 then []
    else
      var n := |prices|;
      Returns(prices[..n - 1])
      + if prices[n - 2] != 0 then [PctReturn(prices[n - 1], prices[n - 2])] else []
  }

  /** After any ticks, every symbol seen holds the last 60 returns of its own
      prices and nothing of the others'. */
  lemma {:induction false} WindowsHoldLastReturns(closes: map<SymbolId, I64>, ticks: seq<(SymbolId, I64)>, symbol: SymbolId)
    ensures var prices := PricesOf(ticks, symbol);
            var view := RunTicks(closes, ticks);
            && (symbol in view <==> prices != [])
            && (symbol in view ==> FollowsPrices(view[symbol], prices))
  {
    if ticks != [] {
      var before, last := ticks[..|ticks| - 1], ticks[|ticks| - 1];
      WindowsHoldLastReturns(closes, before, symbol);
      var view, prior := RunTicks(closes, before), PricesOf(before, symbol);
      assert RunTicks(closes, ticks) == AfterTick(view, closes, last.0, last.1);
      assert PricesOf(ticks, symbol) == prior + if last.0 == symbol then [last.1] else [];
      hide RunTicks, PricesOf;
      if last.0 == symbol && symbol in view {
        TickFollows(view[symbol], prior, last.1);
      } else if last.0 == symbol {
        FirstTickFollows(NewView(closes, symbol), last.1);
        assert prior + [last.1] == [last.1];
      } else {
        assert prior + [] == prior;
      }
    }
  }

  lemma FirstTickFollows(s: SymbolView, ltp: I64)
    requires s.window == [] && s.prevLtp.None?
    ensures FollowsPrices(Ticked(s, ltp), [ltp])
  {
  }

  ghost predicate FollowsPrices(s: SymbolView, prices: seq<I64>) {
    && prices != []
    && s.window == LastN(Returns(prices), VOLATILITY_WINDOW)
    && s.prevLtp == Some(s.lastLtp) && s.lastLtp == prices[|prices| - 1]
  }

  lemma TickFollows(s: SymbolView, prior: seq<I64>, ltp: I64)
    requires FollowsPrices(s, prior)
    ensures FollowsPrices(Ticked(s, ltp), prior + [ltp])
  {
    var prices := prior + [ltp];
    assert prices[..|prices| - 1] == prior;
    var prev := prior[|prior| - 1];
    if prev != 0 {
      var pct := PctReturn(ltp, prev);
      assert Returns(prices) == Returns(prior) + [pct];
      LastNPush(Returns(prior), pct, VOLATILITY_WINDOW);
    } else {
      assert Returns(prices) == Returns(prior);
    }
  }
}
