/** The router under concurrent callers: `record_outcome` as atomic steps. */
module RouterInterleaving {
  import opened MachineInts
  import opened Windows
  import opened AdapterStatistics
  import opened Router

  type ThreadId = nat

  /** Where a call of `record_outcome` stands, with what it has read so far. */
  datatype Pc =
    | Called(o: RoundTrip)
    | Loaded(o: RoundTrip, slot: Slot)
    | Recorded(o: RoundTrip, slot: Slot)
    | Counted(o: RoundTrip, slot: Slot)
    | Rated(o: RoundTrip, slot: Slot, errorRate: nat)
    | Breached(o: RoundTrip, slot: Slot, errorRate: nat, p99: U32)
    | Swapped(index: nat, slot: Slot)
    | Idle

  /** `swaps` lists the successful compare-and-swaps in time order as the
      events they stand for; `returned` the indices of those events whose
      calls have returned them. */
  datatype State = State(
    router: RouterState,
    threads: map<ThreadId, Pc>,
    swaps: seq<FailoverEvent>,
    returned: seq<nat>)

  ghost predicate Init(s: State) {
    && s.router == FRESH && s.swaps == [] && s.returned == []
    && forall t :: t in s.threads ==> s.threads[t].Idle?
  }

  /** One atomic step of thread `id`, which may start a call with `o`. */
  function Step(t: Thresholds, s: State, id: ThreadId, o: RoundTrip): State
    requires id in s.threads
  {
    match s.threads[id]
    case Idle => At(s, id, Called(o))
    case Called(o) => At(s, id, Loaded(o, s.router.active))
    case Loaded(o, slot) =>
      var w := LastN(s.router.WindowOf(slot) + [o.ToSample()], WINDOW_SIZE);
      At(s.(router := s.router.WithWindow(slot, w)), id, Recorded(o, slot))
    case Recorded(o, slot) =>
      At(s, id, if |s.router.WindowOf(slot)| < t.minSamples then Idle else Counted(o, slot))
    case Counted(o, slot) => At(s, id, Rated(o, slot, ErrorRateBps(s.router.WindowOf(slot))))
    case Rated(o, slot, er) =>
      var p99 := P99(s.router.WindowOf(slot));
      At(s, id, if er >= t.errorRateBps || p99 >= t.p99LatencyMs then Breached(o, slot, er, p99) else Idle)
    case Breached(o, slot, er, p99) =>
      if s.router.active != slot then At(s, id, Idle)
      else
        var event := FailoverEvent(slot, slot.Other(), er, p99, o.ts);
        At(s.(router := s.router.(active := slot.Other()), swaps := s.swaps + [event]), id,
           Swapped(|s.swaps|, slot))
    case Swapped(index, slot) =>
      At(s.(router := s.router.WithWindow(slot.Other(), []), returned := s.returned + [index]), id, Idle)
  }

  function At(s: State, id: ThreadId, pc: Pc): State {
    s.(threads := s.threads[id := pc])
  }

  ghost predicate Next(t: Thresholds, s: State, s': State) {
    exists id, o :: id in s.threads && s' == Step(t, s, id, o)
  }

  /** A finite execution under any scheduler and any calls. */
  ghost predicate Execution(t: Thresholds, states: seq<State>) {
    && states != [] && Init(states[0])
    && forall i :: 0 < i < |states| ==> Next(t, states[i - 1], states[i])
  }

  function SlotAt(n: nat): Slot {
    if n % 2 == 0 then Primary else Backup
  }

  /** The swaps alternate, starting away from the primary, the active slot is
      their parity, and each reports a breach. */
  ghost predicate Alternating(t: Thresholds, s: State) {
    && s.router.active == SlotAt(|s.swaps|)
    && forall i :: 0 <= i < |s.swaps| ==>
         && s.swaps[i].from == SlotAt(i) && s.swaps[i].to == SlotAt(i + 1)
         && (s.swaps[i].errorRateBps >= t.errorRateBps || s.swaps[i].p99LatencyMs >= t.p99LatencyMs)
  }

  ghost predicate BreachesKnown(t: Thresholds, s: State) {
    forall id :: id in s.threads && s.threads[id].Breached? ==>
      s.threads[id].errorRate >= t.errorRateBps || s.threads[id].p99 >= t.p99LatencyMs
  }

  /** The thread has made the swap with this index and not yet returned its event. */
  ghost predicate Holds(s: State, id: ThreadId, index: nat) {
    id in s.threads && s.threads[id].Swapped? && s.threads[id].index == index
  }

  /** Every swap's event is either returned once or still held by one thread. */
  ghost predicate EventsAccounted(s: State) {
    && (forall j :: 0 <= j < |s.returned| ==> s.returned[j] < |s.swaps|)
    && (forall j, k :: 0 <= j < k < |s.returned| ==> s.returned[j] != s.returned[k])
    && (forall id, index: nat :: Holds(s, id, index) ==> index < |s.swaps| && index !in s.returned)
    && (forall id, id', index: nat :: Holds(s, id, index) && Holds(s, id', index) ==> id == id')
    && (forall i :: 0 <= i < |s.swaps| ==> i in s.returned || exists id :: Holds(s, id, i))
  }

  ghost predicate Inv(t: Thresholds, s: State) {
    Alternating(t, s) && BreachesKnown(t, s) && EventsAccounted(s)
  }

  lemma StepAlternates(t: Thresholds, s: State, id: ThreadId, o: RoundTrip)
    requires id in s.threads && Alternating(t, s) && BreachesKnown(t, s)
    ensures Alternating(t, Step(t, s, id, o)) && BreachesKnown(t, Step(t, s, id, o))
  {
    hide LastN, ErrorRateBps, P99;
  }

  lemma StepAccounts(t: Thresholds, s: State, id: ThreadId, o: RoundTrip)
    requires id in s.threads && EventsAccounted(s)
    ensures EventsAccounted(Step(t, s, id, o))
  {
    var s' := Step(t, s, id, o);
    StepHolds(t, s, id, o);
    hide Step, Holds;
    forall i | 0 <= i < |s'.swaps| ensures i in s'.returned || exists id' :: Holds(s', id', i) {
      if i == |s.swaps| {
        assert Holds(s', id, i);
      } else if i in s.returned {
        assert i in s'.returned;
      } else {
        var holder :| Holds(s, holder, i);
        assert Holds(s', holder, i) || i in s'.returned;
      }
    }
  }

  /** How one step moves events: a swap adds one and its thread holds it; a
      return gives back the one its thread held. */
  lemma StepHolds(t: Thresholds, s: State, id: ThreadId, o: RoundTrip)
    requires id in s.threads
    ensures var s' := Step(t, s, id, o);
            && |s.swaps| <= |s'.swaps| <= |s.swaps| + 1
            && (s'.returned == s.returned
                || exists index :: Holds(s, id, index) && s'.returned == s.returned + [index])
            && (forall id', i :: id' != id ==> (Holds(s', id', i) <==> Holds(s, id', i)))
            && (forall i :: Holds(s', id, i) ==> i == |s.swaps| < |s'.swaps| && s'.returned == s.returned)
            && (forall i :: Holds(s, id, i) ==> i in s'.returned)
            && (|s'.swaps| > |s.swaps| ==> Holds(s', id, |s.swaps|))
  {
    hide LastN, ErrorRateBps, P99;
    if s.threads[id].Swapped? {
      assert Holds(s, id, s.threads[id].index);
    }
  }

  lemma {:induction false} ExecutionInv(t: Thresholds, states: seq<State>)
    requires Execution(t, states)
    ensures Inv(t, states[|states| - 1])
  {
    if |states| > 1 {
      var before := states[..|states| - 1];
      ExecutionInv(t, before);
      var s, s' := states[|states| - 2], states[|states| - 1];
      assert Next(t, s, s');
      var id, o :| id in s.threads && s' == Step(t, s, id, o);
      hide Step, Alternating, BreachesKnown, EventsAccounted;
      StepAlternates(t, s, id, o);
      StepAccounts(t, s, id, o);
    }
  }

  /** Under any interleaving, slot changes strictly alternate starting with
      primary to backup, the active slot is the parity of their number, each
      reports a threshold that was reached, and once no call is between its
      swap and its return, every swap's event has been returned exactly once. */
  lemma FailoversAlternate(t: Thresholds, states: seq<State>)
    requires Execution(t, states)
    ensures var s := states[|states| - 1];
            && Alternating(t, s)
            && |s.returned| <= |s.swaps|
            && ((forall id :: id in s.threads ==> !s.threads[id].Swapped?) ==>
                  |s.returned| == |s.swaps| && forall i :: 0 <= i < |s.swaps| ==> i in s.returned)
  {
    ExecutionInv(t, states);
    var s := states[|states| - 1];
    DistinctBelow(s.returned, |s.swaps|);
    if forall id :: id in s.threads ==> !s.threads[id].Swapped? {
      assert forall id, i :: !Holds(s, id, i);
      CoversBelow(s.returned, |s.swaps|);
    }
  }

  /** Distinct numbers below n are at most n many. */
  lemma {:induction false} DistinctBelow(xs: seq<nat>, n: nat)
    requires forall j :: 0 <= j < |xs| ==> xs[j] < n
    requires forall j, k :: 0 <= j < k < |xs| ==> xs[j] != xs[k]
    ensures |xs| <= n
  {
    if xs == [] {
      return;
    }
    assert xs[0] < n;
    if n - 1 in xs {
      var j :| 0 <= j < |xs| && xs[j] == n - 1;
      var others := xs[..j] + xs[j + 1..];
      assert forall k :: 0 <= k < |others| ==> others[k] == xs[if k < j then k else k + 1];
      DistinctBelow(others, n - 1);
    } else {
      assert forall k :: 0 <= k < |xs| ==> xs[k] < n && xs[k] != n - 1;
      DistinctBelow(xs, n - 1);
    }
  }

  /** Distinct numbers that include all below n are at least n many. */
  lemma {:induction false} CoversBelow(xs: seq<nat>, n: nat)
    requires forall i :: 0 <= i < n ==> i in xs
    ensures |xs| >= n
  {
    if n > 0 {
      assert n - 1 in xs;
      var j :| 0 <= j < |xs| && xs[j] == n - 1;
      var others := xs[..j] + xs[j + 1..];
      forall i | 0 <= i < n - 1 ensures i in others {
        assert i in xs;
        var k :| 0 <= k < |xs| && xs[k] == i;
        assert others[if k < j then k else k - 1] == i;
      }
      CoversBelow(others, n - 1);
    }
  }

  /* ----- One call alone ----- */

  /** Steps left to a call, at most. */
  function StepsLeft(pc: Pc): nat {
    match pc
    case Idle => 0
    case Swapped(_, _) => 1
    case Breached(_, _, _, _) => 2
    case Rated(_, _, _) => 3
    case Counted(_, _) => 4
    case Recorded(_, _) => 5
    case Loaded(_, _) => 6
    case Called(_) => 7
  }

  /** A call that nobody interrupts, run to its end. */
  function Alone(t: Thresholds, s: State, id: ThreadId, o: RoundTrip): State
    requires id in s.threads
    decreases StepsLeft(s.threads[id])
  {
    if s.threads[id].Idle? then s else Alone(t, Step(t, s, id, o), id, o)
  }

  /** The atomic steps of an uninterrupted call are the serial call: the router
      ends as `AfterOutcome` says, and its event is the one swap and is returned. */
  lemma AloneIsSerial(t: Thresholds, s: State, id: ThreadId, o: RoundTrip)
    requires id in s.threads && s.threads[id] == Called(o)
    ensures var (s', (router, event)) := (Alone(t, s, id, o), AfterOutcome(t, s.router, o));
            && s'.router == router
            && s'.threads == s.threads[id := Idle]
            && (event.None? ==> s'.swaps == s.swaps && s'.returned == s.returned)
            && (event.Some? ==> s'.swaps == s.swaps + [event.value] && s'.returned == s.returned + [|s.swaps|])
  {
    hide LastN, ErrorRateBps, P99;
    var s2 := Step(t, Step(t, s, id, o), id, o);
    var slot := s.router.active;
    var w := LastN(s.router.WindowOf(slot) + [o.ToSample()], WINDOW_SIZE);
    assert s2 == State(s.router.WithWindow(slot, w), s.threads[id := Recorded(o, slot)], s.swaps, s.returned);
    AloneDecides(t, s2, id, o, slot, s.threads);
  }

  lemma AloneDecides(
      t: Thresholds, s: State, id: ThreadId, o: RoundTrip, slot: Slot, threads: map<ThreadId, Pc>)
    requires id in threads && s.threads == threads[id := Recorded(o, slot)] && s.router.active == slot
    ensures var (s', w) := (Alone(t, s, id, o), s.router.WindowOf(slot));
            s' == if !Breaches(t, w) then s.(threads := threads[id := Idle])
                  else s.(threads := threads[id := Idle],
                          router := s.router.WithWindow(slot.Other(), []).(active := slot.Other()),
                          swaps := s.swaps
                            + [FailoverEvent(slot, slot.Other(), ErrorRateBps(w), P99(w), o.ts)],
                          returned := s.returned + [|s.swaps|])
  {
    hide LastN, ErrorRateBps, P99;
    var w := s.router.WindowOf(slot);
    var s1 := Step(t, s, id, o);
    if |w| >= t.minSamples {
      var s2 := Step(t, s1, id, o);
      var s3 := Step(t, s2, id, o);
      OneMore(t, s, id, o);
      OneMore(t, s1, id, o);
      OneMore(t, s2, id, o);
      if Breaches(t, w) {
        var s4 := Step(t, s3, id, o);
        OneMore(t, s3, id, o);
        OneMore(t, s4, id, o);
        assert Step(t, s4, id, o).threads == threads[id := Idle];
      } else {
        assert s3.threads == threads[id := Idle];
      }
    } else {
      OneMore(t, s, id, o);
      assert s1.threads == threads[id := Idle];
    }
  }

  lemma OneMore(t: Thresholds, s: State, id: ThreadId, o: RoundTrip)
    requires id in s.threads && !s.threads[id].Idle?
    ensures Alone(t, s, id, o) == Alone(t, Step(t, s, id, o), id, o)
  {
  }
}
