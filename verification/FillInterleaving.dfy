/** One order under concurrent callers. `on_fill` reads the tracker under one
    lock and updates it under another; the other calls take one lock. */
module FillInterleaving {
  import opened MachineInts
  import opened BrokerApi
  import opened OrderTracker
  import opened FillReports

  type ThreadId = nat

  /** A call of `on_fill` between its locks, with what it read and when. */
  datatype Pc = Idle | HasRead(readAt: nat, priorQty: U64, priorAvg: I64, report: Report)

  /** A report the tracker took, with the moments of its two locks. */
  datatype Accepted = Accepted(readAt: nat, priorQty: U64, acceptedAt: nat, heldQty: U64)

  /** `clock` counts steps, and `fills` lists what was emitted. */
  datatype State = State(
    t: Tracker, threads: map<ThreadId, Pc>, clock: nat, fills: seq<FillEvent>, accepted: seq<Accepted>)

  /** What an idle thread does: take a report's reading, or a one-lock call. */
  datatype Choice = Deliver(report: Report) | Other(call: Call)

  ghost predicate Init(s: State) {
    && TrackerOk(s.t) && s.t.filledQty == 0
    && s.clock == 0 && s.fills == [] && s.accepted == []
    && forall id :: id in s.threads ==> s.threads[id].Idle?
  }

  /** The engine submits, cancels and rejects; it never uses the raw transition. */
  predicate OneLock(call: Call) {
    call.CallSubmit? || call.CallCancel? || call.CallReject?
  }

  /** One atomic step of thread `id`. */
  function Step(s: State, id: ThreadId, choice: Choice): State
    requires id in s.threads
  {
    var now := s.(clock := s.clock + 1);
    match s.threads[id]
    case Idle =>
      (match choice
       case Deliver(report) =>
         now.(threads := s.threads[id := HasRead(s.clock, s.t.filledQty, s.t.avgFillPaise, report)])
       case Other(call) => if OneLock(call) then now.(t := Apply(s.t, call).0) else now)
    case HasRead(readAt, priorQty, priorAvg, report) =>
      var (t', result) := Accept(s.t, priorQty, priorAvg, report);
      now.(t := t', threads := s.threads[id := Idle], fills := s.fills + FillsOf(result),
           accepted := if result.Err? then s.accepted
                       else s.accepted + [Accepted(readAt, priorQty, s.clock, s.t.filledQty)])
  }

  ghost predicate Next(s: State, s': State) {
    exists id, choice :: id in s.threads && s' == Step(s, id, choice)
  }

  ghost predicate Execution(states: seq<State>) {
    && states != [] && Init(states[0])
    && forall i :: 0 < i < |states| ==> Next(states[i - 1], states[i])
  }

  /** The quantity emitted twice: what each accepted report's reading missed. */
  function Stale(accepted: seq<Accepted>): nat {
    if accepted == [] then 0
    else
      var last := accepted[|accepted| - 1];
      Stale(accepted[..|accepted| - 1]) + Max(last.heldQty - last.priorQty, 0)
  }

  ghost predicate Inv(s: State) {
    && TrackerOk(s.t)
    && (forall id :: id in s.threads && s.threads[id].HasRead? ==> s.threads[id].priorQty <= s.t.filledQty)
    && FilledTotal(s.fills) == s.t.filledQty + Stale(s.accepted)
  }

  lemma StepKeepsInv(s: State, id: ThreadId, choice: Choice)
    requires id in s.threads && Inv(s)
    ensures Inv(Step(s, id, choice))
    ensures s.t.filledQty <= Step(s, id, choice).t.filledQty
    ensures Step(s, id, choice).t.requestedQty == s.t.requestedQty
  {
    match s.threads[id]
    case Idle =>
      if choice.Other? && OneLock(choice.call) {
        CallKeepsTrackerOk(s.t, choice.call);
      }
    case HasRead(readAt, priorQty, priorAvg, report) =>
      CallKeepsTrackerOk(s.t, CallPartialFill(report.cumQty, report.cumAvg, report.ts));
      AcceptEmits(s, id, choice);
  }

  /** An accepted report emits its growth over the reading: its growth over
      the tracker, and once more what was missed. */
  lemma AcceptEmits(s: State, id: ThreadId, choice: Choice)
    requires id in s.threads && s.threads[id].HasRead? && Inv(s)
    ensures var s' := Step(s, id, choice);
            FilledTotal(s'.fills) - FilledTotal(s.fills)
            == s'.t.filledQty - s.t.filledQty + Stale(s'.accepted) - Stale(s.accepted)
  {
    var pc, s' := s.threads[id], Step(s, id, choice);
    var result := Accept(s.t, pc.priorQty, pc.priorAvg, pc.report).1;
    hide FilledTotal, WrapI64, WrapI128, TruncDiv;
    if result.Ok? {
      assert s'.accepted[..|s.accepted|] == s.accepted;
    }
    if FillsOf(result) != [] {
      TotalsSnoc(s.fills, result.value.1.value);
    } else {
      assert s.fills + [] == s.fills;
    }
  }

  /** The moments a thread or an accepted report remembers are real ones. */
  ghost predicate Remembers(states: seq<State>, s: State) {
    && s.clock == |states| - 1
    && (forall id :: id in s.threads && s.threads[id].HasRead? ==>
          && s.threads[id].readAt < s.clock
          && states[s.threads[id].readAt].t.filledQty == s.threads[id].priorQty)
    && (forall a :: a in s.accepted ==>
          && a.readAt < a.acceptedAt < s.clock
          && states[a.readAt].t.filledQty == a.priorQty && states[a.acceptedAt].t.filledQty == a.heldQty)
  }

  ghost predicate Growing(states: seq<State>) {
    forall i :: 0 < i < |states| ==> states[i - 1].t.filledQty <= states[i].t.filledQty
  }

  lemma GrowingOn(before: seq<State>, s': State)
    requires before != [] && Growing(before) && before[|before| - 1].t.filledQty <= s'.t.filledQty
    ensures Growing(before + [s'])
  {
  }

  lemma Prefix(states: seq<State>)
    requires Execution(states) && |states| > 1
    ensures Execution(states[..|states| - 1])
    ensures Next(states[|states| - 2], states[|states| - 1])
  {
    hide Next, Init;
  }

  lemma {:induction false} ExecutionInv(states: seq<State>)
    requires Execution(states)
    ensures Inv(states[|states| - 1]) && Remembers(states, states[|states| - 1]) && Growing(states)
    ensures states[|states| - 1].t.requestedQty == states[0].t.requestedQty
  {
    if |states| == 1 {
      assert Init(states[0]);
    } else {
      Prefix(states);
      hide Execution, Inv, Remembers, Growing, Step;
      var before, s, s' := states[..|states| - 1], states[|states| - 2], states[|states| - 1];
      ExecutionInv(before);
      var id, choice :| id in s.threads && s' == Step(s, id, choice);
      assert states == before + [s'];
      StepKeepsInv(s, id, choice);
      GrowingOn(before, s');
      StepRemembers(before, states, id, choice);
    }
  }

  lemma StepRemembers(before: seq<State>, states: seq<State>, id: ThreadId, choice: Choice)
    requires |before| > 0 && |states| == |before| + 1 && states[..|before|] == before
    requires var s := before[|before| - 1];
             && Remembers(before, s)
             && id in s.threads && states[|before|] == Step(s, id, choice)
    ensures Remembers(states, states[|before|])
  {
    var s, s' := before[|before| - 1], states[|before|];
    assert forall i :: 0 <= i < |before| ==> states[i] == before[i];
    hide Accept, Apply, FillsOf;
    forall a | a in s'.accepted
      ensures a.readAt < a.acceptedAt < s'.clock
      ensures states[a.readAt].t.filledQty == a.priorQty && states[a.acceptedAt].t.filledQty == a.heldQty
    {
      assert a in s.accepted || a.acceptedAt == s.clock;
    }
  }

  lemma {:induction false} FilledGrows(states: seq<State>, i: nat, j: nat)
    requires Growing(states) && i <= j < |states|
    ensures states[i].t.filledQty <= states[j].t.filledQty
    decreases j
  {
    if i < j {
      FilledGrows(states, i, j - 1);
    }
  }

  /** The order grew between the two locks of an accepted report. */
  ghost predicate Overtaken(states: seq<State>, a: Accepted) {
    exists k :: a.readAt < k <= a.acceptedAt < |states| && states[k - 1].t.filledQty < states[k].t.filledQty
  }

  lemma {:induction false} GrowthSomewhere(states: seq<State>, i: nat, j: nat) returns (k: nat)
    requires i <= j < |states| && states[i].t.filledQty < states[j].t.filledQty
    ensures i < k <= j && states[k - 1].t.filledQty < states[k].t.filledQty
    decreases j
  {
    if states[i].t.filledQty < states[j - 1].t.filledQty {
      k := GrowthSomewhere(states, i, j - 1);
    } else {
      k := j;
    }
  }

  lemma OvertakenIff(states: seq<State>, a: Accepted)
    requires Growing(states) && a.readAt < a.acceptedAt < |states|
    requires states[a.readAt].t.filledQty == a.priorQty && states[a.acceptedAt].t.filledQty == a.heldQty
    ensures Overtaken(states, a) <==> a.heldQty > a.priorQty
    ensures a.heldQty >= a.priorQty
  {
    hide *;
    FilledGrows(states, a.readAt, a.acceptedAt);
    if a.heldQty > a.priorQty {
      GrownIsOvertaken(states, a);
    } else {
      SteadyIsNotOvertaken(states, a);
    }
  }

  lemma GrownIsOvertaken(states: seq<State>, a: Accepted)
    requires a.readAt < a.acceptedAt < |states|
    requires states[a.readAt].t.filledQty < states[a.acceptedAt].t.filledQty
    ensures Overtaken(states, a)
  {
    var k := GrowthSomewhere(states, a.readAt, a.acceptedAt);
  }

  lemma SteadyIsNotOvertaken(states: seq<State>, a: Accepted)
    requires Growing(states) && a.readAt < a.acceptedAt < |states|
    requires states[a.readAt].t.filledQty >= states[a.acceptedAt].t.filledQty
    ensures !Overtaken(states, a)
  {
    hide Growing;
    forall k | a.readAt < k <= a.acceptedAt ensures states[k - 1].t.filledQty >= states[k].t.filledQty {
      FilledGrows(states, a.readAt, k - 1);
      FilledGrows(states, k, a.acceptedAt);
    }
  }

  lemma {:induction false} StaleIff(accepted: seq<Accepted>)
    ensures Stale(accepted) > 0 <==> exists a :: a in accepted && a.heldQty > a.priorQty
  {
    if accepted != [] {
      var before, last := accepted[..|accepted| - 1], accepted[|accepted| - 1];
      StaleIff(before);
      assert accepted == before + [last];
    }
  }

  /** Under any interleaving of fills, submissions, cancellations and
      rejections, the tracker itself never over-fills, and the emitted
      quantities are what it filled plus what overtaken readings missed. They
      are never too small, and exactly right if and only if no accepted report
      was overtaken between its two locks. */
  lemma FillsExactIff(states: seq<State>)
    requires Execution(states)
    ensures var s := states[|states| - 1];
            && s.t.filledQty <= s.t.requestedQty == states[0].t.requestedQty
            && FilledTotal(s.fills) == s.t.filledQty + Stale(s.accepted)
            && (FilledTotal(s.fills) == s.t.filledQty
                <==> forall a :: a in s.accepted ==> !Overtaken(states, a))
  {
    ExecutionInv(states);
    var s := states[|states| - 1];
    StaleIff(s.accepted);
    forall a | a in s.accepted ensures Overtaken(states, a) <==> a.heldQty > a.priorQty {
      OvertakenIff(states, a);
    }
  }

  lemma Extend(states: seq<State>, id: ThreadId, choice: Choice) returns (longer: seq<State>)
    requires Execution(states) && id in states[|states| - 1].threads
    ensures Execution(longer) && |longer| == |states| + 1 && longer[0] == states[0]
    ensures longer[|longer| - 1] == Step(states[|states| - 1], id, choice)
  {
    hide Step, Init;
    longer := states + [Step(states[|states| - 1], id, choice)];
    assert Next(states[|states| - 1], longer[|states|]);
    assert forall i :: 0 < i < |states| ==> longer[i] == states[i];
  }

  /** A race that over-reports: two deliveries of 6 of an order of 10 both read
      0, both are accepted, and 12 are emitted. */
  lemma RaceOverReports(t: Tracker, report: Report) returns (states: seq<State>)
    requires t == NewTracker(1, 0, 10).(state := Submitted) && report.cumQty == 6
    ensures Execution(states) && states[0].t == t
    ensures var s := states[|states| - 1];
            FilledTotal(s.fills) == 12 && s.t.filledQty == 6 && s.t.requestedQty == 10
  {
    states := [State(t, map[0 := Idle, 1 := Idle], 0, [], [])];
    hide Execution, FilledTotal, FillOf;
    states := Extend(states, 0, Deliver(report));
    states := Extend(states, 1, Deliver(report));
    RacersAccept(states[|states| - 1], report);
    states := Extend(states, 0, Deliver(report));
    states := Extend(states, 1, Deliver(report));
  }

  lemma RacersAccept(s: State, report: Report)
    requires s.t == NewTracker(1, 0, 10).(state := Submitted) && s.fills == [] && report.cumQty == 6
    requires s.threads == map[0 := HasRead(0, 0, 0, report), 1 := HasRead(1, 0, 0, report)]
    ensures var s' := Step(Step(s, 0, Deliver(report)), 1, Deliver(report));
            FilledTotal(s'.fills) == 12 && s'.t.filledQty == 6 && s'.t.requestedQty == 10
  {
    hide FilledTotal, WrapI64, WrapI128, TruncDiv;
    var s3 := Step(s, 0, Deliver(report));
    var fill := FillOf(0, 0, report).value;
    assert fill.qty == 6 && s3.fills == [] + [fill] && s3.t.filledQty == 6;
    assert Step(s3, 1, Deliver(report)).fills == s3.fills + [fill];
    TotalsSnoc([], fill);
    TotalsSnoc([fill], fill);
    NoFills();
  }

  lemma NoFills()
    ensures FilledTotal([]) == 0
  {
  }

  /** The two locks taken in a row are the serial report. */
  lemma AloneIsSerial(s: State, id: ThreadId, report: Report, choice: Choice)
    requires id in s.threads && s.threads[id].Idle?
    ensures var s' := Step(Step(s, id, Deliver(report)), id, choice);
            var (t', result) := AfterReport(s.t, report);
            s'.t == t' && s'.fills == s.fills + FillsOf(result) && s'.threads == s.threads
  {
    hide Accept, FillsOf;
  }
}
