/** The symbol interner: a shared table and an atomic counter, and threads that
    look up, allocate a candidate id and insert it if nobody has. */
module Interner {
  import opened MachineInts

  type ThreadId = nat

  /** Where a call of `intern` stands. */
  datatype Pc = Idle | Called(sym: string) | Missed(sym: string) | Allocated(sym: string, candidate: U32)

  /** `allocations` counts the `fetch_add`s so far, `burnt` those whose id was
      dropped, and `results` lists what finished calls returned. */
  datatype State = State(
    ids: map<string, U32>,
    next: U32,
    threads: map<ThreadId, Pc>,
    allocations: nat,
    burnt: nat,
    results: seq<(string, U32)>)

  const WRAP: nat := U32_MAX + 1

  /** `fetch_add(1)` on a `u32`. */
  function WrapInc(x: U32): U32 {
    if x == U32_MAX then 0 else x + 1
  }

  lemma WrapIncCounts(n: nat)
    ensures WrapInc(n % 0x1_0000_0000) == (n + 1) % 0x1_0000_0000
  {
  }

  ghost predicate Init(s: State) {
    && s.ids == map[] && s.next == 1 && s.allocations == 0 && s.burnt == 0 && s.results == []
    && forall t :: t in s.threads ==> s.threads[t].Idle?
  }

  /** One atomic step of thread `t`, which may start interning `sym`. */
  function Step(s: State, t: ThreadId, sym: string): State
    requires t in s.threads
  {
    match s.threads[t]
    case Idle => s.(threads := s.threads[t := Called(sym)])
    case Called(sym) =>
      if sym in s.ids then Returning(s, t, sym, s.ids[sym])
      else s.(threads := s.threads[t := Missed(sym)])
    case Missed(sym) =>
      s.(next := WrapInc(s.next), allocations := s.allocations + 1,
         threads := s.threads[t := Allocated(sym, s.next)])
    case Allocated(sym, candidate) =>
      if sym in s.ids then Returning(s.(burnt := s.burnt + 1), t, sym, s.ids[sym])
      else Returning(s.(ids := s.ids[sym := candidate]), t, sym, candidate)
  }

  function Returning(s: State, t: ThreadId, sym: string, id: U32): State {
    s.(threads := s.threads[t := Idle], results := s.results + [(sym, id)])
  }

  ghost predicate Next(s: State, s': State) {
    exists t, sym :: t in s.threads && s' == Step(s, t, sym)
  }

  ghost predicate Execution(states: seq<State>) {
    && states != [] && Init(states[0])
    && forall i :: 0 < i < |states| ==> Next(states[i - 1], states[i])
  }

  /* ----- The specification: interning in one atomic step ----- */

  /** Interning a symbol returns its id, giving a new symbol an id that is
      not 0 and that no other symbol has. */
  ghost predicate AtomicIntern(ids: map<string, U32>, sym: string, ids': map<string, U32>, id: U32) {
    if sym in ids then ids' == ids && id == ids[sym]
    else id != 0 && (forall a :: a in ids ==> ids[a] != id) && ids' == ids[sym := id]
  }

  /* ----- The invariant ----- */

  ghost predicate Pending(s: State, t: ThreadId, candidate: U32) {
    t in s.threads && s.threads[t].Allocated? && s.threads[t].candidate == candidate
  }

  /** Table entries are distinct, positive and at most the number of allocations. */
  ghost predicate TableOk(s: State) {
    && (forall sym :: sym in s.ids ==> 0 < s.ids[sym] <= s.allocations)
    && (forall a, b :: a in s.ids && b in s.ids && a != b ==> s.ids[a] != s.ids[b])
  }

  /** Pending candidates are distinct and in nobody's entry. */
  ghost predicate CandidatesOk(s: State) {
    && (forall t, c: U32 :: Pending(s, t, c) ==> 0 < c <= s.allocations)
    && (forall t, c: U32, sym :: Pending(s, t, c) && sym in s.ids ==> s.ids[sym] != c)
    && (forall t, t', c: U32 :: Pending(s, t, c) && Pending(s, t', c) ==> t == t')
  }

  /** Every returned id is its symbol's table entry. */
  ghost predicate ResultsOk(s: State) {
    forall i :: 0 <= i < |s.results| ==>
      s.results[i].0 in s.ids && s.ids[s.results[i].0] == s.results[i].1
  }

  ghost predicate Inv(s: State) {
    s.next == (s.allocations + 1) % WRAP && TableOk(s) && CandidatesOk(s) && ResultsOk(s)
  }

  lemma NoCollision(s: State, s': State, t: ThreadId)
    requires TableOk(s) && CandidatesOk(s)
    requires s.next == s.allocations + 1 <= U32_MAX
    requires s'.ids == s.ids && s'.allocations == s.allocations + 1
    requires t in s.threads && s.threads[t].Missed?
    requires s'.threads == s.threads[t := Allocated(s.threads[t].sym, s.next)]
    ensures TableOk(s') && CandidatesOk(s')
  {
    assert forall t', c: U32 :: Pending(s', t', c) <==> if t' == t then c == s.next else Pending(s, t', c);
  }

  lemma InsertsOwn(s: State, s': State, t: ThreadId)
    requires TableOk(s) && CandidatesOk(s)
    requires t in s.threads && s.threads[t].Allocated?
    requires s'.threads == s.threads[t := Idle] && s'.allocations == s.allocations
    requires var pc := s.threads[t];
             s'.ids == if pc.sym in s.ids then s.ids else s.ids[pc.sym := pc.candidate]
    ensures TableOk(s') && CandidatesOk(s')
  {
    assert Pending(s, t, s.threads[t].candidate);
    assert forall t', c: U32 :: Pending(s', t', c) <==> t' != t && Pending(s, t', c);
  }

  lemma OthersKeep(s: State, s': State, t: ThreadId)
    requires TableOk(s) && CandidatesOk(s)
    requires s'.ids == s.ids && s'.allocations == s.allocations
    requires t in s.threads && t in s'.threads && !s'.threads[t].Allocated?
    requires s'.threads == s.threads[t := s'.threads[t]]
    ensures TableOk(s') && CandidatesOk(s')
  {
    assert forall t', c: U32 :: Pending(s', t', c) ==> Pending(s, t', c);
  }

  /** Every step that stays within 2^32 - 1 allocations keeps the invariant,
      and either leaves the table alone and returns nothing, or interns one
      symbol atomically and returns what the specification returns. */
  lemma StepRefines(s: State, t: ThreadId, sym: string)
    requires t in s.threads && Inv(s) && Step(s, t, sym).allocations <= U32_MAX
    ensures var s' := Step(s, t, sym);
            && Inv(s')
            && if s'.results == s.results then s'.ids == s.ids
               else
                 && |s'.results| == |s.results| + 1 && s'.results[..|s.results|] == s.results
                 && AtomicIntern(s.ids, s'.results[|s.results|].0, s'.ids, s'.results[|s.results|].1)
  {
    var s' := Step(s, t, sym);
    match s.threads[t] {
      case Idle => OthersKeep(s, s', t);
      case Called(_) => OthersKeep(s, s', t);
      case Missed(_) =>
        WrapIncCounts(s.allocations + 1);
        NoCollision(s, s', t);
      case Allocated(_, c) =>
        assert Pending(s, t, c);
        InsertsOwn(s, s', t);
    }
    if s'.results != s.results {
      assert s'.results[..|s.results|] == s.results;
    }
  }

  lemma StepGrows(s: State, t: ThreadId, sym: string)
    requires t in s.threads
    ensures s.allocations <= Step(s, t, sym).allocations <= s.allocations + 1
    ensures forall a :: a in s.ids ==> a in Step(s, t, sym).ids && Step(s, t, sym).ids[a] == s.ids[a]
  {
  }

  /** At every moment of every interleaving, up to 2^32 - 1 allocations: all
      calls for a symbol have returned one id, which is positive, no other
      symbol's, at most the number of allocations, and stays for ever. */
  lemma {:induction false} InternAgrees(states: seq<State>)
    requires Execution(states)
    requires states[|states| - 1].allocations <= U32_MAX
    ensures Inv(states[|states| - 1])
    ensures forall i, sym :: 0 <= i < |states| && sym in states[i].ids ==>
              sym in states[|states| - 1].ids && states[|states| - 1].ids[sym] == states[i].ids[sym]
  {
    if |states| > 1 {
      Prefix(states);
      hide Execution, Step, Inv;
      var before, s, s' := states[..|states| - 1], states[|states| - 2], states[|states| - 1];
      var t, sym :| t in s.threads && s' == Step(s, t, sym);
      StepGrows(s, t, sym);
      InternAgrees(before);
      StepRefines(s, t, sym);
      forall i, a | 0 <= i < |states| && a in states[i].ids
        ensures a in s'.ids && s'.ids[a] == states[i].ids[a]
      {
        if i < |before| {
          assert before[i] == states[i];
        }
      }
    } else {
      assert Init(states[0]);
    }
  }

  /** The counter wraps on the 2^32-th allocation: an allocation hands out 0,
      the reserved id, if and only if the number of earlier ones is one less
      than a multiple of 2^32. */
  lemma AllocatesZeroIff(s: State, t: ThreadId, sym: string)
    requires t in s.threads && s.threads[t].Missed? && s.next == (s.allocations + 1) % WRAP
    ensures Step(s, t, sym).threads[t].candidate == 0 <==> s.allocations % WRAP == WRAP - 1
    ensures Step(s, t, sym).next == (Step(s, t, sym).allocations + 1) % WRAP
  {
    WrapIncCounts(s.allocations + 1);
    WrapIncCounts(s.allocations);
  }

  /* ----- Burnt ids ----- */

  /** The threads holding an id they have not yet offered. */
  ghost function Holders(s: State): set<ThreadId> {
    set t | t in s.threads && s.threads[t].Allocated?
  }

  /** An id is allocated in vain: its thread finds the symbol already there. */
  ghost predicate LosesRace(s: State, s': State) {
    exists t, sym :: t in s.threads && s.threads[t].Allocated? && s.threads[t].sym in s.ids && s' == Step(s, t, sym)
  }

  /** Every allocated id is in the table, still held, or burnt. */
  ghost predicate Accounted(s: State) {
    s.allocations == |s.ids| + |Holders(s)| + s.burnt
  }

  lemma StepHolders(s: State, t: ThreadId, sym: string)
    requires t in s.threads
    ensures Holders(Step(s, t, sym))
         == if s.threads[t].Missed? then Holders(s) + {t} else Holders(s) - {t}
    ensures t in Holders(s) <==> s.threads[t].Allocated?
  {
    var s' := Step(s, t, sym);
    assert forall t' :: t' in s'.threads <==> t' in s.threads;
    assert forall t' :: t' in s.threads && t' != t ==> s'.threads[t'] == s.threads[t'];
    assert s'.threads[t].Allocated? <==> s.threads[t].Missed?;
  }

  lemma StepAccounts(s: State, t: ThreadId, sym: string)
    requires t in s.threads && Accounted(s)
    ensures Accounted(Step(s, t, sym))
    ensures Step(s, t, sym).burnt
         == s.burnt + if s.threads[t].Allocated? && s.threads[t].sym in s.ids then 1 else 0
  {
    var s' := Step(s, t, sym);
    StepHolders(s, t, sym);
    StepKeys(s, t, sym);
    hide Holders;
  }

  lemma StepKeys(s: State, t: ThreadId, sym: string)
    requires t in s.threads
    ensures |Step(s, t, sym).ids|
         == |s.ids| + if s.threads[t].Allocated? && s.threads[t].sym !in s.ids then 1 else 0
  {
    if s.threads[t].Allocated? && s.threads[t].sym !in s.ids {
      var ids := s.ids[s.threads[t].sym := s.threads[t].candidate];
      assert ids.Keys == s.ids.Keys + {s.threads[t].sym};
      assert |ids| == |ids.Keys| && |s.ids| == |s.ids.Keys|;
    }
  }

  lemma LosesRaceIff(s: State, t: ThreadId, sym: string)
    requires t in s.threads && Accounted(s)
    ensures LosesRace(s, Step(s, t, sym)) <==> Step(s, t, sym).burnt > s.burnt
  {
    var s' := Step(s, t, sym);
    StepAccounts(s, t, sym);
    if LosesRace(s, s') {
      var t', sym' :| t' in s.threads && s.threads[t'].Allocated? && s.threads[t'].sym in s.ids && s' == Step(s, t', sym');
      StepAccounts(s, t', sym');
    }
  }

  ghost predicate NoRaceLost(states: seq<State>) {
    forall i :: 0 < i < |states| ==> !LosesRace(states[i - 1], states[i])
  }

  lemma RaceLostOn(before: seq<State>, s': State)
    requires before != []
    ensures NoRaceLost(before + [s']) <==> NoRaceLost(before) && !LosesRace(before[|before| - 1], s')
  {
    hide LosesRace;
    var states := before + [s'];
    assert forall i :: 0 <= i < |before| ==> states[i] == before[i];
    if NoRaceLost(states) {
      assert !LosesRace(states[|before| - 1], states[|before|]);
      forall i | 0 < i < |before| ensures !LosesRace(before[i - 1], before[i]) {
        assert !LosesRace(states[i - 1], states[i]);
      }
    }
  }

  lemma Prefix(states: seq<State>)
    requires Execution(states) && |states| > 1
    ensures Execution(states[..|states| - 1])
    ensures Next(states[|states| - 2], states[|states| - 1])
  {
    hide Next, Init;
  }

  lemma {:induction false} ExecutionAccounts(states: seq<State>)
    requires Execution(states)
    ensures Accounted(states[|states| - 1])
    ensures states[|states| - 1].burnt == 0 <==> NoRaceLost(states)
  {
    if |states| == 1 {
      assert Init(states[0]);
      assert Holders(states[0]) == {};
    } else {
      Prefix(states);
      hide Execution, Step, Accounted, LosesRace, NoRaceLost;
      var before, s, s' := states[..|states| - 1], states[|states| - 2], states[|states| - 1];
      ExecutionAccounts(before);
      var t, sym :| t in s.threads && s' == Step(s, t, sym);
      StepAccounts(s, t, sym);
      LosesRaceIff(s, t, sym);
      assert states == before + [s'];
      RaceLostOn(before, s');
    }
  }

  /** Under any interleaving every allocated id is in the table, still held by
      its thread or burnt. At rest there is one allocation per symbol if and
      only if no call ever lost the race to insert its symbol. */
  lemma OneAllocationEachIff(states: seq<State>)
    requires Execution(states)
    ensures Accounted(states[|states| - 1])
    ensures Holders(states[|states| - 1]) == {} ==>
              (states[|states| - 1].allocations == |states[|states| - 1].ids| <==> NoRaceLost(states))
  {
    hide NoRaceLost, Execution;
    ExecutionAccounts(states);
  }

  lemma Extend(states: seq<State>, t: ThreadId, sym: string) returns (longer: seq<State>)
    requires Execution(states) && t in states[|states| - 1].threads
    ensures Execution(longer) && |longer| == |states| + 1
    ensures longer[|longer| - 1] == Step(states[|states| - 1], t, sym)
  {
    hide Step, Init;
    longer := states + [Step(states[|states| - 1], t, sym)];
    assert Next(states[|states| - 1], longer[|states|]);
    assert forall i :: 0 < i < |states| ==> longer[i] == states[i];
  }

  /** Two threads interning one symbol at once burn an id: both miss, both
      allocate, and the second finds the symbol there. */
  lemma RacersBurn(sym: string) returns (states: seq<State>)
    ensures Execution(states)
    ensures var s := states[|states| - 1];
            && s.ids == map[sym := 1] && s.results == [(sym, 1), (sym, 1)]
            && s.allocations == 2 && s.burnt == 1 && s.next == 3 && Holders(s) == {}
  {
    states := RacersMiss(sym);
    hide Execution;
    states := Extend(states, 0, sym);
    states := Extend(states, 1, sym);
    assert states[|states| - 1]
        == State(map[], 3, map[0 := Allocated(sym, 1), 1 := Allocated(sym, 2)], 2, 0, []);
    states := Extend(states, 0, sym);
    states := Extend(states, 1, sym);
    assert states[|states| - 1]
        == State(map[sym := 1], 3, map[0 := Idle, 1 := Idle], 2, 1, [(sym, 1), (sym, 1)]);
  }

  lemma RacersMiss(sym: string) returns (states: seq<State>)
    ensures Execution(states)
    ensures states[|states| - 1] == State(map[], 1, map[0 := Missed(sym), 1 := Missed(sym)], 0, 0, [])
  {
    states := [State(map[], 1, map[0 := Idle, 1 := Idle], 0, 0, [])];
    hide Execution;
    states := Extend(states, 0, sym);
    states := Extend(states, 1, sym);
    states := Extend(states, 0, sym);
    states := Extend(states, 1, sym);
  }

  /** A call that nobody interrupts: a known symbol returns its id in two steps
      and allocates nothing; a new one takes the next id and keeps it. */
  lemma AloneInterns(s: State, t: ThreadId, sym: string)
    requires t in s.threads && s.threads[t].Idle?
    ensures var s2 := Step(Step(s, t, sym), t, sym);
            if sym in s.ids then s2 == s.(results := s.results + [(sym, s.ids[sym])])
            else
              Step(Step(s2, t, sym), t, sym)
              == s.(ids := s.ids[sym := s.next], next := WrapInc(s.next), allocations := s.allocations + 1,
                    results := s.results + [(sym, s.next)])
  {
    var s2 := Step(Step(s, t, sym), t, sym);
    assert s.threads[t := Idle] == s.threads;
    if sym in s.ids {
      assert s2.threads == s.threads;
    } else {
      assert s2 == s.(threads := s.threads[t := Missed(sym)]);
      var s3 := Step(s2, t, sym);
      assert s3.threads == s.threads[t := Allocated(sym, s.next)];
      assert Step(s3, t, sym).threads == s.threads;
    }
  }
}
