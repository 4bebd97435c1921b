/** Concurrent submissions: what reaches the brokers under any interleaving of
    the atomic steps of `submit`. */
module TokenSafety {
  import opened MachineInts
  import opened BrokerApi
  import opened Retry
  import opened Router
  import opened EngineSteps

  type ThreadId = nat

  /** Where a call of `submit` stands. Calls are numbered as they start. */
  datatype Pc =
    | Idle
    | Called(call: nat, a: Approval)
    | Verified(call: nat, a: Approval)
    | Admitted(call: nat, a: Approval)
    | Attempting(call: nat, a: Approval, slot: Slot, done: nat)

  /** One order handed to a broker adapter, and its answer. */
  datatype Contact = Contact(
    call: nat, a: Approval, slot: Slot, attempt: nat, asked: OrderIntent,
    answer: Result<SubmitAck, BrokerError>)

  datatype State = State(
    consumed: set<Token>, threads: map<ThreadId, Pc>, started: nat, contacts: seq<Contact>)

  /** What the surroundings decide in a step: the next approval submitted, the
      slot then active and the adapter's answer. */
  datatype Choice = Choice(a: Approval, slot: Slot, answer: Result<SubmitAck, BrokerError>)

  ghost predicate Init(s: State) {
    && s.consumed == {} && s.contacts == [] && s.started == 0
    && forall t :: t in s.threads ==> s.threads[t].Idle?
  }

  function At(s: State, t: ThreadId, pc: Pc): State {
    s.(threads := s.threads[t := pc])
  }

  predicate Retryable(answer: Result<SubmitAck, BrokerError>) {
    answer.Err? && answer.error.IsRetryable()
  }

  /** One atomic step of thread `t`. */
  function Step(cfg: Settings, s: State, t: ThreadId, choice: Choice): State
    requires t in s.threads
  {
    match s.threads[t]
    case Idle => At(s.(started := s.started + 1), t, Called(s.started, choice.a))
    case Called(call, a) => At(s, t, if cfg.verify(a) then Verified(call, a) else Idle)
    case Verified(call, a) =>
      if a.token in s.consumed then At(s, t, Idle)
      else At(s.(consumed := s.consumed + {a.token}), t, Admitted(call, a))
    case Admitted(call, a) =>
      At(s, t, if Translate(a.intent, a.sizedQty).None? then Idle else Attempting(call, a, choice.slot, 0))
    case Attempting(call, a, slot, done) =>
      if Translate(a.intent, a.sizedQty).None? then At(s, t, Idle)
      else
        var asked := Translate(a.intent, a.sizedQty).value;
        var contact := Contact(call, a, slot, done + 1, asked, choice.answer);
        var again := Retryable(choice.answer) && done + 1 < Budget(cfg.policy);
        At(s.(contacts := s.contacts + [contact]), t, if again then Attempting(call, a, slot, done + 1) else Idle)
  }

  ghost predicate Next(cfg: Settings, s: State, s': State) {
    exists t, choice :: t in s.threads && s' == Step(cfg, s, t, choice)
  }

  ghost predicate Execution(cfg: Settings, states: seq<State>) {
    && states != [] && Init(states[0])
    && forall i :: 0 < i < |states| ==> Next(cfg, states[i - 1], states[i])
  }

  /** The contacts a token led to, in time order. */
  ghost function Made(contacts: seq<Contact>, token: Token): seq<Contact> {
    if contacts == [] then []
    else
      var last := contacts[|contacts| - 1];
      Made(contacts[..|contacts| - 1], token) + if last.a.token == token then [last] else []
  }

  lemma MadeAppend(contacts: seq<Contact>, c: Contact, token: Token)
    ensures Made(contacts + [c], token)
         == if c.a.token == token then Made(contacts, token) + [c] else Made(contacts, token)
  {
    assert (contacts + [c])[..|contacts|] == contacts;
  }

  /** The contacts of one token: numbered attempts of a single call that
      verified, each for exactly the approved order, each but the last answered
      with a retryable error, and no more than the budget. */
  ghost predicate OneCall(cfg: Settings, made: seq<Contact>) {
    && |made| <= Budget(cfg.policy)
    && (forall i :: 0 <= i < |made| ==>
          && cfg.verify(made[i].a)
          && Translate(made[i].a.intent, made[i].a.sizedQty) == Some(made[i].asked)
          && made[i].attempt == i + 1
          && made[i].call == made[0].call && made[i].a == made[0].a && made[i].slot == made[0].slot)
    && (forall i :: 0 <= i < |made| - 1 ==> Retryable(made[i].answer))
  }

  /** A thread past admission holds a consumed token whose contacts are its own. */
  ghost predicate ThreadOk(cfg: Settings, s: State, t: ThreadId)
    requires t in s.threads
  {
    match s.threads[t]
    case Idle => true
    case Called(_, _) => true
    case Verified(_, a) => cfg.verify(a)
    case Admitted(_, a) => cfg.verify(a) && a.token in s.consumed && Made(s.contacts, a.token) == []
    case Attempting(call, a, slot, done) =>
      && cfg.verify(a) && a.token in s.consumed && Translate(a.intent, a.sizedQty).Some?
      && done < Budget(cfg.policy) && |Made(s.contacts, a.token)| == done
      && forall i :: 0 <= i < done ==>
           var c := Made(s.contacts, a.token)[i];
           c.call == call && c.a == a && c.slot == slot && Retryable(c.answer)
  }

  ghost predicate Holds(s: State, t: ThreadId, token: Token) {
    t in s.threads && (s.threads[t].Admitted? || s.threads[t].Attempting?) && s.threads[t].a.token == token
  }

  ghost predicate ThreadsOk(cfg: Settings, s: State) {
    && (forall t :: t in s.threads ==> ThreadOk(cfg, s, t))
    && (forall t, t', token :: Holds(s, t, token) && Holds(s, t', token) ==> t == t')
  }

  ghost predicate ContactsOk(cfg: Settings, s: State) {
    forall token ::
      && OneCall(cfg, Made(s.contacts, token))
      && (token !in s.consumed ==> Made(s.contacts, token) == [])
  }

  ghost predicate Inv(cfg: Settings, s: State) {
    ThreadsOk(cfg, s) && ContactsOk(cfg, s)
  }

  /** Consuming a new token, or a step that neither consumes nor contacts. */
  lemma QuietStepKeepsInv(cfg: Settings, s: State, t: ThreadId, choice: Choice)
    requires t in s.threads && Inv(cfg, s) && !s.threads[t].Attempting?
    ensures Inv(cfg, Step(cfg, s, t, choice))
  {
    var s' := Step(cfg, s, t, choice);
    assert ThreadOk(cfg, s, t);
    assert s'.contacts == s.contacts && s.consumed <= s'.consumed && s'.threads == s.threads[t := s'.threads[t]];
    forall t', token | Holds(s', t', token) && t' != t ensures Holds(s, t', token) && token in s.consumed {
      assert ThreadOk(cfg, s, t');
    }
    assert forall token :: Holds(s', t, token) ==> Holds(s, t, token) || token !in s.consumed;
    hide Made, OneCall, Holds;
    assert ContactsOk(cfg, s');
    hide ContactsOk;
    assert ThreadOk(cfg, s', t);
    hide Step;
    forall t' | t' in s'.threads ensures ThreadOk(cfg, s', t') {
      assert t' != t ==> ThreadOk(cfg, s, t') && s'.threads[t'] == s.threads[t'];
    }
  }

  /** Contacting a broker. */
  lemma AttemptKeepsInv(cfg: Settings, s: State, t: ThreadId, choice: Choice)
    requires t in s.threads && Inv(cfg, s) && s.threads[t].Attempting?
    ensures Inv(cfg, Step(cfg, s, t, choice))
  {
    var s', token := Step(cfg, s, t, choice), s.threads[t].a.token;
    assert ThreadOk(cfg, s, t);
    var contact := s'.contacts[|s.contacts|];
    forall other ensures Made(s'.contacts, other)
                      == if other == token then Made(s.contacts, token) + [contact] else Made(s.contacts, other)
    {
      MadeAppend(s.contacts, contact, other);
    }
    hide Made;
    assert Holds(s, t, token);
    AttemptKeepsCall(cfg, s, t, choice);
    forall t', other | Holds(s', t', other) ensures Holds(s, t', other) {
    }
    assert ContactsOk(cfg, s');
    hide OneCall;
    forall t' | t' in s'.threads ensures ThreadOk(cfg, s', t') {
      assert ThreadOk(cfg, s, t');
      assert t' != t ==> !Holds(s, t', token);
    }
  }

  lemma AttemptKeepsCall(cfg: Settings, s: State, t: ThreadId, choice: Choice)
    requires t in s.threads && s.threads[t].Attempting? && ThreadOk(cfg, s, t)
    requires OneCall(cfg, Made(s.contacts, s.threads[t].a.token))
    ensures var s' := Step(cfg, s, t, choice);
            OneCall(cfg, Made(s.contacts, s.threads[t].a.token) + [s'.contacts[|s.contacts|]])
  {
    hide Made;
  }

  lemma StepKeepsInv(cfg: Settings, s: State, t: ThreadId, choice: Choice)
    requires t in s.threads && Inv(cfg, s)
    ensures Inv(cfg, Step(cfg, s, t, choice))
  {
    if s.threads[t].Attempting? {
      AttemptKeepsInv(cfg, s, t, choice);
    } else {
      QuietStepKeepsInv(cfg, s, t, choice);
    }
  }

  lemma {:induction false} ExecutionInv(cfg: Settings, states: seq<State>)
    requires Execution(cfg, states)
    ensures Inv(cfg, states[|states| - 1])
  {
    if |states| > 1 {
      var before := states[..|states| - 1];
      ExecutionInv(cfg, before);
      var s, s' := states[|states| - 2], states[|states| - 1];
      assert Next(cfg, s, s');
      var t, choice :| t in s.threads && s' == Step(cfg, s, t, choice);
      hide Step, Inv;
      StepKeepsInv(cfg, s, t, choice);
    }
  }

  lemma {:induction false} ContactIsMade(contacts: seq<Contact>, i: nat) returns (k: nat)
    requires i < |contacts|
    ensures k < |Made(contacts, contacts[i].a.token)| && Made(contacts, contacts[i].a.token)[k] == contacts[i]
    ensures k == |Made(contacts[..i], contacts[i].a.token)|
  {
    var before := contacts[..|contacts| - 1];
    if i == |before| {
      k := |Made(before, contacts[i].a.token)|;
    } else {
      k := ContactIsMade(before, i);
      assert before[..i] == contacts[..i];
    }
  }

  /** Whatever the interleaving and the answers: every order a broker receives
      is one a verified token approved; equal tokens never come from two calls;
      and an order follows another under one token only after a retryable error,
      so at most one is ever acknowledged. */
  lemma TokensAreSafe(cfg: Settings, states: seq<State>, i: nat, j: nat)
    requires Execution(cfg, states)
    requires i <= j < |states[|states| - 1].contacts|
    ensures var (c, d) := (states[|states| - 1].contacts[i], states[|states| - 1].contacts[j]);
            && cfg.verify(c.a) && Translate(c.a.intent, c.a.sizedQty) == Some(c.asked)
            && cfg.verify(d.a) && Translate(d.a.intent, d.a.sizedQty) == Some(d.asked)
            && (i < j && c.a.token == d.a.token ==>
                  c.call == d.call && c.a == d.a && c.attempt < d.attempt && Retryable(c.answer))
  {
    var contacts := states[|states| - 1].contacts;
    ExecutionInv(cfg, states);
    var k := ContactIsMade(contacts, i);
    var l := ContactIsMade(contacts, j);
    assert OneCall(cfg, Made(contacts, contacts[i].a.token));
    assert OneCall(cfg, Made(contacts, contacts[j].a.token));
    if i < j && contacts[i].a.token == contacts[j].a.token {
      var m := ContactIsMade(contacts[..j], i);
      assert contacts[..j][..i] == contacts[..i];
    }
  }

  /** One token causes at most `max(1, maxAttempts)` orders. */
  lemma TokenBudget(cfg: Settings, states: seq<State>, token: Token)
    requires Execution(cfg, states)
    ensures |Made(states[|states| - 1].contacts, token)| <= Max(1, cfg.policy.maxAttempts)
  {
    ExecutionInv(cfg, states);
    assert OneCall(cfg, Made(states[|states| - 1].contacts, token));
  }

  /* ----- One call alone ----- */

  /** Steps left to a call, at most. */
  function StepsLeft(cfg: Settings, pc: Pc): nat {
    match pc
    case Idle => 0
    case Attempting(_, _, _, done) => 1 + Max(Budget(cfg.policy) - done, 0)
    case Admitted(_, _) => Budget(cfg.policy) + 2
    case Verified(_, _) => Budget(cfg.policy) + 3
    case Called(_, _) => Budget(cfg.policy) + 4
  }

  /** What the surroundings decide when the active slot stays and its adapter answers. */
  function Served(slot: Slot, adapters: Adapters, pc: Pc, a: Approval): Choice {
    if pc.Attempting? && Translate(a.intent, a.sizedQty).Some? then
      Choice(a, slot, adapters(slot, Translate(a.intent, a.sizedQty).value, pc.done + 1))
    else Choice(a, slot, Err(BrokerError.Internal))
  }

  /** A call that nobody interrupts, run to its end. */
  function Alone(cfg: Settings, s: State, t: ThreadId, a: Approval, slot: Slot, adapters: Adapters): State
    requires t in s.threads
    decreases StepsLeft(cfg, s.threads[t])
  {
    if s.threads[t].Idle? then s
    else Alone(cfg, Step(cfg, s, t, Served(slot, adapters, s.threads[t], a)), t, a, slot, adapters)
  }

  lemma {:induction false} AloneAttempts(
      cfg: Settings, s: State, t: ThreadId, call: nat, a: Approval, slot: Slot, done: nat, adapters: Adapters,
      broker: nat)
    requires t in s.threads && s.threads[t] == Attempting(call, a, slot, done)
    requires Translate(a.intent, a.sizedQty).Some? && done < Budget(cfg.policy)
    ensures var asked := Translate(a.intent, a.sizedQty).value;
            var n := Calls(cfg.policy, Attempt(broker, slot, adapters, asked), done + 1);
            var s' := Alone(cfg, s, t, a, slot, adapters);
            && done < n && |s'.contacts| == |s.contacts| + n - done
            && s'.contacts[|s'.contacts| - 1] == Contact(call, a, slot, n, asked, adapters(slot, asked, n))
            && s'.consumed == s.consumed && s'.threads == s.threads[t := Idle] && s'.started == s.started
    decreases Budget(cfg.policy) - done
  {
    var asked := Translate(a.intent, a.sizedQty).value;
    var answer := adapters(slot, asked, done + 1);
    var s1 := Step(cfg, s, t, Served(slot, adapters, s.threads[t], a));
    assert Alone(cfg, s, t, a, slot, adapters) == Alone(cfg, s1, t, a, slot, adapters);
    assert Retries(Attempt(broker, slot, adapters, asked)(done + 1)) <==> Retryable(answer);
    hide Translate;
    if Retryable(answer) && done + 1 < Budget(cfg.policy) {
      AloneAttempts(cfg, s1, t, call, a, slot, done + 1, adapters, broker);
      assert s1.threads[t := Idle] == s.threads[t := Idle];
    }
  }

  /** The atomic steps of an uninterrupted submission are the serial one: it
      consumes the token exactly when it is admitted, and contacts the active
      broker exactly as often as the retry loop says, none if refused. */
  lemma AloneIsSerial(cfg: Settings, s: State, e: EngineState, t: ThreadId, call: nat, a: Approval, adapters: Adapters)
    requires t in s.threads && s.threads[t] == Called(call, a) && e.consumed == s.consumed
    ensures var s' := Alone(cfg, s, t, a, e.router.active, adapters);
            && s'.consumed == AfterSubmit(cfg, e, a, adapters, 0).0.consumed
            && s'.threads == s.threads[t := Idle]
            && |s'.contacts| - |s.contacts|
               == if Reaches(cfg, e, a) then Calls(cfg.policy, Operation(cfg, e, a, adapters), 1) else 0
  {
    var slot := e.router.active;
    Consumes(cfg, e, a, adapters);
    hide AfterSubmit;
    var s1 := OneMore(cfg, s, t, a, slot, adapters);
    if cfg.verify(a) {
      var s2 := OneMore(cfg, s1, t, a, slot, adapters);
      if a.token in s.consumed {
        assert s2.threads == s.threads[t := Idle];
      } else {
        var s3 := OneMore(cfg, s2, t, a, slot, adapters);
        assert s3.threads[t := Idle] == s.threads[t := Idle];
        if Translate(a.intent, a.sizedQty).Some? {
          AloneAttempts(cfg, s3, t, call, a, slot, 0, adapters, cfg.IdOf(slot));
        }
      }
    }
  }

  lemma OneMore(cfg: Settings, s: State, t: ThreadId, a: Approval, slot: Slot, adapters: Adapters)
    returns (s': State)
    requires t in s.threads && !s.threads[t].Idle?
    ensures s' == Step(cfg, s, t, Served(slot, adapters, s.threads[t], a))
    ensures Alone(cfg, s, t, a, slot, adapters) == Alone(cfg, s', t, a, slot, adapters)
  {
    s' := Step(cfg, s, t, Served(slot, adapters, s.threads[t], a));
  }

  lemma Consumes(cfg: Settings, e: EngineState, a: Approval, adapters: Adapters)
    ensures AfterSubmit(cfg, e, a, adapters, 0).0.consumed
         == if cfg.verify(a) && a.token !in e.consumed then e.consumed + {a.token} else e.consumed
  {
    hide Outcome, Operation, Router.AfterOutcome;
  }
}
