/**
 * The two channels between retrieveWithTimeout and its goroutine (raft/node.go): the caller takes what comes
 * first of a node, an error, the timeout and the context's end; the goroutine sends whatever its callback
 * returned, when it returns.
 */
module RetrievalChannels {
  import opened Common

  datatype Goroutine = Calling | SendsNode(node: nat) | SendsError | Finished

  datatype Caller = Waits | HasNode(node: nat) | HasError | TimedOut | CtxEnded

  datatype State = State(go: Goroutine, nodeC: seq<nat>, errC: nat, caller: Caller, ctxDone: bool)

  const START := State(Calling, [], 0, Waits, false)

  datatype Choice =
    | CallbackReturns(node: Option<nat>)   // None is an error
    | GoroutineSends
    | TakeNode
    | TakeError
    | Timeout
    | Cancel
    | TakeCancel

  /** Both channels have room for as many values as given; the code gives them one. */
  function Step(capacity: nat, s: State, c: Choice): (s': State) {
    match (s.go, c)
    case (Calling, CallbackReturns(Some(n))) => s.(go := SendsNode(n))
    case (Calling, CallbackReturns(None)) => s.(go := SendsError)
    case (SendsNode(n), GoroutineSends) =>
      if CanSend(capacity, s) then s.(go := Finished, nodeC := s.nodeC + [n]) else s
    case (SendsError, GoroutineSends) => if CanSend(capacity, s) then s.(go := Finished, errC := s.errC + 1) else s
    case (_, TakeNode) =>
      if !s.caller.Waits? then s
      else if s.nodeC != [] then s.(nodeC := s.nodeC[1..], caller := HasNode(s.nodeC[0]))
      else if capacity == 0 && s.go.SendsNode? then s.(go := Finished, caller := HasNode(s.go.node))
      else s
    case (_, TakeError) =>
      if !s.caller.Waits? then s
      else if s.errC > 0 then s.(errC := s.errC - 1, caller := HasError)
      else if capacity == 0 && s.go.SendsError? then s.(go := Finished, caller := HasError)
      else s
    case (_, Timeout) => if s.caller.Waits? then s.(caller := TimedOut) else s
    case (_, Cancel) => s.(ctxDone := true)
    case (_, TakeCancel) => if s.caller.Waits? && s.ctxDone then s.(caller := CtxEnded) else s
    case _ => s
  }

  /** Whether the goroutine's channel has room. */
  predicate CanSend(capacity: nat, s: State) {
    (s.go.SendsNode? ==> |s.nodeC| < capacity) && (s.go.SendsError? ==> s.errC < capacity)
  }

  function Exec(capacity: nat, s: State, cs: seq<Choice>): (s': State) {
    if cs == [] then s else Step(capacity, Exec(capacity, s, cs[..|cs| - 1]), cs[|cs| - 1])
  }

  lemma {:induction false} NothingSentYet(capacity: nat, cs: seq<Choice>)
    ensures var s := Exec(capacity, START, cs); !s.go.Finished? ==> s.nodeC == [] && s.errC == 0
    ensures var s := Exec(capacity, START, cs); |s.nodeC| + s.errC <= 1
  {
    if cs != [] {
      NothingSentYet(capacity, cs[..|cs| - 1]);
    }
  }

  /**
   * A goroutine whose callback returned never blocks, in any run and even after its caller gave up, exactly
   * when the channels have room for a value.
   */
  lemma NeverBlocks(capacity: nat)
    ensures (forall cs: seq<Choice> :: CanSend(capacity, Exec(capacity, START, cs))) <==> capacity >= 1
  {
    if capacity >= 1 {
      forall cs: seq<Choice> ensures CanSend(capacity, Exec(capacity, START, cs)) {
        NothingSentYet(capacity, cs);
      }
    } else {
      var cs := [Timeout, CallbackReturns(Some(0))];
      assert cs[..1] == [Timeout] && [Timeout][..0] == [];
      assert Exec(capacity, START, [Timeout]) == START.(caller := TimedOut);
      assert !CanSend(capacity, Exec(capacity, START, cs));
    }
  }

  /** With one place each, as in the code: once the callback returned, one step finishes the goroutine. */
  lemma GoroutineFinishes(cs: seq<Choice>)
    requires !Exec(1, START, cs).go.Calling?
    ensures Exec(1, START, cs + [GoroutineSends]).go.Finished?
  {
    NothingSentYet(1, cs);
    assert (cs + [GoroutineSends])[..|cs|] == cs;
  }

  /** What the callback returned in a run, at its first return, which is the only one. */
  function Returned(cs: seq<Choice>): (r: Option<Option<nat>>) {
    if cs == [] then None
    else
      var before, last := Returned(cs[..|cs| - 1]), cs[|cs| - 1];
      if before.None? && last.CallbackReturns? then Some(last.node) else before
  }

  /** Every place holds what the callback returned, and nothing before it did. */
  ghost predicate Carries(s: State, r: Option<Option<nat>>) {
    && (s.go.Calling? <==> r.None?)
    && (s.go.SendsNode? ==> r == Some(Some(s.go.node)))
    && (s.go.SendsError? ==> r == Some(None))
    && (forall n | n in s.nodeC :: r == Some(Some(n)))
    && (s.errC > 0 ==> r == Some(None))
    && (s.caller.HasNode? ==> r == Some(Some(s.caller.node)))
    && (s.caller.HasError? ==> r == Some(None))
  }

  lemma StepCarries(capacity: nat, s: State, c: Choice, r: Option<Option<nat>>)
    requires Carries(s, r)
    ensures Carries(Step(capacity, s, c), if r.None? && c.CallbackReturns? then Some(c.node) else r)
  {
  }

  /** Over runs: a caller that has a node, or an error, has what the callback returned. */
  lemma {:induction false} ReceivesWhatWasReturned(capacity: nat, cs: seq<Choice>)
    ensures Carries(Exec(capacity, START, cs), Returned(cs))
  {
    if cs != [] {
      ReceivesWhatWasReturned(capacity, cs[..|cs| - 1]);
      StepCarries(capacity, Exec(capacity, START, cs[..|cs| - 1]), cs[|cs| - 1], Returned(cs[..|cs| - 1]));
    }
  }

  /** The value on its way to a caller that still waits, at the code's capacity. */
  ghost predicate OnTheWay(s: State, r: Option<nat>) {
    && s.caller.Waits?
    && match r
       case Some(n) => (s.go == SendsNode(n) && s.nodeC == []) || (s.go.Finished? && s.nodeC == [n])
       case None => s.nodeC == [] && ((s.go.SendsError? && s.errC == 0) || (s.go.Finished? && s.errC == 1))
  }

  lemma StepOnTheWay(s: State, c: Choice, r: Option<nat>)
    requires OnTheWay(s, r) && Step(1, s, c).caller.Waits?
    ensures OnTheWay(Step(1, s, c), r)
  {
  }

  lemma {:induction false} WaitingKeepsIt(cs: seq<Choice>)
    requires Exec(1, START, cs).caller.Waits? && Returned(cs).Some?
    ensures OnTheWay(Exec(1, START, cs), Returned(cs).value)
  {
    if cs != [] {
      var init := cs[..|cs| - 1];
      NothingSentYet(1, init);
      ReceivesWhatWasReturned(1, init);
      StillWaits(Exec(1, START, init), cs[|cs| - 1]);
      if Returned(init).Some? {
        WaitingKeepsIt(init);
        StepOnTheWay(Exec(1, START, init), cs[|cs| - 1], Returned(init).value);
      }
    }
  }

  lemma StillWaits(s: State, c: Choice)
    requires Step(1, s, c).caller.Waits?
    ensures s.caller.Waits?
  {
  }

  /** And a caller that still waits gets it: two choices after the callback returned, at the latest. */
  lemma CallerReceives(cs: seq<Choice>)
    requires Exec(1, START, cs).caller.Waits? && Returned(cs).Some?
    ensures var r := Returned(cs).value;
      Exec(1, START, cs + [GoroutineSends, if r.Some? then TakeNode else TakeError]).caller
      == if r.Some? then HasNode(r.value) else HasError
  {
    WaitingKeepsIt(cs);
    var take := if Returned(cs).value.Some? then TakeNode else TakeError;
    var all := cs + [GoroutineSends, take];
    assert all[..|all| - 1] == cs + [GoroutineSends];
    assert (cs + [GoroutineSends])[..|cs|] == cs;
    assert Exec(1, START, all) == Step(1, Step(1, Exec(1, START, cs), GoroutineSends), take);
  }

  lemma CancelStep(capacity: nat, s: State, c: Choice)
    ensures Step(capacity, s, c).ctxDone <==> s.ctxDone || c.Cancel?
    ensures Step(capacity, s, c).caller.CtxEnded?
       <==> s.caller.CtxEnded? || (s.caller.Waits? && s.ctxDone && c.TakeCancel?)
  {
  }

  /** Over runs: a caller gives up for the context's end only once it ended, and can from then on. */
  lemma {:induction false} GivesUpAtTheEnd(capacity: nat, cs: seq<Choice>)
    ensures var s := Exec(capacity, START, cs);
      && (s.ctxDone <==> Cancel in cs)
      && (s.caller.CtxEnded? ==> Cancel in cs)
      && (s.caller.Waits? ==> (Step(capacity, s, TakeCancel).caller.CtxEnded? <==> Cancel in cs))
  {
    if cs != [] {
      var init, last := cs[..|cs| - 1], cs[|cs| - 1];
      GivesUpAtTheEnd(capacity, init);
      CancelStep(capacity, Exec(capacity, START, init), last);
      assert Cancel in cs <==> Cancel in init || last == Cancel;
    }
    CancelStep(capacity, Exec(capacity, START, cs), TakeCancel);
  }
}
