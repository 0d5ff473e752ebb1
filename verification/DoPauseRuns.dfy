/** doPause as one caller sees it, the methods of Gate, is a run of the concurrent protocol. */
module DoPauseRuns {
  import opened Common
  import opened PauseProtocol
  import opened PauseProperties
  import opened PauseRuns
  import Gate

  /** waitPause from setPaused on: each pause request is taken as it comes, or the end of the context. */
  function WaitChoices(v: bool, signals: seq<Gate.Signal>): (cs: seq<Choice>)
    decreases |signals|
  {
    if !v || signals == [] then SETTLE
    else
      match signals[0]
      case ContextDone => SETTLE + [Cancel, SeeCancel]
      case Wants(w) => Retake(w) + WaitChoices(w, signals[1..])
  }

  /** The flag is set and waitPause takes the next request. */
  function Retake(w: bool): (cs: seq<Choice>) {
    SETTLE + [Request(w)]
  }

  /** What a wait leaves alone. */
  ghost predicate SameMessages(s: State, s': State) {
    && s'.queue == s.queue && s'.enqueued == s.enqueued && s'.churned == s.churned && s'.direct == s.direct
    && s'.senders == s.senders && s'.lock == s.lock
  }

  lemma WaitsOn(cap: nat, s: State, w: bool)
    requires s.loop == Setting(true) && s.lock.None?
    ensures var s' := Exec(cap, s, Retake(w)); s'.loop == Setting(w) && SameMessages(s, s')
  {
    Settles(cap, s, true);
    ExecConcat(cap, s, SETTLE, [Request(w)]);
    Exec1(cap, Exec(cap, s, SETTLE), Request(w));
  }

  lemma Cancelled(cap: nat, s: State)
    requires s.loop == Setting(true) && s.lock.None?
    ensures var s' := Exec(cap, s, SETTLE + [Cancel, SeeCancel]);
      s'.loop.Top? && s'.pause && SameMessages(s, s')
  {
    Settles(cap, s, true);
    ExecConcat(cap, s, SETTLE, [Cancel, SeeCancel]);
    Exec2(cap, Exec(cap, s, SETTLE), Cancel, SeeCancel);
  }

  /** The wait ends as WaitEnds says: churning with the flag false, or back in the loop with it true. */
  lemma {:induction false} WaitRuns(cap: nat, s: State, v: bool, signals: seq<Gate.Signal>)
    requires s.loop == Setting(v) && s.lock.None? && Gate.WaitEnds(v, signals).Some?
    ensures var s', cancelled := Exec(cap, s, WaitChoices(v, signals)), Gate.WaitEnds(v, signals).value;
      s'.pause == cancelled && s'.loop == (if cancelled then Top else ToChurn) && SameMessages(s, s')
    decreases |signals|
  {
    if !v {
      Settles(cap, s, v);
    } else {
      match signals[0]
      case ContextDone => Cancelled(cap, s);
      case Wants(w) =>
        WaitsOn(cap, s, w);
        ExecConcat(cap, s, Retake(w), WaitChoices(w, signals[1..]));
        WaitRuns(cap, Exec(cap, s, Retake(w)), w, signals[1..]);
    }
  }

  /** The loop of churnQueue, with the results that Step returns. */
  function ChurnChoices(queue: seq<nat>, oks: seq<bool>): (cs: seq<Choice>) {
    if queue == [] || oks == [] then [LoopMoves(true)]
    else [LoopMoves(true), LoopMoves(oks[0])] + if oks[0] then ChurnChoices(queue[1..], oks[1..]) else []
  }

  /** The state after churning, still inside churnQueue. */
  function Left(s: State, churn: Gate.Churn<nat>): (s': State) {
    s.(loop := Releasing(churn.err), queue := churn.left, churned := s.churned + churn.handed)
  }

  lemma ChurnTurn(cap: nat, s: State, ok: bool)
    requires s.loop.Churning? && s.queue != []
    ensures Exec(cap, s, [LoopMoves(true), LoopMoves(ok)])
         == s.(queue := s.queue[1..], churned := s.churned + [s.queue[0]],
               loop := if ok then Churning else Releasing(true))
  {
    var s1 := s.(queue := s.queue[1..], loop := Stepping(s.queue[0]));
    assert Step(cap, s, LoopMoves(true)) == s1;
    Exec2(cap, s, LoopMoves(true), LoopMoves(ok));
  }

  lemma LeftAfterTurn(s: State, rest: Gate.Churn<nat>)
    requires s.loop.Churning? && s.queue != []
    ensures Left(s.(queue := s.queue[1..], churned := s.churned + [s.queue[0]]), rest)
         == Left(s, rest.(handed := [s.queue[0]] + rest.handed))
  {
    assert s.churned + [s.queue[0]] + rest.handed == s.churned + ([s.queue[0]] + rest.handed);
  }

  lemma {:induction false} ChurnRun(cap: nat, s: State, oks: seq<bool>)
    requires s.loop.Churning? && |oks| >= |s.queue|
    ensures Exec(cap, s, ChurnChoices(s.queue, oks)) == Left(s, Gate.Churned(s.queue, oks))
    decreases |s.queue|
  {
    if s.queue == [] {
      Exec1(cap, s, LoopMoves(true));
      assert s.churned + [] == s.churned;
    } else {
      var turn := [LoopMoves(true), LoopMoves(oks[0])];
      ChurnTurn(cap, s, oks[0]);
      if oks[0] {
        ExecConcat(cap, s, turn, ChurnChoices(s.queue[1..], oks[1..]));
        ChurnRun(cap, Exec(cap, s, turn), oks[1..]);
        LeftAfterTurn(s, Gate.Churned(s.queue[1..], oks[1..]));
      } else {
        assert turn + [] == turn;
      }
    }
  }

  /** churnQueue from its call to its return, whatever it returns. */
  lemma ChurnQueueRun(cap: nat, s: State, oks: seq<bool>)
    requires s.loop.ToChurn? && s.lock.None? && |oks| >= |s.queue|
    ensures var churn := Gate.Churned(s.queue, oks);
      Exec(cap, s, [LoopMoves(true)] + ChurnChoices(s.queue, oks) + [LoopMoves(true)])
      == s.(loop := Top, queue := churn.left, churned := s.churned + churn.handed)
  {
    var s1 := s.(lock := Some(Loop), loop := Churning);
    assert Step(cap, s, LoopMoves(true)) == s1;
    Exec1(cap, s, LoopMoves(true));
    ExecConcat(cap, s, [LoopMoves(true)], ChurnChoices(s.queue, oks));
    ChurnRun(cap, s1, oks);
    ExecConcat(cap, s, [LoopMoves(true)] + ChurnChoices(s.queue, oks), [LoopMoves(true)]);
    Exec1(cap, Exec(cap, s1, ChurnChoices(s.queue, oks)), LoopMoves(true));
  }

  /** The choices of a whole doPause that nobody else gets in the way of. */
  function DoPauseChoices(v: bool, signals: seq<Gate.Signal>, queue: seq<nat>, oks: seq<bool>): (cs: seq<Choice>) {
    if Gate.WaitEnds(v, signals) == Some(true) then WaitChoices(v, signals)
    else WaitChoices(v, signals) + ([LoopMoves(true)] + ChurnChoices(queue, oks) + [LoopMoves(true)])
  }

  /**
   * A whole doPause, from the request taken at the select of Start, is a run of the protocol that ends there
   * again, with the flag, the queue and the messages handed to Step as Gate.DoPause promises them.
   */
  lemma DoPauseIsARun(cap: nat, s: State, v: bool, signals: seq<Gate.Signal>, oks: seq<bool>)
    requires s.loop.Top? && s.lock.None? && Gate.WaitEnds(v, signals).Some? && |oks| >= |s.queue|
    ensures var s' := Exec(cap, s, [Request(v)] + DoPauseChoices(v, signals, s.queue, oks));
      var cancelled, churn := Gate.WaitEnds(v, signals).value, Gate.Churned(s.queue, oks);
      && s'.loop.Top? && s'.lock.None? && s'.pause == cancelled && s'.senders == s.senders
      && s'.queue == (if cancelled then s.queue else churn.left)
      && s'.churned == (if cancelled then s.churned else s.churned + churn.handed)
      && s'.direct == s.direct
  {
    var s1 := s.(loop := Setting(v));
    Exec1(cap, s, Request(v));
    ExecConcat(cap, s, [Request(v)], DoPauseChoices(v, signals, s.queue, oks));
    WaitRuns(cap, s1, v, signals);
    if !Gate.WaitEnds(v, signals).value {
      var churning := [LoopMoves(true)] + ChurnChoices(s.queue, oks) + [LoopMoves(true)];
      ExecConcat(cap, s1, WaitChoices(v, signals), churning);
      ChurnQueueRun(cap, Exec(cap, s1, WaitChoices(v, signals)), oks);
    }
  }

  /** A tick, a Ready or a stop is taken at the select, and over when the loop is back there. */
  lemma WorkReturns(cap: nat, s: State)
    requires s.loop.Top?
    ensures Exec(cap, s, [Work]).loop.Working? && Exec(cap, s, [Work, Work]) == s
  {
    Exec1(cap, s, Work);
    Exec2(cap, s, Work, Work);
  }
}
