/** What holds of pausing, sending and churning under every interleaving. */
module PauseProperties {
  import opened Common
  import opened PauseProtocol
  import Gate

  // ---------------------------------------------------------------------------------- the stuck lock

  /** A sender holds the lock at its channel send, and the queue is full. */
  ghost predicate Stuck(cap: nat, s: State) {
    && s.lock.Some? && s.lock.value.Of? && s.lock.value.id in s.senders
    && s.senders[s.lock.value.id].pc.Enqueueing?
    && |s.queue| >= cap
  }

  lemma StuckStep(cap: nat, s: State, c: Choice)
    requires Inv(cap, s) && Stuck(cap, s)
    ensures var s' := Step(cap, s, c);
      Stuck(cap, s') && s'.lock == s.lock && s'.queue == s.queue && s'.pause == s.pause
      && s'.enqueued == s.enqueued && s'.churned == s.churned
  {
  }

  /**
   * The absorbing state: once a sender is inside the locked section with the queue full, then in every
   * continuation it still holds the lock, the queue and the pause flag are as they were, and churnQueue hands
   * nothing over any more.
   */
  lemma {:induction false} StuckForever(cap: nat, s: State, cs: seq<Choice>)
    requires Inv(cap, s) && Stuck(cap, s)
    ensures var s' := Exec(cap, s, cs);
      Inv(cap, s') && Stuck(cap, s') && s'.lock == s.lock && s'.queue == s.queue && s'.pause == s.pause
      && s'.enqueued == s.enqueued && s'.churned == s.churned
  {
    if cs != [] {
      StuckForever(cap, s, cs[..|cs| - 1]);
      StuckStep(cap, Exec(cap, s, cs[..|cs| - 1]), cs[|cs| - 1]);
      StepKeepsInv(cap, Exec(cap, s, cs[..|cs| - 1]), cs[|cs| - 1]);
    }
  }

  /** Whoever holds the lock otherwise can give it back: the choices that do it, at most three. */
  function Unlocking(s: State): (cs: seq<Choice>)
    requires s.lock.Some?
  {
    match s.lock.value
    case Of(id) =>
      if id in s.senders && s.senders[id].pc.Enqueueing? then [SenderMoves(id), SenderMoves(id)] else [SenderMoves(id)]
    case Loop =>
      match s.loop
      case Writing(_) => [LoopMoves(true), LoopMoves(true)]
      case Churning =>
        if s.queue == [] then [LoopMoves(true), LoopMoves(true)]
        else [LoopMoves(true), LoopMoves(false), LoopMoves(true)]
      case Stepping(_) => [LoopMoves(false), LoopMoves(true)]
      case _ => [LoopMoves(true)]
  }

  lemma Exec1(cap: nat, s: State, a: Choice)
    ensures Exec(cap, s, [a]) == Step(cap, s, a)
  {
    assert [a][..0] == [];
  }

  lemma Exec2(cap: nat, s: State, a: Choice, b: Choice)
    ensures Exec(cap, s, [a, b]) == Step(cap, Step(cap, s, a), b)
  {
    Exec1(cap, s, a);
    assert [a, b][..1] == [a];
  }

  lemma Exec3(cap: nat, s: State, a: Choice, b: Choice, c: Choice)
    ensures Exec(cap, s, [a, b, c]) == Step(cap, Step(cap, Step(cap, s, a), b), c)
  {
    Exec2(cap, s, a, b);
    assert [a, b, c][..2] == [a, b];
  }

  lemma SenderUnlocks(cap: nat, s: State, id: nat)
    requires Mutex(s) && s.lock == Some(Of(id)) && !Stuck(cap, s)
    ensures Exec(cap, s, Unlocking(s)).lock.None?
  {
    Exec1(cap, s, SenderMoves(id));
    Exec2(cap, s, SenderMoves(id), SenderMoves(id));
  }

  lemma LoopUnlocks(cap: nat, s: State)
    requires Mutex(s) && s.lock == Some(Loop)
    ensures Exec(cap, s, Unlocking(s)).lock.None?
  {
    if s.loop.Churning? && s.queue != [] {
      Exec3(cap, s, LoopMoves(true), LoopMoves(false), LoopMoves(true));
    } else if s.loop.Stepping? {
      Exec2(cap, s, LoopMoves(false), LoopMoves(true));
    } else {
      Exec1(cap, s, LoopMoves(true));
      Exec2(cap, s, LoopMoves(true), LoopMoves(true));
    }
  }

  lemma UnlockingWorks(cap: nat, s: State)
    requires Mutex(s) && s.lock.Some? && !Stuck(cap, s)
    ensures Exec(cap, s, Unlocking(s)).lock.None?
  {
    match s.lock.value
    case Of(id) => SenderUnlocks(cap, s, id);
    case Loop => LoopUnlocks(cap, s);
  }

  /** The lock, once held, is never released in any continuation exactly when the state is stuck. */
  lemma LockedForever(cap: nat, s: State)
    requires Inv(cap, s) && s.lock.Some?
    ensures (forall cs: seq<Choice> :: Exec(cap, s, cs).lock.Some?) <==> Stuck(cap, s)
  {
    if Stuck(cap, s) {
      forall cs: seq<Choice> ensures Exec(cap, s, cs).lock.Some? {
        StuckForever(cap, s, cs);
      }
    } else {
      UnlockingWorks(cap, s);
      assert Exec(cap, s, Unlocking(s)).lock.None?;
    }
  }

  /** Where the event loop waits for a lock that it will not get. */
  ghost predicate LoopCaught(s: State) {
    s.loop.Setting? || s.loop.ToChurn? || (s.loop.Rereading? && !s.pause)
  }

  lemma CaughtStep(cap: nat, s: State, c: Choice)
    requires Inv(cap, s) && Stuck(cap, s) && LoopCaught(s)
    ensures LoopCaught(Step(cap, s, c))
  {
  }

  lemma {:induction false} CaughtForever(cap: nat, s: State, cs: seq<Choice>)
    requires Inv(cap, s) && Stuck(cap, s) && LoopCaught(s)
    ensures LoopCaught(Exec(cap, s, cs))
  {
    if cs != [] {
      CaughtForever(cap, s, cs[..|cs| - 1]);
      StuckForever(cap, s, cs[..|cs| - 1]);
      CaughtStep(cap, Exec(cap, s, cs[..|cs| - 1]), cs[|cs| - 1]);
    }
  }

  /** The choices that bring a loop not caught back to work: from waitPause by the end of the context. */
  function BackToWork(s: State): (cs: seq<Choice>) {
    match s.loop
    case Working => []
    case Top => [Work]
    case Waiting => [Cancel, SeeCancel, Work]
    case _ => [LoopMoves(true)] + [Cancel, SeeCancel, Work]
  }

  lemma BackToWorkWorks(cap: nat, s: State)
    requires Inv(cap, s) && Stuck(cap, s) && !LoopCaught(s)
    ensures Exec(cap, s, BackToWork(s)).loop.Working?
  {
    Exec1(cap, s, Work);
    Exec3(cap, s, Cancel, SeeCancel, Work);
    Exec1(cap, s, LoopMoves(true));
    ExecConcat(cap, s, [LoopMoves(true)], [Cancel, SeeCancel, Work]);
    Exec3(cap, Step(cap, s, LoopMoves(true)), Cancel, SeeCancel, Work);
  }

  /**
   * What the stuck lock means for the event loop, exactly: it takes no tick, Ready or stop in any continuation
   * if and only if it is about to take that lock, to set the flag or to churn. The end of the context does
   * not help it then.
   */
  lemma LoopDeadExactly(cap: nat, s: State)
    requires Inv(cap, s) && Stuck(cap, s)
    ensures (forall cs: seq<Choice> :: !Exec(cap, s, cs).loop.Working?) <==> LoopCaught(s)
  {
    if LoopCaught(s) {
      forall cs: seq<Choice> ensures !Exec(cap, s, cs).loop.Working? {
        CaughtForever(cap, s, cs);
      }
    } else {
      BackToWorkWorks(cap, s);
    }
  }

  /** So once the lock is stuck a single Pause or Resume that the loop takes ends the loop for good. */
  lemma RequestKillsLoop(cap: nat, s: State, v: bool, cs: seq<Choice>)
    requires Inv(cap, s) && Stuck(cap, s) && (s.loop.Top? || s.loop.Waiting?)
    ensures !Exec(cap, Step(cap, s, Request(v)), cs).loop.Working?
  {
    StuckStep(cap, s, Request(v));
    StepKeepsInv(cap, s, Request(v));
    CaughtForever(cap, Step(cap, s, Request(v)), cs);
  }

  /**
   * The channel of the code has no capacity. There, in every reachable state, nothing was ever queued or
   * churned, and every sender that reached the channel send is stuck for good.
   */
  lemma UnbufferedQueue(cs: seq<Choice>, id: nat)
    ensures var s := Exec(0, START, cs);
      && s.queue == [] && s.enqueued == [] && s.churned == []
      && (id in s.senders && s.senders[id].pc.Enqueueing? ==> Stuck(0, s) && s.lock == Some(Of(id)))
  {
    Reachable(0, cs);
    NeverEnqueued(cs);
  }

  lemma NothingEnters(s: State, c: Choice)
    ensures Step(0, s, c).enqueued == s.enqueued
  {
  }

  lemma {:induction false} NeverEnqueued(cs: seq<Choice>)
    ensures Exec(0, START, cs).enqueued == []
  {
    if cs != [] {
      NeverEnqueued(cs[..|cs| - 1]);
      NothingEnters(Exec(0, START, cs[..|cs| - 1]), cs[|cs| - 1]);
    }
  }

  // ---------------------------------------------------------------------------------- messages

  /** How often a message occurs. */
  function Times(t: seq<nat>, id: nat): (n: nat) {
    if t == [] then 0 else Times(t[..|t| - 1], id) + if t[|t| - 1] == id then 1 else 0
  }

  lemma {:induction false} TimesNoRepeat(t: seq<nat>, id: nat)
    requires NoRepeat(t)
    ensures Times(t, id) == if id in t then 1 else 0
  {
    if t != [] {
      TimesNoRepeat(t[..|t| - 1], id);
    }
  }

  lemma {:induction false} TimesConcat(a: seq<nat>, b: seq<nat>, id: nat)
    ensures Times(a + b, id) == Times(a, id) + Times(b, id)
  {
    if b == [] {
      assert a + b == a;
    } else {
      assert (a + b)[..|a + b| - 1] == a + b[..|b| - 1];
      TimesConcat(a, b[..|b| - 1], id);
    }
  }

  /** A message still in its sender's hand. */
  predicate InHand(s: State, id: nat) {
    id in s.senders && var pc := s.senders[id].pc; !pc.Enqueued? && !pc.Queued? && !pc.Handed?
  }

  /**
   * Conservation, over all interleavings: a decoded message is once, and only once, in its sender's hand, in
   * the queue, received by churnQueue, handed to Step by it, or handed to Step by send. What was queued is
   * what was churned and then what still waits, in order.
   */
  lemma {:induction false} MessageConservation(cap: nat, cs: seq<Choice>, id: nat)
    requires id in Exec(cap, START, cs).senders
    ensures var s := Exec(cap, START, cs);
      && (if InHand(s, id) then 1 else 0) + Times(s.queue, id) + Times(InLoop(s.loop), id)
         + Times(s.churned, id) + Times(s.direct, id) == 1
      && s.enqueued == s.churned + InLoop(s.loop) + s.queue
  {
    var s := Exec(cap, START, cs);
    Reachable(cap, cs);
    TimesNoRepeat(s.enqueued, id);
    TimesNoRepeat(s.direct, id);
    TimesConcat(s.churned, InLoop(s.loop), id);
    TimesConcat(s.churned + InLoop(s.loop), s.queue, id);
  }

  /** Whoever else moves while the loop is inside churnQueue, the queue and what was handed over stay. */
  lemma OthersLeaveChurn(cap: nat, s: State, c: Choice)
    requires Inv(cap, s) && !c.LoopMoves? && (s.loop.Churning? || s.loop.Stepping? || s.loop.Releasing?)
    ensures var s' := Step(cap, s, c);
      s'.loop == s.loop && s'.queue == s.queue && s'.churned == s.churned && s'.pause == s.pause
  {
  }

  predicate InChurn(pc: LoopPc) {
    pc.Churning? || pc.Stepping? || pc.Releasing?
  }

  /** How far churnQueue got: what it handed over, with the results Step returned. */
  ghost predicate Progress(s0: State, s: State, handed: seq<nat>, oks: seq<bool>) {
    && InChurn(s.loop)
    && s.churned == s0.churned + handed
    && |oks| == |handed|
    && s0.queue == handed + InLoop(s.loop) + s.queue
    && (forall k | 0 <= k < |oks| - 1 :: oks[k])
    && (oks != [] && !oks[|oks| - 1] <==> s.loop == Releasing(true))
    && (s.loop == Releasing(false) ==> s.queue == [])
  }

  /** What Step returned along a run, one result for each message handed over. */
  function StepResults(cap: nat, s: State, cs: seq<Choice>): (oks: seq<bool>) {
    if cs == [] then []
    else
      var init, last := cs[..|cs| - 1], cs[|cs| - 1];
      StepResults(cap, s, init)
      + if last.LoopMoves? && Exec(cap, s, init).loop.Stepping? then [last.ok] else []
  }

  lemma ProgressStep(cap: nat, s0: State, s: State, c: Choice, handed: seq<nat>, oks: seq<bool>)
    returns (handed': seq<nat>)
    requires Inv(cap, s) && Progress(s0, s, handed, oks) && InChurn(Step(cap, s, c).loop)
    ensures Progress(s0, Step(cap, s, c), handed', oks + if c.LoopMoves? && s.loop.Stepping? then [c.ok] else [])
  {
    handed' := handed;
    assert oks + [] == oks;
    if !c.LoopMoves? {
      OthersLeaveChurn(cap, s, c);
    } else if s.loop.Stepping? {
      handed' := handed + [s.loop.m];
      HandedOver(s0, s, c.ok, handed, oks);
    } else if s.loop.Churning? {
      TakenOut(s0, s, c.ok, handed, oks);
    }
  }

  /** The message in the loop's hand goes to Step. */
  lemma HandedOver(s0: State, s: State, ok: bool, handed: seq<nat>, oks: seq<bool>)
    requires Progress(s0, s, handed, oks) && s.loop.Stepping?
    ensures Progress(s0, MoveLoop(s, ok), handed + [s.loop.m], oks + [ok])
  {
    assert s0.queue == (handed + [s.loop.m]) + [] + s.queue;
    assert s0.churned + handed + [s.loop.m] == s0.churned + (handed + [s.loop.m]);
  }

  /** The loop receives the next message, or finds the queue empty. */
  lemma TakenOut(s0: State, s: State, ok: bool, handed: seq<nat>, oks: seq<bool>)
    requires Progress(s0, s, handed, oks) && s.loop.Churning?
    ensures Progress(s0, MoveLoop(s, ok), handed, oks)
  {
    if s.queue != [] {
      assert s.queue == [s.queue[0]] + s.queue[1..];
      assert handed + [] + s.queue == handed + [s.queue[0]] + s.queue[1..];
    }
  }

  lemma {:induction false} ChurnProgress(cap: nat, s: State, cs: seq<Choice>) returns (handed: seq<nat>)
    requires Inv(cap, s) && s.loop.Churning?
    requires forall k | 0 <= k <= |cs| :: InChurn(Exec(cap, s, cs[..k]).loop)
    ensures Inv(cap, Exec(cap, s, cs)) && Progress(s, Exec(cap, s, cs), handed, StepResults(cap, s, cs))
  {
    if cs == [] {
      handed := [];
      assert s.churned == s.churned + [] && s.queue == [] + [] + s.queue;
    } else {
      var init := cs[..|cs| - 1];
      assert cs[..|cs|] == cs && cs[..|init|] == init;
      forall k | 0 <= k <= |init| ensures InChurn(Exec(cap, s, init[..k]).loop) {
        assert init[..k] == cs[..k];
      }
      handed := ChurnProgress(cap, s, init);
      StepKeepsInv(cap, Exec(cap, s, init), cs[|cs| - 1]);
      handed := ProgressStep(cap, s, Exec(cap, s, init), cs[|cs| - 1], handed, StepResults(cap, s, init));
    }
  }

  lemma {:induction false} ChurnedIs(queue: seq<nat>, oks: seq<bool>, handed: seq<nat>, left: seq<nat>, err: bool)
    requires queue == handed + left && |oks| == |handed|
    requires forall k | 0 <= k < |oks| - 1 :: oks[k]
    requires oks != [] && !oks[|oks| - 1] <==> err
    requires !err ==> left == []
    ensures Gate.Churned(queue, oks) == Gate.Churn(handed, left, err)
  {
    if queue != [] {
      assert handed != [];
      assert queue[0] == handed[0] && queue[1..] == handed[1..] + left;
      assert handed == [handed[0]] + handed[1..];
      if oks[0] {
        if |oks| > 1 {
          assert oks[1..][|oks| - 2] == oks[|oks| - 1];
        }
        ChurnedIs(queue[1..], oks[1..], handed[1..], left, err);
      } else {
        assert |oks| == 1 && handed == [queue[0]] && left == queue[1..];
      }
    }
  }

  /**
   * churnQueue is atomic on the queue. From its first look at the queue until it returns, whatever senders,
   * pausers and the context do in between, it does to the queue it found what Churned says of the results
   * Step returned in that run: it hands over a prefix in order, one message for each result, stops at the
   * first failure, which consumes its message, and leaves the rest in order.
   */
  lemma {:induction false} ChurnIsAtomic(cap: nat, s: State, cs: seq<Choice>)
    requires Inv(cap, s) && s.loop.Churning?
    requires forall k | 0 <= k <= |cs| :: InChurn(Exec(cap, s, cs[..k]).loop)
    requires Exec(cap, s, cs).loop.Releasing?
    ensures var s', oks := Exec(cap, s, cs), StepResults(cap, s, cs);
      var churn := Gate.Churned(s.queue, oks);
      && s'.churned == s.churned + churn.handed && s'.queue == churn.left && s'.loop == Releasing(churn.err)
      && |churn.handed| == |oks|
  {
    var handed := ChurnProgress(cap, s, cs);
    ChurnEnds(s, Exec(cap, s, cs), handed, StepResults(cap, s, cs));
  }

  lemma ChurnEnds(s0: State, s: State, handed: seq<nat>, oks: seq<bool>)
    requires Progress(s0, s, handed, oks) && s.loop.Releasing?
    ensures var churn := Gate.Churned(s0.queue, oks);
      && s.churned == s0.churned + churn.handed && s.queue == churn.left && s.loop == Releasing(churn.err)
      && |churn.handed| == |oks|
  {
    assert s0.queue == handed + s.queue;
    ChurnedIs(s0.queue, oks, handed, s.queue, s.loop.err);
  }

  // ---------------------------------------------------------------------------------- drain and isolation

  /**
   * The drain guarantee. At the moment churnQueue unlocks to return nil the queue is empty; and a message found
   * queued while the node is not paused was queued by a sender that read pause before it last went false.
   */
  lemma {:induction false} DrainGuarantee(cap: nat, cs: seq<Choice>)
    ensures var s := Exec(cap, START, cs);
      && (s.loop == Releasing(false) ==> s.queue == [])
      && (forall id | id in s.queue && !s.pause ::
            id in s.senders && s.senders[id].sawEpoch < s.epoch)
  {
    Reachable(cap, cs);
    var s := Exec(cap, START, cs);
    forall id | id in s.queue && !s.pause ensures id in s.senders && s.senders[id].sawEpoch < s.epoch {
      assert id in s.enqueued;
    }
  }

  lemma {:induction false} ExecConcat(cap: nat, s: State, a: seq<Choice>, b: seq<Choice>)
    ensures Exec(cap, s, a + b) == Exec(cap, Exec(cap, s, a), b)
  {
    if b == [] {
      assert a + b == a;
    } else {
      assert (a + b)[..|a + b| - 1] == a + b[..|b| - 1];
      ExecConcat(cap, s, a, b[..|b| - 1]);
    }
  }

  /**
   * Pause isolation, up to the end of the context: while pause is true the loop is inside doPause, so no
   * tick, Ready, store, apply or stop happens, and none can begin.
   */
  lemma {:induction false} PauseIsolation(cap: nat, cs: seq<Choice>)
    ensures var s := Exec(cap, START, cs);
      s.pause && !s.cancelled ==> Pausing(s.loop) && Step(cap, s, Work) == s
  {
    Reachable(cap, cs);
  }

  /**
   * Only the event loop writes pause, and only while it holds the lock: so at waitPause's unlocked read no
   * write is under way, and no choice of anyone else can change what it reads.
   */
  lemma {:induction false} OnlyTheLoopWrites(cap: nat, cs: seq<Choice>, c: Choice)
    ensures var s := Exec(cap, START, cs);
      Step(cap, s, c).pause != s.pause ==> c.LoopMoves? && s.loop.Writing? && s.lock == Some(Loop)
  {
    Reachable(cap, cs);
  }

  /** A paused node gets back to work still paused by one step only: waitPause takes the end of the context. */
  lemma IsolationEnds(cap: nat, s: State, c: Choice)
    requires Isolated(s) && (s.loop.Waiting? ==> s.pause)
    ensures !Isolated(Step(cap, s, c)) <==> TakesTheEnd(s, c)
  {
  }

  /** waitPause takes ctx.Done. */
  predicate TakesTheEnd(s: State, c: Choice) {
    c.SeeCancel? && s.loop.Waiting? && s.cancelled
  }

  /** waitPause waits only while the flag is true. */
  lemma {:induction false} WaitingIsPaused(cap: nat, cs: seq<Choice>)
    ensures Exec(cap, START, cs).loop.Waiting? ==> Exec(cap, START, cs).pause
  {
    if cs != [] {
      WaitingIsPaused(cap, cs[..|cs| - 1]);
      WaitingStep(cap, Exec(cap, START, cs[..|cs| - 1]), cs[|cs| - 1]);
    }
  }

  lemma WaitingStep(cap: nat, s: State, c: Choice)
    requires s.loop.Waiting? ==> s.pause
    ensures Step(cap, s, c).loop.Waiting? ==> Step(cap, s, c).pause
  {
  }

  predicate Isolated(s: State) {
    s.pause ==> Pausing(s.loop)
  }

  /** At some moment of a run: the node is isolated, and waitPause takes the end of the context. */
  predicate IsolatedAt(cap: nat, cs: seq<Choice>, k: nat)
    requires k <= |cs|
  {
    Isolated(Exec(cap, START, cs[..k]))
  }

  predicate EndTakenAt(cap: nat, cs: seq<Choice>, k: nat)
    requires k < |cs|
  {
    TakesTheEnd(Exec(cap, START, cs[..k]), cs[k])
  }

  lemma SameMoments(cap: nat, cs: seq<Choice>, k: nat)
    requires k < |cs|
    ensures IsolatedAt(cap, cs[..|cs| - 1], k) <==> IsolatedAt(cap, cs, k)
    ensures k < |cs| - 1 ==> (EndTakenAt(cap, cs[..|cs| - 1], k) <==> EndTakenAt(cap, cs, k))
  {
    assert cs[..|cs| - 1][..k] == cs[..k];
  }

  lemma LastMoment(cap: nat, cs: seq<Choice>)
    requires cs != [] && IsolatedAt(cap, cs, |cs| - 1)
    ensures IsolatedAt(cap, cs, |cs|) <==> !EndTakenAt(cap, cs, |cs| - 1)
  {
    assert cs[..|cs|] == cs;
    WaitingIsPaused(cap, cs[..|cs| - 1]);
    IsolationEnds(cap, Exec(cap, START, cs[..|cs| - 1]), cs[|cs| - 1]);
  }

  /**
   * Isolation over runs, exactly: at every moment of a run the flag is true only inside doPause, if and only
   * if at none of them waitPause takes the end of the context.
   */
  lemma {:induction false} IsolationExactly(cap: nat, cs: seq<Choice>)
    ensures (forall k | 0 <= k <= |cs| :: IsolatedAt(cap, cs, k))
       <==> (forall k | 0 <= k < |cs| :: !EndTakenAt(cap, cs, k))
  {
    if cs == [] {
      assert cs[..0] == [];
    } else {
      var n := |cs| - 1;
      IsolationExactly(cap, cs[..n]);
      forall k | 0 <= k <= n
        ensures IsolatedAt(cap, cs[..n], k) <==> IsolatedAt(cap, cs, k)
        ensures k < n ==> (EndTakenAt(cap, cs[..n], k) <==> EndTakenAt(cap, cs, k))
      {
        SameMoments(cap, cs, k);
      }
      if IsolatedAt(cap, cs, n) {
        LastMoment(cap, cs);
      }
    }
  }
}
