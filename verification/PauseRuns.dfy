/** Runs of pausing, sending and churning that show what can go wrong. */
module PauseRuns {
  import opened Common
  import opened PauseProtocol
  import opened PauseProperties

  /** setPaused, and the loop condition of waitPause after it. */
  const SETTLE := [LoopMoves(true), LoopMoves(true)] + [LoopMoves(true), LoopMoves(true)]

  lemma Settles(cap: nat, s: State, v: bool)
    requires s.loop == Setting(v) && s.lock.None?
    ensures Exec(cap, s, SETTLE) == s.(pause := v, epoch := if s.pause && !v then s.epoch + 1 else s.epoch,
                                       loop := if v then Waiting else ToChurn)
  {
    var s2 := s.(lock := Some(Loop), loop := Writing(v));
    var s3 := s2.(pause := v, epoch := if s.pause && !v then s.epoch + 1 else s.epoch, loop := Written);
    assert Step(cap, s, LoopMoves(true)) == s2;
    assert Step(cap, s2, LoopMoves(true)) == s3;
    Exec2(cap, s, LoopMoves(true), LoopMoves(true));
    ExecConcat(cap, s, [LoopMoves(true), LoopMoves(true)], [LoopMoves(true), LoopMoves(true)]);
    var s4 := s3.(lock := None, loop := Rereading);
    assert Step(cap, s3, LoopMoves(true)) == s4;
    Exec2(cap, s3, LoopMoves(true), LoopMoves(true));
  }

  /** The loop takes a request, sets pause to its value and reads it again. */
  function Set(v: bool): (cs: seq<Choice>) {
    [Request(v)] + SETTLE
  }

  lemma SetRuns(cap: nat, s: State, v: bool)
    requires (s.loop.Top? || s.loop.Waiting?) && s.lock.None?
    ensures Exec(cap, s, Set(v)) == s.(pause := v, epoch := if s.pause && !v then s.epoch + 1 else s.epoch,
                                       loop := if v then Waiting else ToChurn)
  {
    Exec1(cap, s, Request(v));
    ExecConcat(cap, s, [Request(v)], SETTLE);
    Settles(cap, s.(loop := Setting(v)), v);
  }

  /** A sender arrives, takes the lock and reads pause. */
  function Gap(id: nat): (cs: seq<Choice>) {
    [Arrive(id), SenderMoves(id), SenderMoves(id)]
  }

  lemma GapRuns(cap: nat, s: State, id: nat)
    requires s.pause && s.lock.None? && id !in s.senders
    ensures Exec(cap, s, Gap(id)) == s.(senders := s.senders[id := Sender(SawPaused, s.epoch)])
  {
    var s1 := s.(senders := s.senders[id := Sender(Decoded, 0)]);
    var s2 := s.(lock := Some(Of(id)), senders := s.senders[id := Sender(Checking, 0)]);
    assert Step(cap, s, Arrive(id)) == s1;
    assert Step(cap, s1, SenderMoves(id)) == s2;
    Exec3(cap, s, Arrive(id), SenderMoves(id), SenderMoves(id));
  }

  /** A sender past its check locks, queues and unlocks. */
  function Late(id: nat): (cs: seq<Choice>) {
    [SenderMoves(id), SenderMoves(id), SenderMoves(id)]
  }

  /** From the gap after its check, a sender queues whatever pause has become meanwhile. */
  lemma LateQueueing(cap: nat, s: State, id: nat)
    requires id in s.senders && s.senders[id].pc.SawPaused? && s.lock.None? && |s.queue| < cap
    ensures var s' := Exec(cap, s, Late(id));
      && s'.queue == s.queue + [id] && s'.lock.None? && s'.loop == s.loop && s'.pause == s.pause
      && s'.senders.Keys == s.senders.Keys
  {
    Exec3(cap, s, SenderMoves(id), SenderMoves(id), SenderMoves(id));
  }

  // ---------------------------------------------------------------------------------- the stuck lock

  /** The node is paused, the lock is free, and as many senders as given have come and queued. */
  ghost predicate Holding(s: State, n: nat) {
    s.pause && s.lock.None? && |s.queue| == n && forall id | id in s.senders :: id < n
  }

  /** One pause is enough to fill the queue as far as it goes. */
  lemma {:induction false} Fills(cap: nat, n: nat) returns (cs: seq<Choice>)
    requires n <= cap
    ensures Holding(Exec(cap, START, cs), n)
  {
    if n == 0 {
      cs := Set(true);
      SetRuns(cap, START, true);
    } else {
      var before := Fills(cap, n - 1);
      cs := before + Gap(n - 1) + Late(n - 1);
      var s := Exec(cap, START, before);
      GapRuns(cap, s, n - 1);
      ExecConcat(cap, START, before, Gap(n - 1));
      ExecConcat(cap, START, before + Gap(n - 1), Late(n - 1));
      LateQueueing(cap, Exec(cap, s, Gap(n - 1)), n - 1);
    }
  }

  /** Whatever the capacity, the stuck lock happens: one sender more than the queue holds, in one pause. */
  lemma {:induction false} StuckHappens(cap: nat)
    ensures exists cs :: Stuck(cap, Exec(cap, START, cs))
  {
    var before := Fills(cap, cap);
    var s := Exec(cap, START, before);
    GapRuns(cap, s, cap);
    ExecConcat(cap, START, before, Gap(cap));
    ExecConcat(cap, START, before + Gap(cap), [SenderMoves(cap)]);
    Exec1(cap, Exec(cap, s, Gap(cap)), SenderMoves(cap));
    assert Stuck(cap, Exec(cap, START, before + Gap(cap) + [SenderMoves(cap)]));
  }

  // ---------------------------------------------------------------------------------- stragglers and the context

  /** churnQueue on an empty queue. */
  const CHURN := [LoopMoves(true), LoopMoves(true), LoopMoves(true)]

  lemma ChurnRuns(cap: nat, s: State)
    requires s.loop.ToChurn? && s.lock.None? && s.queue == []
    ensures Exec(cap, s, CHURN) == s.(loop := Top)
  {
    var s1 := s.(lock := Some(Loop), loop := Churning);
    assert Step(cap, s, CHURN[0]) == s1;
    assert Step(cap, s1, CHURN[1]) == s1.(loop := Releasing(false));
    Exec3(cap, s, CHURN[0], CHURN[1], CHURN[2]);
  }

  /**
   * A straggler does occur: after this run churnQueue is over, the node is not paused, and the message of
   * a sender that read true before is queued with nothing to drain it.
   */
  lemma StragglerStays()
    ensures var s := Exec(1, START, Set(true) + Gap(7) + Set(false) + CHURN + Late(7));
      s.loop == Top && !s.pause && s.lock == None && s.queue == [7]
  {
    var p1, p2 := Set(true), Set(true) + Gap(7);
    var p3, p4 := p2 + Set(false), p2 + Set(false) + CHURN;
    SetRuns(1, START, true);
    ExecConcat(1, START, p1, Gap(7));
    GapRuns(1, Exec(1, START, p1), 7);
    ExecConcat(1, START, p2, Set(false));
    SetRuns(1, Exec(1, START, p2), false);
    ExecConcat(1, START, p3, CHURN);
    ChurnRuns(1, Exec(1, START, p3));
    ExecConcat(1, START, p4, Late(7));
    LateQueueing(1, Exec(1, START, p4), 7);
  }

  /** Past the end of the context isolation fails: waitPause returns with pause still true and work goes on. */
  lemma CancelLeavesPaused(cap: nat)
    ensures var s := Exec(cap, START, Set(true) + [Cancel, SeeCancel, Work]); s.pause && s.loop.Working?
  {
    SetRuns(cap, START, true);
    ExecConcat(cap, START, Set(true), [Cancel, SeeCancel, Work]);
    Exec3(cap, Exec(cap, START, Set(true)), Cancel, SeeCancel, Work);
  }
}
