/** What becomes of a call of send on a running node, and which way each call goes. */
module DirectSends {
  import opened Common
  import opened PauseProtocol
  import opened PauseProperties

  /** A sender that read the flag as false, about to hand its message to raft. */
  predicate HandsHere(s: State, c: Choice) {
    c.SenderMoves? && c.id in s.senders && s.senders[c.id].pc.SawRunning?
  }

  /** The message goes to raft's Step, once, and the call is over; nothing else moves. */
  lemma RunningSendSteps(cap: nat, s: State, id: nat)
    requires id in s.senders && s.senders[id].pc.SawRunning?
    ensures var s' := Step(cap, s, SenderMoves(id));
      && s'.direct == s.direct + [id] && s'.senders[id].pc.Handed?
      && s' == s.(direct := s'.direct, senders := s.senders[id := s'.senders[id]])
  {
  }

  lemma StepDirect(cap: nat, s: State, c: Choice)
    ensures Step(cap, s, c).direct == s.direct + if HandsHere(s, c) then [c.id] else []
  {
  }

  /** The senders of a run that moved after reading the flag as false, in order. */
  function HandedAlong(cap: nat, cs: seq<Choice>): (ids: seq<nat>) {
    if cs == [] then []
    else
      var init, last := cs[..|cs| - 1], cs[|cs| - 1];
      HandedAlong(cap, init) + if HandsHere(Exec(cap, START, init), last) then [last.id] else []
  }

  /** Over runs: what raft's Step got from send is exactly the messages of these senders, in their order. */
  lemma {:induction false} DirectExactly(cap: nat, cs: seq<Choice>)
    ensures Exec(cap, START, cs).direct == HandedAlong(cap, cs)
  {
    if cs != [] {
      DirectExactly(cap, cs[..|cs| - 1]);
      StepDirect(cap, Exec(cap, START, cs[..|cs| - 1]), cs[|cs| - 1]);
    }
  }

  // ---------------------------------------------------------------------------------- which way a call goes

  /** A sender reads the flag. */
  predicate ReadsHere(s: State, c: Choice, id: nat, flag: bool) {
    c == SenderMoves(id) && id in s.senders && s.senders[id].pc.Checking? && s.pause == flag
  }

  /** Whether a sender is on the path for what it read: to raft for false, to the queue for true. */
  predicate OnPath(s: State, id: nat, flag: bool) {
    id in s.senders &&
    var pc := s.senders[id].pc;
    if flag then pc.SawPaused? || pc.Enqueueing? || pc.Enqueued? || pc.Queued? else pc.SawRunning? || pc.Handed?
  }

  lemma PathStep(cap: nat, s: State, c: Choice, id: nat, flag: bool)
    ensures OnPath(Step(cap, s, c), id, flag) <==> OnPath(s, id, flag) || ReadsHere(s, c, id, flag)
  {
    match c
    case SenderMoves(j) =>
      if j in s.senders {
        PathMove(cap, s, j, id, flag);
      }
    case LoopMoves(ok) => LoopLeavesSenders(s, ok);
    case _ =>
  }

  lemma PathMove(cap: nat, s: State, j: nat, id: nat, flag: bool)
    requires j in s.senders
    ensures OnPath(MoveSender(cap, s, j), id, flag)
       <==> OnPath(s, id, flag) || ReadsHere(s, SenderMoves(j), id, flag)
  {
  }

  lemma LoopLeavesSenders(s: State, ok: bool)
    ensures MoveLoop(s, ok).senders == s.senders
  {
  }

  predicate ReadsAt(cap: nat, cs: seq<Choice>, k: nat, id: nat, flag: bool)
    requires k < |cs|
  {
    ReadsHere(Exec(cap, START, cs[..k]), cs[k], id, flag)
  }

  /** Over runs: a sender is on the path for a value exactly when at some moment it read the flag as that. */
  lemma {:induction false} PathExactly(cap: nat, cs: seq<Choice>, id: nat, flag: bool)
    ensures OnPath(Exec(cap, START, cs), id, flag) <==> exists k :: 0 <= k < |cs| && ReadsAt(cap, cs, k, id, flag)
  {
    if cs != [] {
      var n := |cs| - 1;
      PathExactly(cap, cs[..n], id, flag);
      PathStep(cap, Exec(cap, START, cs[..n]), cs[n], id, flag);
      forall k | 0 <= k < n ensures ReadsAt(cap, cs[..n], k, id, flag) <==> ReadsAt(cap, cs, k, id, flag) {
        assert cs[..n][..k] == cs[..k];
      }
      if k :| 0 <= k < n && ReadsAt(cap, cs[..n], k, id, flag) {
        assert ReadsAt(cap, cs, k, id, flag);
      }
      if ReadsHere(Exec(cap, START, cs[..n]), cs[n], id, flag) {
        assert ReadsAt(cap, cs, n, id, flag);
      }
    }
  }

  /** A call that finds the lock free and the node running ends at raft. */
  lemma RunningSend(cap: nat, s: State, id: nat)
    requires !s.pause && s.lock.None? && id !in s.senders
    ensures var s' := Exec(cap, s, [Arrive(id), SenderMoves(id), SenderMoves(id)] + [SenderMoves(id)]);
      && s'.direct == s.direct + [id] && id in s'.senders && s'.senders[id].pc.Handed? && s'.lock.None?
      && s'.queue == s.queue && s'.pause == s.pause && s'.loop == s.loop
  {
    var s1 := s.(senders := s.senders[id := Sender(Decoded, 0)]);
    var s2 := s.(lock := Some(Of(id)), senders := s.senders[id := Sender(Checking, 0)]);
    assert Step(cap, s, Arrive(id)) == s1;
    assert Step(cap, s1, SenderMoves(id)) == s2;
    Exec3(cap, s, Arrive(id), SenderMoves(id), SenderMoves(id));
    ExecConcat(cap, s, [Arrive(id), SenderMoves(id), SenderMoves(id)], [SenderMoves(id)]);
    var s3 := Step(cap, s2, SenderMoves(id));
    assert s3 == s.(senders := s.senders[id := Sender(SawRunning, s.epoch)]);
    Exec1(cap, s3, SenderMoves(id));
    RunningSendSteps(cap, s3, id);
  }
}
