/** When a drained queue can fill again although nobody pauses the node, and what becomes of it then. */
module Stragglers {
  import opened Common
  import opened PauseProtocol
  import PauseProperties
  import PauseRuns

  /** Runs in which no pause request is taken. */
  ghost predicate NoRequest(cs: seq<Choice>) {
    forall k | 0 <= k < |cs| :: !cs[k].Request?
  }

  /** The node runs: it is not paused and the loop is not in doPause. */
  ghost predicate Running(s: State) {
    !s.pause && (s.loop.Top? || s.loop.Working?)
  }

  /** A sender that read pause as true and has not queued yet. */
  predicate OnItsWay(pc: SenderPc) {
    pc.SawPaused? || pc.Enqueueing?
  }

  ghost predicate NobodyOnItsWay(s: State) {
    forall id | id in s.senders :: !OnItsWay(s.senders[id].pc)
  }

  lemma QuietStep(cap: nat, s: State, c: Choice)
    requires Running(s) && !c.Request?
    ensures Running(Step(cap, s, c)) && s.queue <= Step(cap, s, c).queue
    ensures NobodyOnItsWay(s) ==> NobodyOnItsWay(Step(cap, s, c)) && Step(cap, s, c).queue == s.queue
  {
  }

  /** A running node that nobody pauses never takes anything out of its queue. */
  lemma {:induction false} QuietRun(cap: nat, s: State, cs: seq<Choice>)
    requires Running(s) && NoRequest(cs)
    ensures Running(Exec(cap, s, cs)) && s.queue <= Exec(cap, s, cs).queue
    ensures NobodyOnItsWay(s) ==> NobodyOnItsWay(Exec(cap, s, cs)) && Exec(cap, s, cs).queue == s.queue
  {
    if cs != [] {
      QuietRun(cap, s, cs[..|cs| - 1]);
      QuietStep(cap, Exec(cap, s, cs[..|cs| - 1]), cs[|cs| - 1]);
    }
  }

  /** The choice by which a sender at the lock, with room in the queue, gets on. */
  lemma HolderMoves(cap: nat, s: State, j: nat)
    requires Inv(cap, s) && Running(s) && s.lock == Some(Of(j)) && !s.senders[j].pc.Enqueueing?
    ensures var s' := Step(cap, s, SenderMoves(j));
      s'.lock.None? && Running(s') && s'.queue == s.queue && s'.senders.Keys == s.senders.Keys
    ensures forall id | id in s.senders && id != j :: Step(cap, s, SenderMoves(j)).senders[id] == s.senders[id]
  {
  }

  lemma EnqueueingQueues(cap: nat, s: State, id: nat)
    requires id in s.senders && s.senders[id].pc.Enqueueing? && |s.queue| < cap
    ensures Exec(cap, s, [SenderMoves(id)]).queue == s.queue + [id]
  {
    PauseProperties.Exec1(cap, s, SenderMoves(id));
  }

  /** A sender on its way can queue: once whoever holds the lock has moved, if not before. */
  lemma CanFill(cap: nat, s: State, id: nat) returns (cs: seq<Choice>)
    requires Inv(cap, s) && Running(s) && |s.queue| < cap && id in s.senders && OnItsWay(s.senders[id].pc)
    ensures NoRequest(cs) && |Exec(cap, s, cs).queue| > |s.queue|
  {
    if s.senders[id].pc.Enqueueing? {
      cs := [SenderMoves(id)];
      EnqueueingQueues(cap, s, id);
    } else if s.lock.None? {
      cs := PauseRuns.Late(id);
      PauseRuns.LateQueueing(cap, s, id);
    } else {
      var j := s.lock.value.id;
      if s.senders[j].pc.Enqueueing? {
        cs := [SenderMoves(j)];
        EnqueueingQueues(cap, s, j);
      } else {
        HolderMoves(cap, s, j);
        cs := [SenderMoves(j)] + PauseRuns.Late(id);
        PauseProperties.Exec1(cap, s, SenderMoves(j));
        PauseProperties.ExecConcat(cap, s, [SenderMoves(j)], PauseRuns.Late(id));
        PauseRuns.LateQueueing(cap, Step(cap, s, SenderMoves(j)), id);
      }
    }
  }

  /**
   * Stragglers, exactly. On a running node with a drained queue that has room, the queue stays empty in every
   * continuation without a pause request if and only if no sender is past a check that read pause as true.
   */
  lemma StaysDrained(cap: nat, s: State)
    requires Inv(cap, s) && cap > 0 && Running(s) && s.queue == []
    ensures (forall cs | NoRequest(cs) :: Exec(cap, s, cs).queue == []) <==> NobodyOnItsWay(s)
  {
    if NobodyOnItsWay(s) {
      forall cs | NoRequest(cs) ensures Exec(cap, s, cs).queue == [] {
        QuietRun(cap, s, cs);
      }
    } else {
      var id :| id in s.senders && OnItsWay(s.senders[id].pc);
      var cs := CanFill(cap, s, id);
      assert NoRequest(cs) && Exec(cap, s, cs).queue != [];
    }
  }

  /** And a message that waits on a running node waits until somebody pauses it, at the same place. */
  lemma StragglerWaits(cap: nat, s: State, cs: seq<Choice>, p: nat)
    requires Running(s) && NoRequest(cs) && p < |s.queue|
    ensures p < |Exec(cap, s, cs).queue| && Exec(cap, s, cs).queue[p] == s.queue[p]
  {
    QuietRun(cap, s, cs);
  }
}
