/**
 * Pausing, sending and churning (raft/node.go, raft/capnp.go) as a concurrent system: the event loop, any
 * number of send callers, and pause requests from anywhere, interleaved step by step. The gap in send between
 * IsPaused and Lock is a step of its own. A choice that is not enabled changes nothing.
 */
module PauseProtocol {
  import opened Common

  /** A send call; its id stands for its message. */
  datatype SenderPc =
    | Decoded      // about to lock for IsPaused
    | Checking     // holds the lock, about to read pause
    | SawPaused    // read true and unlocked; about to lock again
    | Enqueueing   // holds the lock, at the channel send
    | Enqueued     // sent, about to unlock
    | Queued       // returned after queueing
    | SawRunning   // read false; about to step
    | Handed       // returned after stepping

  /** The epoch is that of the pause flag when the sender read it. */
  datatype Sender = Sender(pc: SenderPc, sawEpoch: nat)

  datatype LoopPc =
    | Top                    // at the select of Start
    | Working                // in a tick, a doReady or a stop
    | Setting(v: bool)       // in setPaused, about to lock
    | Writing(v: bool)       // holds the lock, about to write pause
    | Written                // wrote it, about to unlock
    | Rereading              // at the loop condition of waitPause, which reads pause without the lock
    | Waiting                // at the select of waitPause
    | ToChurn                // in churnQueue, about to lock
    | Churning               // holds the lock, at the loop condition
    | Stepping(m: nat)       // holds the lock and a message received, about to step it
    | Releasing(err: bool)   // holds the lock, about to return

  datatype Owner = Loop | Of(id: nat)

  datatype State = State(
    pause: bool,
    lock: Option<Owner>,
    queue: seq<nat>,
    loop: LoopPc,
    senders: map<nat, Sender>,
    cancelled: bool,         // the context is done
    epoch: nat,              // how often pause went from true to false
    enqueued: seq<nat>,      // messages ever queued, in order
    churned: seq<nat>,       // messages churnQueue handed to Step, in order
    direct: seq<nat>)        // messages send handed to Step itself

  const START := State(false, None, [], Top, map[], false, 0, [], [], [])

  datatype Choice =
    | Arrive(id: nat)        // a message was decoded
    | SenderMoves(id: nat)
    | Work                   // a tick, Ready or stop is taken at Top, or done with
    | Request(v: bool)       // a pause request is taken
    | LoopMoves(ok: bool)    // the loop's next own step; ok is what Raft.Step returns
    | Cancel
    | SeeCancel              // waitPause takes ctx.Done

  function MoveSender(cap: nat, s: State, id: nat): (s': State)
    requires id in s.senders
  {
    var me := s.senders[id];
    match me.pc
    case Decoded =>
      if s.lock.None? then s.(lock := Some(Of(id)), senders := s.senders[id := me.(pc := Checking)]) else s
    case Checking =>
      s.(lock := None,
         senders := s.senders[id := Sender(if s.pause then SawPaused else SawRunning, s.epoch)])
    case SawPaused =>
      if s.lock.None? then s.(lock := Some(Of(id)), senders := s.senders[id := me.(pc := Enqueueing)]) else s
    case Enqueueing =>
      if |s.queue| < cap then
        s.(queue := s.queue + [id], enqueued := s.enqueued + [id],
           senders := s.senders[id := me.(pc := Enqueued)])
      else s
    case Enqueued => s.(lock := None, senders := s.senders[id := me.(pc := Queued)])
    case SawRunning => s.(direct := s.direct + [id], senders := s.senders[id := me.(pc := Handed)])
    case _ => s
  }

  function MoveLoop(s: State, ok: bool): (s': State) {
    match s.loop
    case Setting(v) => if s.lock.None? then s.(lock := Some(Loop), loop := Writing(v)) else s
    case Writing(v) =>
      s.(pause := v, epoch := if s.pause && !v then s.epoch + 1 else s.epoch, loop := Written)
    case Written => s.(lock := None, loop := Rereading)
    case Rereading => s.(loop := if s.pause then Waiting else ToChurn)
    case ToChurn => if s.lock.None? then s.(lock := Some(Loop), loop := Churning) else s
    case Churning =>
      if s.queue == [] then s.(loop := Releasing(false))
      else s.(queue := s.queue[1..], loop := Stepping(s.queue[0]))
    case Stepping(m) => s.(churned := s.churned + [m], loop := if ok then Churning else Releasing(true))
    case Releasing(_) => s.(lock := None, loop := Top)
    case _ => s
  }

  function Step(cap: nat, s: State, c: Choice): (s': State) {
    match c
    case Arrive(id) => if id in s.senders then s else s.(senders := s.senders[id := Sender(Decoded, 0)])
    case SenderMoves(id) => if id in s.senders then MoveSender(cap, s, id) else s
    case Work => if s.loop.Top? then s.(loop := Working) else if s.loop.Working? then s.(loop := Top) else s
    case Request(v) => if s.loop.Top? || s.loop.Waiting? then s.(loop := Setting(v)) else s
    case LoopMoves(ok) => MoveLoop(s, ok)
    case Cancel => s.(cancelled := true)
    case SeeCancel => if s.loop.Waiting? && s.cancelled then s.(loop := Top) else s
  }

  function Exec(cap: nat, s: State, cs: seq<Choice>): (s': State) {
    if cs == [] then s else Step(cap, Exec(cap, s, cs[..|cs| - 1]), cs[|cs| - 1])
  }

  // ---------------------------------------------------------------------------------- invariant

  predicate SenderHolds(pc: SenderPc) { pc.Checking? || pc.Enqueueing? || pc.Enqueued? }

  predicate LoopHolds(pc: LoopPc) {
    pc.Writing? || pc.Written? || pc.Churning? || pc.Stepping? || pc.Releasing?
  }

  /** The message the loop has received and not yet handed over. */
  function InLoop(pc: LoopPc): (ids: seq<nat>) {
    if pc.Stepping? then [pc.m] else []
  }

  predicate Pausing(pc: LoopPc) {
    pc.Setting? || pc.Writing? || pc.Written? || pc.Rereading? || pc.Waiting?
  }

  ghost predicate NoRepeat(t: seq<nat>) {
    forall i, j | 0 <= i < j < |t| :: t[i] != t[j]
  }

  /** The lock's owner is the one process inside a locked section. */
  ghost predicate Mutex(s: State) {
    && (s.lock == Some(Loop) <==> LoopHolds(s.loop))
    && (forall id | id in s.senders :: SenderHolds(s.senders[id].pc) <==> s.lock == Some(Of(id)))
    && (s.lock.Some? && s.lock.value.Of? ==> s.lock.value.id in s.senders)
  }

  /** Every message is where its sender's progress says, and nowhere twice. */
  ghost predicate Conserved(s: State) {
    && s.enqueued == s.churned + InLoop(s.loop) + s.queue
    && NoRepeat(s.enqueued) && NoRepeat(s.direct)
    && (forall id | id in s.senders ::
          && (id in s.enqueued <==> s.senders[id].pc.Enqueued? || s.senders[id].pc.Queued?)
          && (id in s.direct <==> s.senders[id].pc.Handed?))
    && (forall id | id in s.enqueued || id in s.direct :: id in s.senders)
  }

  /** Senders on the queueing path read pause as true, and before it last went false. */
  ghost predicate ReadBeforeUnpause(s: State) {
    forall id | id in s.senders ::
      var me := s.senders[id];
      me.pc.SawPaused? || me.pc.Enqueueing? || me.pc.Enqueued? || me.pc.Queued?
      ==> me.sawEpoch <= s.epoch && (!s.pause ==> me.sawEpoch < s.epoch)
  }

  ghost predicate Inv(cap: nat, s: State) {
    && Mutex(s)
    && Conserved(s)
    && ReadBeforeUnpause(s)
    && LoopPlace(cap, s)
  }

  /** The queue keeps its capacity, pausing has its places, and a clean return from churnQueue leaves nothing. */
  ghost predicate LoopPlace(cap: nat, s: State) {
    && |s.queue| <= cap
    && (s.pause && !s.cancelled ==> Pausing(s.loop))
    && (s.loop == Releasing(false) ==> s.queue == [])
  }

  lemma AppendNew(t: seq<nat>, id: nat)
    requires NoRepeat(t) && id !in t
    ensures NoRepeat(t + [id]) && forall x :: x in t + [id] <==> x in t || x == id
  {
  }

  lemma SenderKeepsMutex(cap: nat, s: State, id: nat)
    requires Mutex(s) && id in s.senders
    ensures Mutex(MoveSender(cap, s, id))
  {
  }

  lemma SenderKeepsConserved(cap: nat, s: State, id: nat)
    requires Conserved(s) && id in s.senders
    ensures Conserved(MoveSender(cap, s, id))
  {
    var pc := s.senders[id].pc;
    if pc.Enqueueing? && |s.queue| < cap {
      AppendNew(s.enqueued, id);
      assert s.churned + InLoop(s.loop) + s.queue + [id] == s.churned + InLoop(s.loop) + (s.queue + [id]);
    } else if pc.SawRunning? {
      AppendNew(s.direct, id);
    }
  }

  lemma SenderKeepsInv(cap: nat, s: State, id: nat)
    requires Inv(cap, s) && id in s.senders
    ensures Inv(cap, MoveSender(cap, s, id))
  {
    SenderKeepsMutex(cap, s, id);
    SenderKeepsConserved(cap, s, id);
    SenderKeepsReading(cap, s, id);
    SenderKeepsPlace(cap, s, id);
  }

  lemma SenderKeepsReading(cap: nat, s: State, id: nat)
    requires ReadBeforeUnpause(s) && id in s.senders
    ensures ReadBeforeUnpause(MoveSender(cap, s, id))
  {
  }

  /** The loop returns from churnQueue holding the lock, so no sender can queue meanwhile. */
  lemma SenderKeepsPlace(cap: nat, s: State, id: nat)
    requires Mutex(s) && LoopPlace(cap, s) && id in s.senders
    ensures LoopPlace(cap, MoveSender(cap, s, id))
  {
  }

  lemma LoopKeepsMutex(s: State, ok: bool)
    requires Mutex(s)
    ensures Mutex(MoveLoop(s, ok))
  {
  }

  /** The loop moves messages from the queue through its hand, and leaves everything else of them alone. */
  lemma LoopMovesMessages(s: State, ok: bool)
    requires s.enqueued == s.churned + InLoop(s.loop) + s.queue
    ensures var s' := MoveLoop(s, ok);
      && s'.enqueued == s'.churned + InLoop(s'.loop) + s'.queue
      && s'.enqueued == s.enqueued && s'.direct == s.direct && s'.senders == s.senders
  {
    if s.loop.Churning? && s.queue != [] {
      assert s.queue == [s.queue[0]] + s.queue[1..];
      assert s.churned + [] + s.queue == s.churned + [s.queue[0]] + s.queue[1..];
    } else if s.loop.Stepping? {
      assert s.churned + [s.loop.m] + s.queue == s.churned + [s.loop.m] + [] + s.queue;
    }
  }

  lemma SameMessagesConserved(s: State, s': State)
    requires Conserved(s) && s'.enqueued == s'.churned + InLoop(s'.loop) + s'.queue
    requires s'.enqueued == s.enqueued && s'.direct == s.direct && s'.senders == s.senders
    ensures Conserved(s')
  {
  }

  lemma LoopKeepsReading(s: State, ok: bool)
    requires ReadBeforeUnpause(s)
    ensures ReadBeforeUnpause(MoveLoop(s, ok))
  {
  }

  lemma LoopKeepsPlace(cap: nat, s: State, ok: bool)
    requires LoopPlace(cap, s)
    ensures LoopPlace(cap, MoveLoop(s, ok))
  {
  }

  lemma LoopKeepsInv(cap: nat, s: State, ok: bool)
    requires Inv(cap, s)
    ensures Inv(cap, MoveLoop(s, ok))
  {
    LoopKeepsMutex(s, ok);
    LoopMovesMessages(s, ok);
    SameMessagesConserved(s, MoveLoop(s, ok));
    LoopKeepsReading(s, ok);
    LoopKeepsPlace(cap, s, ok);
  }

  lemma {:induction false} StepKeepsInv(cap: nat, s: State, c: Choice)
    requires Inv(cap, s)
    ensures Inv(cap, Step(cap, s, c))
  {
    match c
    case SenderMoves(id) =>
      if id in s.senders {
        SenderKeepsInv(cap, s, id);
      }
    case LoopMoves(ok) => LoopKeepsInv(cap, s, ok);
    case _ =>
  }

  lemma {:induction false} RunsKeepInv(cap: nat, s: State, cs: seq<Choice>)
    requires Inv(cap, s)
    ensures Inv(cap, Exec(cap, s, cs))
  {
    if cs != [] {
      RunsKeepInv(cap, s, cs[..|cs| - 1]);
      StepKeepsInv(cap, Exec(cap, s, cs[..|cs| - 1]), cs[|cs| - 1]);
    }
  }

  lemma {:induction false} Reachable(cap: nat, cs: seq<Choice>)
    ensures Inv(cap, Exec(cap, START, cs))
  {
    RunsKeepInv(cap, START, cs);
  }
}
