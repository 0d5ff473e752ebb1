/** The pause flag and the queue of a node, as one caller at a time uses them (raft/node.go, raft/capnp.go). */
module Gate {
  import opened Common
  import opened RaftTypes

  /** What reaches waitPause while it waits: a pause request, or the end of the context. */
  datatype Signal = Wants(pause: bool) | ContextDone

  /** What ends the wait: whether the context did. None while the node would still wait. */
  function WaitEnds(pause: bool, signals: seq<Signal>): (cancelled: Option<bool>) {
    if !pause then Some(false)
    else if signals == [] then None
    else
      match signals[0]
      case ContextDone => Some(true)
      case Wants(v) => WaitEnds(v, signals[1..])
  }

  /** While every signal asks for a pause the node waits; the first other one ends the wait. */
  lemma {:induction false} WaitsForResume(signals: seq<Signal>)
    requires forall k | 0 <= k < |signals| :: signals[k] == Wants(true)
    ensures WaitEnds(true, signals) == None
  {
    if signals != [] {
      WaitsForResume(signals[1..]);
    }
  }

  lemma {:induction false} EndsAtFirstOther(signals: seq<Signal>, i: nat)
    requires i < |signals| && signals[i] != Wants(true)
    requires forall k | 0 <= k < i :: signals[k] == Wants(true)
    ensures WaitEnds(true, signals) == Some(signals[i].ContextDone?)
  {
    if i > 0 {
      EndsAtFirstOther(signals[1..], i - 1);
    }
  }

  /** What churnQueue makes of a queue when Step returns these results: what it hands over, what it leaves. */
  datatype Churn<T> = Churn(handed: seq<T>, left: seq<T>, err: bool)

  function Churned<T>(queue: seq<T>, oks: seq<bool>): (churn: Churn<T>) {
    if queue == [] || oks == [] then Churn([], queue, false)
    else if !oks[0] then Churn([queue[0]], queue[1..], true)
    else
      var rest := Churned(queue[1..], oks[1..]);
      rest.(handed := [queue[0]] + rest.handed)
  }

  /** A prefix is handed over and the rest left in order; an error is that of the last message handed over. */
  ghost predicate Splits<T>(queue: seq<T>, oks: seq<bool>, churn: Churn<T>) {
    && queue == churn.handed + churn.left && |churn.handed| <= |oks|
    && (forall k | 0 <= k < |churn.handed| - 1 :: oks[k])
    && (churn.handed != [] ==> (churn.err <==> !oks[|churn.handed| - 1]))
    && (churn.err ==> churn.handed != [])
    && (!churn.err ==> churn.left == [])
  }

  lemma SplitsMore<T>(m: T, ok: bool, queue: seq<T>, oks: seq<bool>, rest: Churn<T>)
    requires ok && Splits(queue, oks, rest)
    ensures Splits([m] + queue, [ok] + oks, rest.(handed := [m] + rest.handed))
  {
    assert [m] + queue == [m] + rest.handed + rest.left;
  }

  lemma {:induction false} ChurnedSplits<T>(queue: seq<T>, oks: seq<bool>)
    requires |oks| >= |queue|
    ensures Splits(queue, oks, Churned(queue, oks))
  {
    if queue == [] {
    } else if !oks[0] {
      assert queue == [queue[0]] + queue[1..];
    } else {
      ChurnedSplits(queue[1..], oks[1..]);
      SplitsMore(queue[0], oks[0], queue[1..], oks[1..], Churned(queue[1..], oks[1..]));
      assert queue == [queue[0]] + queue[1..] && oks == [oks[0]] + oks[1..];
    }
  }

  /** A churn that comes after messages already handed over. */
  function After<T>(done: seq<T>, churn: Churn<T>): (all: Churn<T>) {
    Churn(done + churn.handed, churn.left, churn.err)
  }

  /** One turn of the loop of churnQueue. */
  lemma ChurnTurns<T>(done: seq<T>, queue: seq<T>, oks: seq<bool>, i: nat)
    requires queue != [] && i < |oks|
    ensures After(done, Churned(queue, oks[i..]))
         == if oks[i] then After(done + [queue[0]], Churned(queue[1..], oks[i + 1..]))
            else Churn(done + [queue[0]], queue[1..], true)
  {
    assert oks[i..][1..] == oks[i + 1..];
    var more := Churned(queue[1..], oks[i + 1..]).handed;
    assert done + ([queue[0]] + more) == done + [queue[0]] + more;
  }

  /** What becomes of a call of send: it returns, or blocks at the channel. */
  datatype Sent = Returned(err: bool) | Blocks

  class Gate {
    var pause: bool
    var queue: seq<Message>
    const capacity: nat
    /** Messages handed to raft.Node.Step by send and by churnQueue, in order. */
    ghost var stepped: seq<Message>

    constructor (capacity: nat)
      ensures !pause && queue == [] && this.capacity == capacity && stepped == []
    {
      this.capacity := capacity;
      pause, queue, stepped := false, [], [];
    }

    /** IsPaused. */
    method IsPaused() returns (paused: bool)
      ensures paused == pause
    {
      paused := pause;
    }

    /** setPaused. */
    method SetPaused(v: bool)
      modifies this`pause
      ensures pause == v
    {
      pause := v;
    }

    /** raft.Node.Step. */
    method StepRaft(msg: Message, ok: bool) returns (err: bool)
      modifies this`stepped
      ensures err == !ok && stepped == old(stepped) + [msg]
    {
      err := !ok;
      stepped := stepped + [msg];
    }

    /**
     * send: a paused node queues, or blocks at a full queue, others step. None stands for a text that is no
     * message.
     */
    method Send(decoded: Option<Message>, ok: bool) returns (sent: Sent)
      modifies this`queue, this`stepped
      ensures sent.Blocks? <==> decoded.Some? && pause && old(|queue|) >= capacity
      ensures queue == old(queue) + if decoded.Some? && pause && !sent.Blocks? then [decoded.value] else []
      ensures stepped == old(stepped) + if decoded.Some? && !pause then [decoded.value] else []
      ensures sent.Returned? ==> (sent.err <==> decoded.None? || (!pause && !ok))
    {
      if decoded.None? {
        return Returned(true);
      }
      var paused := IsPaused();
      if paused {
        if |queue| >= capacity {
          return Blocks;
        }
        queue := queue + [decoded.value];
        return Returned(false);
      }
      var err := StepRaft(decoded.value, ok);
      return Returned(err);
    }

    /** waitPause. The signals must end the wait, as it does not return before. */
    method WaitPause(signals: seq<Signal>) returns (err: bool)
      requires WaitEnds(pause, signals).Some?
      modifies this`pause
      ensures err == WaitEnds(old(pause), signals).value
      ensures pause == err
    {
      var rest := signals;
      while pause
        invariant WaitEnds(pause, rest) == WaitEnds(old(pause), signals)
        decreases |rest|
      {
        var signal := rest[0];
        rest := rest[1..];
        match signal {
          case Wants(v) => SetPaused(v);
          case ContextDone => return true;
        }
      }
      return false;
    }

    /** churnQueue: every message is handed to Step, until one fails. */
    method ChurnQueue(oks: seq<bool>) returns (err: bool)
      requires |oks| >= |queue|
      modifies this`queue, this`stepped
      ensures var churn := Churned(old(queue), oks);
        queue == churn.left && stepped == old(stepped) + churn.handed && err == churn.err
    {
      var i := 0;
      assert oks[0..] == oks;
      ghost var done: seq<Message> := [];
      while |queue| > 0
        invariant 0 <= i && i + |queue| <= |oks|
        invariant stepped == old(stepped) + done
        invariant Churned(old(queue), oks) == After(done, Churned(queue, oks[i..]))
        decreases |queue|
      {
        ChurnTurns(done, queue, oks, i);
        var msg := queue[0];
        queue := queue[1..];
        err := StepRaft(msg, oks[i]);
        done := done + [msg];
        i := i + 1;
        if err {
          return;
        }
      }
      return false;
    }

    /** doPause: set the flag, wait for it to fall, churn. */
    method DoPause(v: bool, signals: seq<Signal>, oks: seq<bool>) returns (err: bool)
      requires WaitEnds(v, signals).Some? && |oks| >= |queue|
      modifies this
      ensures var cancelled := WaitEnds(v, signals).value;
        && pause == cancelled
        && (cancelled ==> err && queue == old(queue) && stepped == old(stepped))
        && (!cancelled ==>
              var churn := Churned(old(queue), oks);
              queue == churn.left && stepped == old(stepped) + churn.handed && err == churn.err)
    {
      SetPaused(v);
      err := WaitPause(signals);
      if err {
        return;
      }
      err := ChurnQueue(oks);
    }
  }
}
