/**
 * The error variable of Start and the stop senders it spawns (raft/node.go, Start). A stop sender is a
 * goroutine that reads the variable when it runs, not when it is spawned.
 */
module StartLoop {

  /** The loop as far as errors go; true stands for a non-nil error. */
  datatype State = State(
    err: bool,
    failed: bool,          // a doReady failed; its Ready stays outstanding
    cancelled: bool,       // the context is done
    stopped: bool,         // a stop was taken: Start returned
    iterations: nat,       // iterations completed without taking a stop
    spawned: nat,          // stop senders spawned
    unread: nat,           // of them, those that have not read err yet
    offered: seq<bool>,    // causes being sent on stopChan
    causes: seq<bool>,     // causes read by stop senders, in order
    results: seq<bool>)    // what doReady, doPause and ctx.Err() were, in order

  const START := State(false, false, false, false, 0, 0, 0, [], [], [])

  datatype Choice =
    | TickFires
    | ReadyDone(err: bool)     // a Ready came and doReady returned
    | PauseDone(err: bool)     // a pause request came and doPause returned
    | SeeCancel                // the loop takes ctx.Done
    | StopTaken(i: nat)        // the loop takes the i-th cause offered
    | Cancel                   // the context ends
    | UserStops                // somebody calls Stop, which makes up a cause if given none
    | ReadCause                // a stop sender runs

  /** The end of an iteration: a non-nil error spawns a stop sender. */
  function EndIteration(s: State): (s': State) {
    if s.err then s.(iterations := s.iterations + 1, spawned := s.spawned + 1, unread := s.unread + 1)
    else s.(iterations := s.iterations + 1)
  }

  function Assign(s: State, err: bool): (s': State) {
    EndIteration(s.(err := err, results := s.results + [err]))
  }

  function Step(s: State, c: Choice): (s': State) {
    match c
    case TickFires => if s.stopped then s else EndIteration(s)
    case ReadyDone(err) => if s.stopped || s.failed then s else Assign(s.(failed := err), err)
    case PauseDone(err) => if s.stopped then s else Assign(s, err)
    case SeeCancel => if s.stopped || !s.cancelled then s else Assign(s, true)
    case StopTaken(i) =>
      if s.stopped || i >= |s.offered| then s
      else s.(stopped := true, offered := s.offered[..i] + s.offered[i + 1..])
    case Cancel => s.(cancelled := true)
    case UserStops => s.(offered := s.offered + [true])
    case ReadCause =>
      if s.unread == 0 then s
      else s.(unread := s.unread - 1, offered := s.offered + [s.err], causes := s.causes + [s.err])
  }

  function Exec(s: State, cs: seq<Choice>): (s': State) {
    if cs == [] then s else Step(Exec(s, cs[..|cs| - 1]), cs[|cs| - 1])
  }

  /** err is what was last assigned to it, and nothing is spawned or failed without an error. */
  ghost predicate Sane(s: State) {
    && (s.err <==> s.results != [] && s.results[|s.results| - 1])
    && (s.failed || s.spawned > 0 ==> true in s.results)
    && s.spawned == s.unread + |s.causes|
    && s.spawned <= s.iterations
  }

  /** An assignment to err, with its failure if it was a doReady's. */
  lemma AssignKeepsSane(s: State, failed: bool, err: bool)
    requires Sane(s) && (failed ==> s.failed || err)
    ensures Sane(Assign(s.(failed := failed), err))
  {
    var results := s.results + [err];
    assert results[|results| - 1] == err && (forall r | r in s.results :: r in results);
  }

  lemma StepKeepsSane(s: State, c: Choice)
    requires Sane(s)
    ensures Sane(Step(s, c))
  {
    match c
    case ReadyDone(err) => AssignKeepsSane(s, err, err);
    case PauseDone(err) => AssignKeepsSane(s, s.failed, err);
    case SeeCancel => AssignKeepsSane(s, s.failed, true);
    case _ =>
  }

  lemma {:induction false} RunsAreSane(cs: seq<Choice>)
    ensures Sane(Exec(START, cs))
  {
    if cs != [] {
      RunsAreSane(cs[..|cs| - 1]);
      StepKeepsSane(Exec(START, cs[..|cs| - 1]), cs[|cs| - 1]);
    }
  }

  /** Runs in which doPause never returns. */
  ghost predicate NoPause(cs: seq<Choice>) {
    forall k | 0 <= k < |cs| :: !cs[k].PauseDone?
  }

  /**
   * Error stickiness: from a doReady failure on, as long as no pause request is handled, err stays non-nil,
   * every cause a stop sender reads is a real error, and each further iteration spawns exactly one of them.
   */
  lemma {:induction false} FailureSticks(s: State, cs: seq<Choice>)
    requires s.failed && s.err && NoPause(cs)
    ensures var s' := Exec(s, cs);
      && s'.failed && s'.err
      && s.causes <= s'.causes && (forall k | |s.causes| <= k < |s'.causes| :: s'.causes[k])
      && s'.spawned - s.spawned == s'.iterations - s.iterations
  {
    if cs != [] {
      FailureSticks(s, cs[..|cs| - 1]);
    }
  }

  /** What takes the error away, exactly: a pause request that doPause handles without an error. */
  lemma ErrorLost(s: State, c: Choice)
    requires s.failed && s.err
    ensures !Step(s, c).err <==> (c == PauseDone(false) && !s.stopped)
  {
  }

  /** At some moment of a run: err is non-nil, and doPause returns nil to a loop that still runs. */
  predicate ErrAt(s: State, cs: seq<Choice>, k: nat)
    requires k <= |cs|
  {
    Exec(s, cs[..k]).err
  }

  predicate HandledAt(s: State, cs: seq<Choice>, k: nat)
    requires k < |cs|
  {
    cs[k] == PauseDone(false) && !Exec(s, cs[..k]).stopped
  }

  lemma SameMoments(s: State, cs: seq<Choice>, k: nat)
    requires k < |cs|
    ensures ErrAt(s, cs[..|cs| - 1], k) <==> ErrAt(s, cs, k)
    ensures k < |cs| - 1 ==> (HandledAt(s, cs[..|cs| - 1], k) <==> HandledAt(s, cs, k))
  {
    assert cs[..|cs| - 1][..k] == cs[..k];
  }

  lemma LastMoment(s: State, cs: seq<Choice>)
    requires cs != [] && Exec(s, cs[..|cs| - 1]).failed && ErrAt(s, cs, |cs| - 1)
    ensures ErrAt(s, cs, |cs|) <==> !HandledAt(s, cs, |cs| - 1)
  {
    assert cs[..|cs|] == cs;
    ErrorLost(Exec(s, cs[..|cs| - 1]), cs[|cs| - 1]);
  }

  lemma {:induction false} FailedStays(s: State, cs: seq<Choice>)
    requires s.failed
    ensures Exec(s, cs).failed
  {
    if cs != [] {
      FailedStays(s, cs[..|cs| - 1]);
    }
  }

  /**
   * Over runs, exactly: from a failed doReady on, err is non-nil at every moment if and only if no pause
   * request is handled without an error.
   */
  lemma {:induction false} ErrorStays(s: State, cs: seq<Choice>)
    requires s.failed && s.err
    ensures (forall k | 0 <= k <= |cs| :: ErrAt(s, cs, k)) <==> (forall k | 0 <= k < |cs| :: !HandledAt(s, cs, k))
  {
    if cs == [] {
      assert cs[..0] == [];
    } else {
      var n := |cs| - 1;
      ErrorStays(s, cs[..n]);
      FailedStays(s, cs[..n]);
      forall k | 0 <= k <= n
        ensures ErrAt(s, cs[..n], k) <==> ErrAt(s, cs, k)
        ensures k < n ==> (HandledAt(s, cs[..n], k) <==> HandledAt(s, cs, k))
      {
        SameMoments(s, cs, k);
      }
      if ErrAt(s, cs, n) {
        LastMoment(s, cs);
      }
    }
  }

  /** When a stop sender reads nil, exactly: the last result assigned was nil, after one that was not. */
  lemma NilCause(cs: seq<Choice>)
    requires Exec(START, cs).unread > 0
    ensures var s, s' := Exec(START, cs), Step(Exec(START, cs), ReadCause);
      && |s'.causes| == |s.causes| + 1 && s'.offered == s.offered + [s'.causes[|s.causes|]]
      && (!s'.causes[|s.causes|] <==> s.results != [] && !s.results[|s.results| - 1])
      && true in s.results
  {
    RunsAreSane(cs);
  }

  /** The run that shows it: doReady fails, a pause request is handled, and only then the stop sender runs. */
  lemma NilCauseHappens()
    ensures Exec(START, [ReadyDone(true), PauseDone(false), ReadCause]).causes == [false]
  {
    var cs := [ReadyDone(true), PauseDone(false), ReadCause];
    assert cs[..2] == [ReadyDone(true), PauseDone(false)];
    assert cs[..2][..1] == [ReadyDone(true)];
    assert [ReadyDone(true)][..0] == [];
    assert Exec(START, [ReadyDone(true)]) == Step(START, ReadyDone(true));
    assert Exec(START, cs[..2]) == Step(Step(START, ReadyDone(true)), PauseDone(false));
  }

  /** Over runs: the loop takes ctx.Done exactly when the context has ended, and while it runs. */
  lemma {:induction false} CancelFirst(cs: seq<Choice>)
    ensures Exec(START, cs).cancelled <==> Cancel in cs
    ensures Step(Exec(START, cs), SeeCancel) != Exec(START, cs) <==> Cancel in cs && !Exec(START, cs).stopped
  {
    if cs != [] {
      CancelFirst(cs[..|cs| - 1]);
      assert Cancel in cs <==> Cancel in cs[..|cs| - 1] || cs[|cs| - 1] == Cancel;
      CancelStep(Exec(START, cs[..|cs| - 1]), cs[|cs| - 1]);
    }
    SeeCancelMoves(Exec(START, cs));
  }

  lemma CancelStep(s: State, c: Choice)
    ensures Step(s, c).cancelled <==> s.cancelled || c == Cancel
  {
  }

  lemma SeeCancelMoves(s: State)
    ensures Step(s, SeeCancel) != s <==> s.cancelled && !s.stopped
  {
    if s.cancelled && !s.stopped {
      assert Step(s, SeeCancel).iterations == s.iterations + 1;
    }
  }

  /** Only a stop sender offers a nil cause: whoever else stops the node has a cause made up if it gives none. */
  lemma {:induction false} NilOffersAreRead(cs: seq<Choice>)
    ensures false in Exec(START, cs).offered ==> false in Exec(START, cs).causes
  {
    if cs != [] {
      NilOffersAreRead(cs[..|cs| - 1]);
      OffersStep(Exec(START, cs[..|cs| - 1]), cs[|cs| - 1]);
    }
  }

  lemma OffersStep(s: State, c: Choice)
    requires false in s.offered ==> false in s.causes
    ensures false in Step(s, c).offered ==> false in Step(s, c).causes
  {
    if c.StopTaken? && c.i < |s.offered| {
      assert forall x | x in s.offered[..c.i] + s.offered[c.i + 1..] :: x in s.offered;
    }
  }

  lemma {:induction false} ExecConcat(s: State, a: seq<Choice>, b: seq<Choice>)
    ensures Exec(s, a + b) == Exec(Exec(s, a), b)
  {
    if b == [] {
      assert a + b == a;
    } else {
      assert (a + b)[..|a + b| - 1] == a + b[..|b| - 1];
      ExecConcat(s, a, b[..|b| - 1]);
    }
  }

  lemma ExecTwo(s: State, a: Choice, b: Choice)
    ensures Exec(s, [a, b]) == Step(Step(s, a), b)
  {
    ExecOne(s, [], a);
    ExecOne(s, [a], b);
    assert [] + [a] == [a] && [a] + [b] == [a, b];
  }

  lemma ExecOne(s: State, cs: seq<Choice>, c: Choice)
    ensures Exec(s, cs + [c]) == Step(Exec(s, cs), c)
  {
    assert (cs + [c])[..|cs|] == cs;
  }
}
