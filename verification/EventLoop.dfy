/**
 * The loop of Start (raft/node.go) turn by turn, over what its select finds: what each case does to the
 * driver, the gate and the error variable. The method Start of Node is proved against it.
 */
module EventLoop {
  import opened RaftTypes
  import opened Driver
  import DriverRuns
  import Gate
  import Messages
  import StartLoop

  /** What the select of Start finds ready, with what the calls made for it return. */
  datatype Selected =
    | Ticks
    | ReadyArrives(r: Ready, o: ReadyOutcome)
    | PauseArrives(pause: bool, signals: seq<Gate.Signal>, oks: seq<bool>)
    | ContextEnds
    | StopArrives(own: bool)    // a cause: one that a stop sender of the loop read from err, or somebody else's

  /** What a turn of the loop comes to: a whole iteration, nothing, or the return of Start. */
  datatype Turn = Iterates | PassesOver | Returns

  /** The node between two turns: the driver, the gate, and the loop's error variable and stop senders. */
  datatype World = World(
    d: State, pause: bool, queue: seq<Message>, stepped: seq<Message>, l: StartLoop.State)

  /** Whether an outcome says something of every call that a Ready leads to. */
  predicate Covers(setup: Setup, r: Ready, o: ReadyOutcome) {
    && |o.sends| == |r.messages| && |o.entries| == |r.committed|
    && forall k | 0 <= k < |o.entries| :: |o.entries[k].attempts| == setup.retries
  }

  /**
   * A Ready that raft would not deliver, a pause that would not end and a cause that nobody offers are
   * passed over.
   */
  function TurnOf(s: Setup, w: World, selected: Selected): (turn: Turn) {
    match selected
    case Ticks => Iterates
    case ReadyArrives(r, o) => if Legal(w.d.raft, r) && Covers(s, r, o) then Iterates else PassesOver
    case PauseArrives(pause, signals, oks) =>
      if Gate.WaitEnds(pause, signals).Some? && |oks| >= |w.queue| then Iterates else PassesOver
    case ContextEnds => Iterates
    case StopArrives(own) => if own && w.l.unread == 0 then PassesOver else Returns
  }

  /** The gate after doPause, and whether doPause returned an error. */
  datatype Paused = Paused(pause: bool, queue: seq<Message>, stepped: seq<Message>, err: bool)

  function PausedBy(w: World, cancelled: bool, oks: seq<bool>): (paused: Paused) {
    if cancelled then Paused(true, w.queue, w.stepped, true)
    else
      var churn := Gate.Churned(w.queue, oks);
      Paused(false, churn.left, w.stepped + churn.handed, churn.err)
  }

  /** The choices of the driver that a turn makes: a whole doReady, or none. */
  function DriverChoices(s: Setup, w: World, selected: Selected): (cs: seq<Choice>) {
    if selected.ReadyArrives? && TurnOf(s, w, selected).Iterates?
    then [Deliver(selected.r)] + DoReadyScript(selected.o) else []
  }

  /** What a turn assigns to err: the result of its case, or nothing. */
  function ErrAfter(s: Setup, w: World, selected: Selected): (err: bool) {
    if !TurnOf(s, w, selected).Iterates? then w.l.err
    else
      match selected
      case ReadyArrives(_, _) => Exec(s, w.d, DriverChoices(s, w, selected)).failed
      case PauseArrives(pause, signals, oks) => PausedBy(w, Gate.WaitEnds(pause, signals).value, oks).err
      case ContextEnds => true
      case _ => w.l.err
  }

  /** The choices of StartLoop that a turn makes, with the result that came back. */
  function LoopChoices(s: Setup, w: World, selected: Selected): (ls: seq<StartLoop.Choice>) {
    if TurnOf(s, w, selected).PassesOver? then []
    else
      match selected
      case Ticks => [StartLoop.TickFires]
      case ReadyArrives(_, _) => [StartLoop.ReadyDone(ErrAfter(s, w, selected))]
      case PauseArrives(_, _, _) => [StartLoop.PauseDone(ErrAfter(s, w, selected))]
      case ContextEnds => [StartLoop.Cancel, StartLoop.SeeCancel]
      case StopArrives(own) =>
        [if own then StartLoop.ReadCause else StartLoop.UserStops, StartLoop.StopTaken(|w.l.offered|)]
  }

  /** The world after a turn. */
  function Turned(s: Setup, w: World, selected: Selected): (w': World) {
    var d, l := Exec(s, w.d, DriverChoices(s, w, selected)), StartLoop.Exec(w.l, LoopChoices(s, w, selected));
    if selected.PauseArrives? && TurnOf(s, w, selected).Iterates? then
      var paused := PausedBy(w, Gate.WaitEnds(selected.pause, selected.signals).value, selected.oks);
      World(d, paused.pause, paused.queue, paused.stepped, l)
    else
      World(d, w.pause, w.queue, w.stepped, l)
  }

  /** The world after Start served a script; nothing is served once it returned. */
  function Served(s: Setup, w: World, script: seq<Selected>): (w': World) {
    if script == [] then w
    else
      var before := Served(s, w, script[..|script| - 1]);
      if before.l.stopped then before else Turned(s, before, script[|script| - 1])
  }

  /** All choices of the driver, and of StartLoop, that serving a script makes. */
  function AllDriverChoices(s: Setup, w: World, script: seq<Selected>): (cs: seq<Choice>) {
    if script == [] then []
    else
      var init := script[..|script| - 1];
      var before := Served(s, w, init);
      AllDriverChoices(s, w, init)
      + if before.l.stopped then [] else DriverChoices(s, before, script[|script| - 1])
  }

  function AllLoopChoices(s: Setup, w: World, script: seq<Selected>): (ls: seq<StartLoop.Choice>) {
    if script == [] then []
    else
      var init := script[..|script| - 1];
      var before := Served(s, w, init);
      AllLoopChoices(s, w, init)
      + if before.l.stopped then [] else LoopChoices(s, before, script[|script| - 1])
  }

  /** Start is a run of the driver and, with the results that came back from it, a run of StartLoop. */
  lemma {:induction false} ServedRuns(s: Setup, w: World, script: seq<Selected>)
    ensures Served(s, w, script).d == Exec(s, w.d, AllDriverChoices(s, w, script))
    ensures Served(s, w, script).l == StartLoop.Exec(w.l, AllLoopChoices(s, w, script))
  {
    if script != [] {
      var init, last := script[..|script| - 1], script[|script| - 1];
      var before := Served(s, w, init);
      ServedRuns(s, w, init);
      if before.l.stopped {
        assert AllDriverChoices(s, w, init) + [] == AllDriverChoices(s, w, init);
        assert AllLoopChoices(s, w, init) + [] == AllLoopChoices(s, w, init);
      } else {
        ExecConcat(s, w.d, AllDriverChoices(s, w, init), DriverChoices(s, before, last));
        StartLoop.ExecConcat(w.l, AllLoopChoices(s, w, init), LoopChoices(s, before, last));
      }
    }
  }

  // ---------------------------------------------------------------------------------- every turn

  /** Between turns: the driver is idle, and it has failed exactly if some doReady told the loop so. */
  ghost predicate Between(w: World) {
    DriverRuns.Sound(w.d) && w.d.phase.Idle? && (w.d.failed <==> w.l.failed)
  }

  /** How a turn that assigns err moves the loop, given what it came to. */
  ghost predicate Moved(l: StartLoop.State, l': StartLoop.State, turn: Turn, selected: Selected, err: bool) {
    && l'.err == err
    && (l'.stopped <==> turn.Returns?)
    && l'.iterations == l.iterations + (if turn.Iterates? then 1 else 0)
    && l'.spawned == l.spawned + (if turn.Iterates? && err then 1 else 0)
    && l'.unread == l.unread + (if turn.Iterates? && err then 1 else 0)
                    - (if turn.Returns? && selected == StopArrives(true) then 1 else 0)
    && (l'.failed <==> l.failed || (turn.Iterates? && selected.ReadyArrives? && err))
  }

  lemma StopMoves(l: StartLoop.State, own: bool)
    requires !l.stopped && (own ==> l.unread > 0)
    ensures var first := if own then StartLoop.ReadCause else StartLoop.UserStops;
      Moved(l, StartLoop.Exec(l, [first, StartLoop.StopTaken(|l.offered|)]), Returns, StopArrives(own), l.err)
  {
    StartLoop.ExecTwo(l, if own then StartLoop.ReadCause else StartLoop.UserStops, StartLoop.StopTaken(|l.offered|));
  }

  lemma CancelMoves(l: StartLoop.State)
    requires !l.stopped
    ensures Moved(l, StartLoop.Exec(l, [StartLoop.Cancel, StartLoop.SeeCancel]), Iterates, ContextEnds, true)
  {
    StartLoop.ExecTwo(l, StartLoop.Cancel, StartLoop.SeeCancel);
  }

  /** A Ready comes only while no doReady failed, so its result is what counts. */
  lemma ReadyMoves(l: StartLoop.State, selected: Selected, err: bool)
    requires !l.stopped && !l.failed && selected.ReadyArrives?
    ensures Moved(l, StartLoop.Exec(l, [StartLoop.ReadyDone(err)]), Iterates, selected, err)
  {
    StartLoop.ExecOne(l, [], StartLoop.ReadyDone(err));
    assert [] + [StartLoop.ReadyDone(err)] == [StartLoop.ReadyDone(err)];
  }

  lemma OtherMoves(l: StartLoop.State, selected: Selected, c: StartLoop.Choice, err: bool)
    requires !l.stopped && !selected.ReadyArrives?
    requires c == StartLoop.PauseDone(err) || (c.TickFires? && err == l.err)
    ensures Moved(l, StartLoop.Exec(l, [c]), Iterates, selected, err)
  {
    StartLoop.ExecOne(l, [], c);
    assert [] + [c] == [c];
  }

  /** What a turn does to the loop's own state, whatever its case. */
  lemma LoopTurns(s: Setup, w: World, selected: Selected)
    requires Between(w) && !w.l.stopped
    ensures Moved(w.l, StartLoop.Exec(w.l, LoopChoices(s, w, selected)), TurnOf(s, w, selected), selected,
                  ErrAfter(s, w, selected))
  {
    if !TurnOf(s, w, selected).PassesOver? {
      var err := ErrAfter(s, w, selected);
      match selected
      case Ticks => OtherMoves(w.l, selected, StartLoop.TickFires, err);
      case ReadyArrives(_, _) => ReadyMoves(w.l, selected, err);
      case PauseArrives(_, _, _) => OtherMoves(w.l, selected, StartLoop.PauseDone(err), err);
      case ContextEnds => CancelMoves(w.l);
      case StopArrives(own) => StopMoves(w.l, own);
    }
  }

  /** A turn of each case, in full: nothing but a Ready moves the driver, nothing but a pause the gate. */
  lemma ReadyTurned(s: Setup, w: World, r: Ready, o: ReadyOutcome, came: bool)
    requires came <==> Legal(w.d.raft, r) && Covers(s, r, o)
    ensures var selected, cs := ReadyArrives(r, o), if came then [Deliver(r)] + DoReadyScript(o) else [];
      && TurnOf(s, w, selected) == (if came then Iterates else PassesOver)
      && DriverChoices(s, w, selected) == cs
      && ErrAfter(s, w, selected) == (if came then Exec(s, w.d, cs).failed else w.l.err)
      && Turned(s, w, selected) == w.(d := Exec(s, w.d, cs), l := Turned(s, w, selected).l)
  {
  }

  lemma PauseTurned(s: Setup, w: World, pause: bool, signals: seq<Gate.Signal>, oks: seq<bool>, came: bool)
    requires came <==> Gate.WaitEnds(pause, signals).Some? && |oks| >= |w.queue|
    ensures var selected := PauseArrives(pause, signals, oks);
      && TurnOf(s, w, selected) == (if came then Iterates else PassesOver)
      && DriverChoices(s, w, selected) == []
      && if came then
           var paused := PausedBy(w, Gate.WaitEnds(pause, signals).value, oks);
           && ErrAfter(s, w, selected) == paused.err
           && Turned(s, w, selected)
              == World(w.d, paused.pause, paused.queue, paused.stepped, Turned(s, w, selected).l)
         else
           ErrAfter(s, w, selected) == w.l.err && Turned(s, w, selected) == w.(l := Turned(s, w, selected).l)
  {
  }

  lemma OtherTurned(s: Setup, w: World, selected: Selected)
    requires !selected.ReadyArrives? && !selected.PauseArrives?
    ensures DriverChoices(s, w, selected) == []
    ensures Turned(s, w, selected) == w.(l := Turned(s, w, selected).l)
  {
  }

  // ---------------------------------------------------------------------------------- doReady returns

  /** The entry loop stands at the next entry, or doReady has returned an error. */
  lemma {:induction false} EntriesEnd(s: Setup, d: State, r: Ready, outcomes: seq<EntryOutcome>)
    requires d.phase == Applying(r, 0) && |outcomes| <= |r.committed|
    requires forall k | 0 <= k < |outcomes| :: |outcomes[k].attempts| == s.retries
    ensures var phase := Exec(s, d, ApplyChoices(outcomes)).phase; phase.Idle? || phase == Applying(r, |outcomes|)
  {
    if outcomes != [] {
      var init := outcomes[..|outcomes| - 1];
      assert ApplyChoices(outcomes)[..|init|] == ApplyChoices(init);
      EntriesEnd(s, d, r, init);
      EntryEnds(s, Exec(s, d, ApplyChoices(init)), outcomes[|init|]);
    }
  }

  lemma EntryEnds(s: Setup, d: State, o: EntryOutcome)
    requires |o.attempts| == s.retries
    requires d.phase.Applying? ==> d.phase.applied < |d.phase.r.committed|
    ensures var phase := Step(s, d, ApplyOne(o)).phase;
      phase == if d.phase.Applying? then
                 if ApplyEntry(s, d, d.phase.r.committed[d.phase.applied], o).ok
                 then Applying(d.phase.r, d.phase.applied + 1) else Idle
               else d.phase
  {
  }

  /** From a stored Ready on: the messages, the check for a snapshot, the entries and Advance. */
  lemma AfterStoreReturns(s: Setup, d: State, r: Ready, o: ReadyOutcome, d3: State)
    requires d.phase.Sending? && d.phase.r == r && d.phase.sent == 0 && Covers(s, r, o)
    requires d3 == Step(s, Exec(s, d, SendChoices(o.sends)), CheckSnapshot)
    ensures d3.phase.Idle? || d3.phase == Applying(r, 0)
  {
    Messages.SendingBatch(s, d, r, d.phase.peers, o.sends);
  }

  lemma EntriesReturn(s: Setup, d: State, r: Ready, o: ReadyOutcome)
    requires (d.phase.Idle? || d.phase == Applying(r, 0)) && Covers(s, r, o)
    ensures Step(s, Exec(s, d, ApplyChoices(o.entries)), Advance).phase.Idle?
  {
    if d.phase.Idle? {
      IdleRests(s, d, ApplyChoices(o.entries));
    } else {
      EntriesEnd(s, d, r, o.entries);
    }
  }

  /** doReady in its parts. */
  lemma DoReadyParts(s: Setup, d: State, o: ReadyOutcome) returns (d1: State, d3: State)
    ensures d1 == Step(s, d, StoreReturns(o.store))
    ensures d3 == Step(s, Exec(s, d1, SendChoices(o.sends)), CheckSnapshot)
    ensures Exec(s, d, DoReadyScript(o)) == Step(s, Exec(s, d3, ApplyChoices(o.entries)), Advance)
  {
    var p1 := [StoreReturns(o.store)];
    var p2 := p1 + SendChoices(o.sends);
    var p3 := p2 + [CheckSnapshot];
    var p4 := p3 + ApplyChoices(o.entries);
    ExecConcat(s, d, p1, SendChoices(o.sends));
    ExecConcat(s, d, p2, [CheckSnapshot]);
    ExecConcat(s, d, p3, ApplyChoices(o.entries));
    ExecConcat(s, d, p4, [Advance]);
    assert DoReadyScript(o) == p4 + [Advance];
    OneStep(s, d, StoreReturns(o.store));
    OneStep(s, Exec(s, d, p2), CheckSnapshot);
    OneStep(s, Exec(s, d, p4), Advance);
    d1, d3 := Exec(s, d, p1), Exec(s, d, p3);
  }

  /** A doReady whose every call returned has returned itself. */
  lemma DoReadyReturns(s: Setup, d: State, r: Ready, o: ReadyOutcome)
    requires d.phase == Storing(r) && Covers(s, r, o)
    ensures Exec(s, d, DoReadyScript(o)).phase.Idle?
  {
    var d1, d3 := DoReadyParts(s, d, o);
    if d1.phase.Idle? {
      IdleRests(s, d1, SendChoices(o.sends));
    } else {
      AfterStoreReturns(s, d1, r, o, d3);
    }
    EntriesReturn(s, d3, r, o);
  }

  lemma OneStep(s: Setup, d: State, c: Choice)
    ensures Exec(s, d, [c]) == Step(s, d, c)
  {
    assert [c][..0] == [];
  }

  lemma TurnEndsIdle(s: Setup, w: World, selected: Selected)
    requires w.d.phase.Idle?
    ensures Turned(s, w, selected).d.phase.Idle?
  {
    if selected.ReadyArrives? && TurnOf(s, w, selected).Iterates? {
      ExecConcat(s, w.d, [Deliver(selected.r)], DoReadyScript(selected.o));
      OneStep(s, w.d, Deliver(selected.r));
      DoReadyReturns(s, Step(s, w.d, Deliver(selected.r)), selected.r, selected.o);
    }
  }

  lemma TurnKeepsBetween(s: Setup, w: World, selected: Selected)
    requires Between(w) && !w.l.stopped
    ensures Between(Turned(s, w, selected))
  {
    LoopTurns(s, w, selected);
    TurnEndsIdle(s, w, selected);
    DriverRuns.ExecKeepsSound(s, w.d, DriverChoices(s, w, selected));
  }

  lemma {:induction false} ServedIsBetween(s: Setup, w: World, script: seq<Selected>)
    requires Between(w)
    ensures Between(Served(s, w, script))
  {
    if script != [] {
      ServedIsBetween(s, w, script[..|script| - 1]);
      if !Served(s, w, script[..|script| - 1]).l.stopped {
        TurnKeepsBetween(s, Served(s, w, script[..|script| - 1]), script[|script| - 1]);
      }
    }
  }

  // ---------------------------------------------------------------------------------- whole scripts

  /** The turns that are whole iterations, or those of them that end with err non-nil. */
  function Iterations(s: Setup, w: World, script: seq<Selected>, onlyErrors: bool): (n: nat) {
    if script == [] then 0
    else
      var before, last := Served(s, w, script[..|script| - 1]), script[|script| - 1];
      Iterations(s, w, script[..|script| - 1], onlyErrors)
      + if !before.l.stopped && TurnOf(s, before, last).Iterates? && (onlyErrors ==> ErrAfter(s, before, last))
        then 1 else 0
  }

  /**
   * One stop sender for every iteration that ends with an error, whatever case it took, and none for any
   * other turn.
   */
  lemma {:induction false} OneSenderPerError(s: Setup, w: World, script: seq<Selected>)
    requires Between(w)
    ensures Served(s, w, script).l.spawned == w.l.spawned + Iterations(s, w, script, true)
    ensures Served(s, w, script).l.iterations == w.l.iterations + Iterations(s, w, script, false)
  {
    if script != [] {
      var before := Served(s, w, script[..|script| - 1]);
      OneSenderPerError(s, w, script[..|script| - 1]);
      ServedIsBetween(s, w, script[..|script| - 1]);
      if !before.l.stopped {
        LoopTurns(s, before, script[|script| - 1]);
      }
    }
  }

  ghost predicate NoPauseArrives(script: seq<Selected>) {
    forall k | 0 <= k < |script| :: !script[k].PauseArrives?
  }

  /**
   * Error stickiness in Start itself: from a failed doReady on, with no pause request, err stays non-nil,
   * every iteration spawns a stop sender, and the driver does not move any more.
   */
  lemma {:induction false} FailedLoop(s: Setup, w: World, script: seq<Selected>)
    requires Between(w) && w.l.failed && w.l.err && NoPauseArrives(script)
    ensures var w' := Served(s, w, script);
      && w'.l.err && w'.d == w.d
      && w'.l.spawned - w.l.spawned == w'.l.iterations - w.l.iterations == Iterations(s, w, script, false)
  {
    ServedRuns(s, w, script);
    NoPauseChoices(s, w, script);
    StartLoop.FailureSticks(w.l, AllLoopChoices(s, w, script));
    DriverRuns.ExecKeepsSound(s, w.d, AllDriverChoices(s, w, script));
    OneSenderPerError(s, w, script);
  }

  lemma {:induction false} NoPauseChoices(s: Setup, w: World, script: seq<Selected>)
    requires NoPauseArrives(script)
    ensures StartLoop.NoPause(AllLoopChoices(s, w, script))
  {
    if script != [] {
      NoPauseChoices(s, w, script[..|script| - 1]);
      var last := LoopChoices(s, Served(s, w, script[..|script| - 1]), script[|script| - 1]);
      assert forall k | 0 <= k < |last| :: !last[k].PauseDone?;
    }
  }

  /** Whether the turn at some place of a script is the return of Start. */
  ghost predicate ReturnsAt(s: Setup, w: World, script: seq<Selected>, k: int)
    requires 0 <= k < |script|
  {
    TurnOf(s, Served(s, w, script[..k]), script[k]).Returns?
  }

  lemma ReturnsAtPrefix(s: Setup, w: World, script: seq<Selected>, k: int)
    requires 0 <= k < |script| - 1
    ensures ReturnsAt(s, w, script[..|script| - 1], k) <==> ReturnsAt(s, w, script, k)
  {
    assert script[..|script| - 1][..k] == script[..k];
  }

  lemma LastTurnReturns(s: Setup, w: World, script: seq<Selected>)
    requires Between(w) && script != [] && !Served(s, w, script[..|script| - 1]).l.stopped
    ensures Served(s, w, script).l.stopped <==> ReturnsAt(s, w, script, |script| - 1)
  {
    ServedIsBetween(s, w, script[..|script| - 1]);
    LoopTurns(s, Served(s, w, script[..|script| - 1]), script[|script| - 1]);
  }

  lemma ReturnedStays(s: Setup, w: World, script: seq<Selected>)
    requires script != [] && Served(s, w, script[..|script| - 1]).l.stopped
    ensures Served(s, w, script).l.stopped
  {
  }

  /** No turn of a script is the return of Start. */
  ghost predicate NeverReturns(s: Setup, w: World, script: seq<Selected>) {
    forall k | 0 <= k < |script| :: !ReturnsAt(s, w, script, k)
  }

  lemma NeverReturnsSplits(s: Setup, w: World, script: seq<Selected>)
    requires script != []
    ensures NeverReturns(s, w, script)
       <==> NeverReturns(s, w, script[..|script| - 1]) && !ReturnsAt(s, w, script, |script| - 1)
  {
    var init := script[..|script| - 1];
    if NeverReturns(s, w, script) {
      forall k | 0 <= k < |init| ensures !ReturnsAt(s, w, init, k) {
        ReturnsAtPrefix(s, w, script, k);
      }
    }
    if NeverReturns(s, w, init) && !ReturnsAt(s, w, script, |script| - 1) {
      forall k | 0 <= k < |script| ensures !ReturnsAt(s, w, script, k) {
        if k < |init| {
          ReturnsAtPrefix(s, w, script, k);
        }
      }
    }
  }

  lemma {:induction false} RunsUntilACause(s: Setup, w: World, script: seq<Selected>)
    requires Between(w) && !w.l.stopped
    ensures !Served(s, w, script).l.stopped <==> NeverReturns(s, w, script)
  {
    if script != [] {
      RunsUntilACause(s, w, script[..|script| - 1]);
      NeverReturnsSplits(s, w, script);
      if Served(s, w, script[..|script| - 1]).l.stopped {
        ReturnedStays(s, w, script);
      } else {
        LastTurnReturns(s, w, script);
      }
    }
  }

  /** Start returns exactly when it finds a cause that is offered, and not before. */
  lemma {:induction false} ReturnsAtACause(s: Setup, w: World, script: seq<Selected>)
    requires Between(w) && !w.l.stopped
    ensures Served(s, w, script).l.stopped <==> exists k :: 0 <= k < |script| && ReturnsAt(s, w, script, k)
  {
    RunsUntilACause(s, w, script);
  }

  /** A stop sender's cause can be taken whenever one was spawned, and it is err as it is then; any other always. */
  lemma CauseTaken(s: Setup, w: World, own: bool)
    requires Between(w) && !w.l.stopped && (own ==> w.l.unread > 0)
    ensures var l' := Turned(s, w, StopArrives(own)).l;
      l'.stopped && l'.causes == w.l.causes + (if own then [w.l.err] else [])
  {
    StartLoop.ExecTwo(w.l, if own then StartLoop.ReadCause else StartLoop.UserStops,
      StartLoop.StopTaken(|w.l.offered|));
  }
}
