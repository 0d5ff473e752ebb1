/** The type Node of raft/node.go: its fields, updated in place, against the ready driver. */
module Node {
  import opened Common
  import opened RaftTypes
  import ItemCodec
  import ItemMaps
  import opened Capabilities
  import Retrieval
  import MemoryLog
  import opened Driver
  import DriverRuns
  import opened HandleCost
  import Messages
  import Gate
  import opened EventLoop
  import StartLoop

  datatype Proposal = ProposeData(data: string) | ProposeConf(cc: ConfChange)

  class Node {
    const setup: Setup
    const items: ItemMaps.ItemMap
    const view: View
    const storage: MemoryLog.MemoryStorage?
    const gate: Gate.Gate
    /** raft.Node as seen from outside. */
    var raft: Raft
    /** What the node did. */
    ghost var trace: seq<Event>
    /** The proposals made to raft for callers of put, add and remove. */
    ghost var proposed: seq<Proposal>
    /** The driver state that the fields show. */
    ghost var d: State

    ghost predicate Shows(d: State)
      reads this, items, view, storage
    {
      && items.entries == d.items
      && view.Abs() == d.view
      && d.storage == (if storage == null then Foreign else Memory(storage.contents))
      && raft == d.raft
      && trace == d.trace
    }

    ghost predicate Valid()
      reads this, items, view, view.caps, storage
    {
      && items.md5 == setup.md5
      && view.Valid()
      && Shows(d)
      && DriverRuns.Sound(d)
    }

    constructor (setup: Setup, storage: MemoryLog.MemoryStorage?)
      ensures Valid() && this.setup == setup && this.storage == storage
      ensures d == Initial(setup, if storage == null then Foreign else Memory(storage.contents))
      ensures gate.capacity == 0 && !gate.pause && gate.queue == [] && gate.stepped == []
      ensures fresh(items) && fresh(view) && fresh(view.caps) && fresh(gate)
    {
      this.setup := setup;
      this.storage := storage;
      items := new ItemMaps.ItemMap(setup.md5);
      var caps := new CapTable();
      view := new View(caps);
      gate := new Gate.Gate(0);
      raft := Raft([], 0, 0, false, {setup.id}, false);
      trace := [];
      d := Initial(setup, if storage == null then Foreign else Memory(storage.contents));
      new;
      DriverRuns.InitialIsSound(setup, d.storage);
    }

    // ------------------------------------------------------------------------------ store

    /** Calls RaftStore: the default one, or another that leaves the contents it likes. */
    method CallRaftStore(r: Ready, o: StoreOutcome) returns (ok: bool)
      modifies this`trace, storage
      ensures Ran(if storage == null then Foreign else Memory(storage.contents), ok)
           == RunStore(old(if storage == null then Foreign else Memory(storage.contents)), r, o)
      ensures trace == old(trace) + [StoreCalled(Current(d), ok)]
    {
      match o {
        case DefaultRan =>
          var result := MemoryLog.DefaultRaftStore(storage, r.hard, r.entries, r.snapshot);
          ok := !result.err && !result.panicked;
        case CustomRan(fine, contents) =>
          if storage != null {
            storage.contents := contents;
          }
          ok := fine;
      }
      trace := trace + [StoreCalled(Current(d), ok)];
    }

    // ------------------------------------------------------------------------------ messages

    /** raft.Node.Step. */
    ghost method StepRaft(msg: Message)
      modifies this`trace
      ensures trace == old(trace) + [Stepped(Current(d), msg)]
    {
      trace := trace + [Stepped(Current(d), msg)];
    }

    /** rpcSend on a reference of its own: a null client cannot be called. */
    method RpcSend(peer: Ref, msg: Message, answers: bool) returns (err: bool)
      requires view.caps.Usable(peer)
      modifies this`trace
      ensures err <==> peer.Null? || !answers
      ensures trace == old(trace) + [Sent(Current(d), msg, !err)]
    {
      err := peer.Null? || !answers;
      trace := trace + [Sent(Current(d), msg, !err)];
    }

    ghost method ReportUnreachable(to: NodeId)
      modifies this`trace
      ensures trace == old(trace) + [Unreachable(Current(d), to)]
    {
      trace := trace + [Unreachable(Current(d), to)];
    }

    /** The body of the loop of sendMessages. */
    method SendMessage(peers: map<NodeId, Ref>, msg: Message, answers: bool)
      requires view.caps.Valid() && forall id | id in peers :: view.caps.Usable(peers[id])
      modifies this`trace, view.caps
      ensures view.caps.Valid() && old(view.caps.live) <= view.caps.live
      ensures view.caps.released == old(view.caps.released)
      ensures trace == old(trace) + SendEvents(setup.id, Worth(peers), Current(d), msg, answers)
      ensures |view.caps.live| == old(|view.caps.live|) + SendCost(setup.id, Worth(peers), msg)
    {
      if msg.to == setup.id {
        StepRaft(msg);
        return;
      }
      if msg.to in peers {
        var peer := view.caps.AddRef(peers[msg.to]);
        var err := RpcSend(peer, msg, answers);
        if err {
          ReportUnreachable(msg.to);
        }
      }
    }

    /** sendMessages: reads the peers once, then takes the batch in order. */
    method SendMessages(messages: seq<Message>, answers: seq<bool>)
      requires view.Valid() && |answers| == |messages|
      modifies this`trace, view.caps
      ensures view.Valid() && old(view.caps.live) <= view.caps.live
      ensures trace == old(trace) + Messages.BatchEvents(setup.id, view.Abs(), Current(d), messages, answers)
      ensures |view.caps.live|
           == old(|view.caps.live|) + |Clients(view.Abs())| + BatchCost(setup.id, view.Abs(), messages)
    {
      var peers := view.Peers();
      assert Worth(peers) == view.Abs();
      assert messages[..0] == [] && answers[..0] == [];
      for i := 0 to |messages|
        invariant view.Valid() && old(view.caps.live) <= view.caps.live
        invariant forall id | id in peers :: view.caps.Usable(peers[id])
        invariant trace
               == old(trace) + Messages.BatchEvents(setup.id, view.Abs(), Current(d), messages[..i], answers[..i])
        invariant |view.caps.live|
               == old(|view.caps.live|) + |Clients(view.Abs())| + BatchCost(setup.id, view.Abs(), messages[..i])
      {
        Messages.BatchGrows(setup.id, view.Abs(), Current(d), messages, answers, i, old(trace));
        LastMessageCost(setup.id, view.Abs(), messages, i + 1);
        SendMessage(peers, messages[i], answers[i]);
      }
      assert messages[..|messages|] == messages && answers[..|messages|] == answers;
    }

    // ------------------------------------------------------------------------------ entries

    /** The callback OnNewValue. */
    method CallOnNewValue(item: ItemCodec.Item, ok: bool) returns (err: bool)
      modifies this`trace
      ensures err == !ok
      ensures trace == old(trace) + [Called(Current(d), item, ok)]
    {
      err := !ok;
      trace := trace + [Called(Current(d), item, ok)];
    }

    method AddEntry(e: Entry, o: EntryOutcome) returns (err: bool)
      requires Valid() && e.kind.Normal?
      modifies this`trace, items
      ensures Shows(Driver.AddEntry(setup, d, e, o).after)
      ensures err == !Driver.AddEntry(setup, d, e, o).ok
    {
      if e.data.None? {
        return false;
      }
      var item := setup.decode(e.data.value);
      if item.None? {
        return true;
      }
      if setup.hasCallback {
        err := CallOnNewValue(item.value, o.callbackOk);
        if err {
          return;
        }
      }
      items.Put(item.value);
      trace := trace + [Put(Current(d), item.value)];
      return false;
    }

    /** raft.Node.Stop, seen from outside. */
    method StopRaft()
      modifies this`raft, this`trace
      ensures raft == old(raft).(stopped := true)
      ensures trace == old(trace) + [RaftStopped(Current(d))]
    {
      raft := raft.(stopped := true);
      trace := trace + [RaftStopped(Current(d))];
    }

    /** The leader in raft.Node.Status. */
    method StatusLead(lead: NodeId) returns (l: NodeId)
      ensures l == if raft.stopped then 0 else lead
    {
      l := if raft.stopped then 0 else lead;
    }

    /** raft.Node.Campaign: a stopped raft refuses. */
    method Campaign(ok: bool) returns (err: bool)
      modifies this`trace
      ensures err == !(ok && !raft.stopped)
      ensures trace == old(trace) + [Campaigned(Current(d), !err)]
    {
      err := !ok || raft.stopped;
      trace := trace + [Campaigned(Current(d), !err)];
    }

    /** removeNode without its deferred unregister. */
    method StepDown(id: NodeId, o: EntryOutcome) returns (err: bool)
      modifies this`raft, this`trace
      ensures var self := setup.id == id && id == old(if raft.stopped then 0 else o.lead1);
        && raft == (if self then old(raft).(stopped := true) else old(raft))
        && trace == old(trace) + (
             if self then [RaftStopped(Current(d))]
             else if id == (if old(raft).stopped then 0 else o.lead2) then
               [Campaigned(Current(d), o.campaignOk && !old(raft).stopped)]
             else [])
        && err == (!self && id == (if old(raft).stopped then 0 else o.lead2)
                   && !(o.campaignOk && !old(raft).stopped))
    {
      if setup.id == id {
        var lead := StatusLead(o.lead1);
        if setup.id == lead {
          StopRaft();
          return false;
        }
      }
      var lead := StatusLead(o.lead2);
      if id == lead {
        err := Campaign(o.campaignOk);
        return;
      }
      return false;
    }

    method RemoveNode(id: NodeId, o: EntryOutcome) returns (err: bool)
      requires Valid()
      modifies this`raft, this`trace, view, view.caps
      ensures view.Valid() && Shows(RemovePeerNode(setup, d, id, o).after)
      ensures err == !RemovePeerNode(setup, d, id, o).ok
      ensures view.caps.live == old(view.caps.live)
    {
      err := StepDown(id, o);
      Retrieval.Unregister(view, setup.id, id);
      assert trace == RemovePeerNode(setup, d, id, o).after.trace;
    }

    method AddNode(id: NodeId, o: EntryOutcome) returns (err: bool)
      requires Valid()
      modifies view, view.caps
      ensures view.Valid() && Shows(AddPeerNode(d, id, o).after)
      ensures err == !AddPeerNode(d, id, o).ok
      ensures old(view.caps.live) <= view.caps.live
      ensures |view.caps.live| == old(|view.caps.live|) + Retrieval.RegisterCost(o.attempts)
    {
      err := Retrieval.Register(view, o.attempts, AnswerTo(o.answer, id));
    }

    /** raft.Node.ApplyConfChange. */
    method ApplyConfChange(cc: ConfChange)
      modifies this`raft, this`trace
      ensures raft == Configured(old(raft), cc)
      ensures trace == old(trace) + [ConfApplied(Current(d), cc)]
    {
      raft := Configured(raft, cc);
      trace := trace + [ConfApplied(Current(d), cc)];
    }

    /** The switch of addConfChange. */
    method ChangePeers(cc: ConfChange, o: EntryOutcome) returns (err: bool)
      requires Valid()
      modifies this`raft, this`trace, view, view.caps
      ensures view.Valid() && Shows(Driver.ChangePeers(setup, d, cc, o).after)
      ensures err == !Driver.ChangePeers(setup, d, cc, o).ok
      ensures old(view.caps.live) <= view.caps.live
      ensures |view.caps.live|
           == old(|view.caps.live|) + if cc.kind.AddNode? then Retrieval.RegisterCost(o.attempts) else 0
    {
      match cc.kind {
        case AddNode => err := AddNode(cc.node, o);
        case RemoveNode => err := RemoveNode(cc.node, o);
        case _ => err := true;
      }
    }

    method AddConfChange(e: Entry, o: EntryOutcome) returns (err: bool)
      requires Valid() && e.kind.Conf?
      modifies this`raft, this`trace, view, view.caps
      ensures view.Valid() && Shows(Driver.AddConfChange(setup, d, e, o).after)
      ensures err == !Driver.AddConfChange(setup, d, e, o).ok
      ensures old(view.caps.live) <= view.caps.live
      ensures |view.caps.live| == old(|view.caps.live|) + EntryCost(setup, e, o)
    {
      if e.data.None? {
        return false;
      }
      var cc := setup.decodeConf(e.data.value);
      if cc.None? {
        return true;
      }
      err := ChangePeers(cc.value, o);
      ApplyConfChange(cc.value);
    }

    /** The switch of doReady on an entry's type. */
    method ApplyEntry(e: Entry, o: EntryOutcome) returns (err: bool)
      requires Valid()
      modifies this`raft, this`trace, items, view, view.caps
      ensures view.Valid() && Shows(Driver.ApplyEntry(setup, d, e, o).after)
      ensures err == !Driver.ApplyEntry(setup, d, e, o).ok
      ensures old(view.caps.live) <= view.caps.live
      ensures |view.caps.live| == old(|view.caps.live|) + EntryCost(setup, e, o)
    {
      match e.kind {
        case Normal => err := AddEntry(e, o);
        case Conf => err := AddConfChange(e, o);
        case OtherKind => err := true;
      }
    }

    /** One turn of the loop of doReady over the committed entries, at its place in the batch's choices. */
    method ProcessEntry(r: Ready, i: nat, o: EntryOutcome, ghost d0: State, ghost cs: seq<Choice>)
      returns (err: bool)
      requires Valid() && d.phase == Applying(r, i) && i < |r.committed| && |o.attempts| == setup.retries
      requires i < |cs| && cs[i] == ApplyOne(o) && d == Exec(setup, d0, cs[..i])
      modifies this, items, view, view.caps
      ensures Valid() && d == Exec(setup, d0, cs[..i + 1])
      ensures err <==> d.failed
      ensures d.phase == if err then Idle else Applying(r, i + 1)
      ensures old(view.caps.live) <= view.caps.live
      ensures |view.caps.live| + TotalCost(setup, d0, cs[..i])
           == old(|view.caps.live|) + TotalCost(setup, d0, cs[..i + 1])
    {
      err := ApplyEntry(r.committed[i], o);
      ghost var after := EntryStep(setup, d, r, i, o);
      OneChoice(setup, d0, cs, i);
      d := after;
    }

    /** The loop of doReady over the committed entries. */
    method ProcessEntries(r: Ready, outcomes: seq<EntryOutcome>) returns (err: bool)
      requires Valid() && d.phase == Applying(r, 0) && |outcomes| == |r.committed|
      requires forall k | 0 <= k < |outcomes| :: |outcomes[k].attempts| == setup.retries
      modifies this, items, view, view.caps
      ensures Valid() && d == Exec(setup, old(d), ApplyChoices(outcomes))
      ensures err <==> d.failed
      ensures d.phase == if err then Idle else Applying(r, |r.committed|)
      ensures old(view.caps.live) <= view.caps.live
      ensures |view.caps.live| == old(|view.caps.live|) + TotalCost(setup, old(d), ApplyChoices(outcomes))
    {
      ghost var d0, cs := d, ApplyChoices(outcomes);
      err := false;
      var i := 0;
      while i < |r.committed| && !err
        invariant 0 <= i <= |r.committed|
        invariant Valid() && d == Exec(setup, d0, cs[..i])
        invariant d.phase == if err then Idle else Applying(r, i)
        invariant err <==> d.failed
        invariant old(view.caps.live) <= view.caps.live
        invariant |view.caps.live| == old(|view.caps.live|) + TotalCost(setup, d0, cs[..i])
      {
        err := ProcessEntry(r, i, outcomes[i], d0, cs);
        i := i + 1;
      }
      if err {
        RestOfScript(setup, d0, cs, i);
      }
      assert !err ==> cs[..i] == cs;
    }

    // ------------------------------------------------------------------------------ doReady

    /** The start of doReady: RaftStore, and nothing else if it fails. */
    method StoreReady(r: Ready, o: StoreOutcome) returns (err: bool)
      requires Valid() && d.phase == Storing(r)
      modifies this, storage
      ensures Valid() && d == Step(setup, old(d), StoreReturns(o))
      ensures err <==> d.failed
      ensures d.phase == if err then Idle else Sending(r, view.Abs(), 0)
    {
      var ok := CallRaftStore(r, o);
      DriverRuns.StepKeepsSound(setup, d, StoreReturns(o));
      d := Step(setup, d, StoreReturns(o));
      err := !ok;
    }

    method SendBatch(r: Ready, answers: seq<bool>)
      requires Valid() && d.phase == Sending(r, view.Abs(), 0) && |answers| == |r.messages|
      modifies this, view.caps
      ensures Valid() && d == Exec(setup, old(d), SendChoices(answers))
      ensures d.phase == Sending(r, old(view.Abs()), |r.messages|)
      ensures d.failed == old(d.failed)
      ensures old(view.caps.live) <= view.caps.live
      ensures |view.caps.live|
           == old(|view.caps.live|) + |Clients(old(view.Abs()))| + TotalCost(setup, old(d), SendChoices(answers))
    {
      SendMessages(r.messages, answers);
      assert r.messages[..|answers|] == r.messages;
      Messages.SendingBatch(setup, d, r, view.Abs(), answers);
      SendingCost(setup, d, r, view.Abs(), answers);
      DriverRuns.ExecKeepsSound(setup, d, SendChoices(answers));
      d := Exec(setup, d, SendChoices(answers));
    }

    /** The check for a snapshot, which doReady does not handle. */
    method CheckNoSnapshot(r: Ready) returns (err: bool)
      requires Valid() && d.phase.Sending? && d.phase.r == r && d.phase.sent == |r.messages|
      modifies this`d
      ensures Valid() && d == Step(setup, old(d), CheckSnapshot)
      ensures err <==> d.failed
      ensures err <==> !IsEmptySnap(r.snapshot)
      ensures d.phase == if err then Idle else Applying(r, 0)
    {
      DriverRuns.StepKeepsSound(setup, d, CheckSnapshot);
      d := Step(setup, d, CheckSnapshot);
      err := !IsEmptySnap(r.snapshot);
    }

    /** raft.Node.Advance. */
    method AdvanceRaft(r: Ready)
      requires Valid() && d.phase == Applying(r, |r.committed|)
      modifies this
      ensures Valid() && d == Step(setup, old(d), Driver.Advance)
      ensures d.phase.Idle? && d.failed == old(d.failed)
    {
      DriverRuns.StepKeepsSound(setup, d, Driver.Advance);
      raft := Advanced(raft);
      trace := trace + [AdvanceCalled(Current(d))];
      d := Step(setup, d, Driver.Advance);
    }

    /** The event loop receives a Ready, one that raft's contract allows. */
    method ReceiveReady(r: Ready)
      requires Valid() && d.phase.Idle? && Legal(raft, r)
      modifies this
      ensures Valid() && d == Step(setup, old(d), Deliver(r))
      ensures d.phase == Storing(r) && !d.failed
    {
      DriverRuns.StepKeepsSound(setup, d, Deliver(r));
      raft := Delivered(raft, r);
      d := Step(setup, d, Deliver(r));
    }

    /**
     * doReady on the Ready just received. It is the run of the driver on the choices of its outcome, so
     * everything proved of runs holds of it; it takes the references that run costs, and every one that was
     * live stays live.
     */
    method DoReady(r: Ready, o: ReadyOutcome) returns (err: bool)
      requires Valid() && d.phase == Storing(r)
      requires |o.sends| == |r.messages| && |o.entries| == |r.committed|
      requires forall k | 0 <= k < |o.entries| :: |o.entries[k].attempts| == setup.retries
      modifies this, items, view, view.caps, storage
      ensures Valid() && d == Exec(setup, old(d), DoReadyScript(o))
      ensures d.phase.Idle? && (err <==> d.failed)
      ensures old(view.caps.live) <= view.caps.live
      ensures |view.caps.live| == old(|view.caps.live|) + TotalCost(setup, old(d), DoReadyScript(o))
    {
      ghost var d1, d2, d3, d4 := DoReadyUnfolds(setup, d, o);
      StoreCost(setup, d, o.store);
      err := StoreReady(r, o.store);
      if err {
        NothingMore(setup, d, o);
        return;
      }
      SendBatch(r, o.sends);
      err := CheckNoSnapshot(r);
      if err {
        NothingMore(setup, d, o);
        return;
      }
      err := ProcessEntries(r, o.entries);
      if err {
        NothingMore(setup, d, o);
        return;
      }
      AdvanceRaft(r);
    }

    // ------------------------------------------------------------------------------ Start

    /** The node as the loop of Start sees it, with the loop's own state. */
    ghost function Stands(l: StartLoop.State): (w: World)
      reads this, gate
    {
      World(d, gate.pause, gate.queue, gate.stepped, l)
    }

    /** The case of a Ready, which raft delivers only if its contract allows it. */
    method ReadyCase(r: Ready, o: ReadyOutcome) returns (came: bool, err: bool)
      requires Valid() && d.phase.Idle?
      modifies this, items, view, view.caps, storage
      ensures Valid() && (came <==> Legal(old(raft), r) && Covers(setup, r, o))
      ensures d == if came then Exec(setup, old(d), [Deliver(r)] + DoReadyScript(o)) else old(d)
      ensures err <==> came && d.failed
      ensures old(view.caps.live) <= view.caps.live
      ensures |view.caps.live| == old(|view.caps.live|)
           + TotalCost(setup, old(d), if came then [Deliver(r)] + DoReadyScript(o) else [])
    {
      came, err := Legal(raft, r) && Covers(setup, r, o), false;
      if came {
        ExecConcat(setup, d, [Deliver(r)], DoReadyScript(o));
        TotalCostConcat(setup, d, [Deliver(r)], DoReadyScript(o));
        OneChoiceCost(setup, d, Deliver(r));
        ReceiveReady(r);
        err := DoReady(r, o);
      }
    }

    /** The case of a pause request, taken only if the wait it leads to ends. */
    method PauseCase(pause: bool, signals: seq<Gate.Signal>, oks: seq<bool>, ghost w: World)
      returns (came: bool, err: bool)
      requires w.pause == gate.pause && w.queue == gate.queue && w.stepped == gate.stepped
      modifies gate
      ensures came <==> Gate.WaitEnds(pause, signals).Some? && |oks| >= |w.queue|
      ensures came ==>
        Paused(gate.pause, gate.queue, gate.stepped, err) == PausedBy(w, Gate.WaitEnds(pause, signals).value, oks)
      ensures !came ==> gate.pause == w.pause && gate.queue == w.queue && gate.stepped == w.stepped && !err
    {
      came, err := Gate.WaitEnds(pause, signals).Some? && |oks| >= |gate.queue|, false;
      if came {
        err := gate.DoPause(pause, signals, oks);
      }
    }

    /** The other cases: a tick, the end of the context, and a cause, which nobody may be offering. */
    method OtherCase(selected: Selected, err: bool, spawned: nat) returns (turn: Turn, err': bool)
      requires !selected.ReadyArrives? && !selected.PauseArrives?
      ensures turn.Returns? <==> selected.StopArrives? && !(selected.own && spawned == 0)
      ensures turn.PassesOver? <==> selected.StopArrives? && selected.own && spawned == 0
      ensures err' <==> err || selected.ContextEnds?
    {
      turn, err' := Iterates, err;
      match selected {
        case Ticks =>
        case ContextEnds => err' := true;
        case StopArrives(own) => turn := if own && spawned == 0 then PassesOver else Returns;
      }
    }

    /**
     * One turn of the loop of Start: the node, err and the stop senders become what EventLoop says of the case
     * found. spawned counts the stop senders, of which none has run while the loop goes on.
     */
    method TakeTurn(selected: Selected, err: bool, spawned: nat, ghost l: StartLoop.State)
      returns (turn: Turn, err': bool, ghost l': StartLoop.State)
      requires Valid() && Between(Stands(l)) && !l.stopped && err == l.err && spawned == l.unread
      modifies this, items, view, view.caps, storage, gate
      ensures Valid() && Stands(l') == Turned(setup, old(Stands(l)), selected)
      ensures turn == TurnOf(setup, old(Stands(l)), selected)
      ensures err' == ErrAfter(setup, old(Stands(l)), selected)
      ensures old(view.caps.live) <= view.caps.live
      ensures |view.caps.live|
           == old(|view.caps.live|) + TotalCost(setup, old(d), DriverChoices(setup, old(Stands(l)), selected))
    {
      ghost var w := Stands(l);
      match selected {
        case ReadyArrives(r, o) =>
          var came, e := ReadyCase(r, o);
          turn, err' := if came then Iterates else PassesOver, if came then e else err;
          ReadyTurned(setup, w, r, o, came);
        case PauseArrives(pause, signals, oks) =>
          var came, e := PauseCase(pause, signals, oks, w);
          turn, err' := if came then Iterates else PassesOver, if came then e else err;
          PauseTurned(setup, w, pause, signals, oks, came);
        case _ =>
          turn, err' := OtherCase(selected, err, spawned);
          OtherTurned(setup, w, selected);
      }
      l' := Turned(setup, w, selected).l;
    }

    /**
     * The loop of Start over any finite part of what its select finds: it serves the script, and counts the
     * stop senders it spawned.
     */
    method Start(script: seq<Selected>) returns (spawned: nat, ghost l: StartLoop.State)
      requires Valid() && d.phase.Idle? && !d.failed
      modifies this, items, view, view.caps, storage, gate
      ensures Valid() && Stands(l) == Served(setup, old(Stands(StartLoop.START)), script)
      ensures spawned == l.spawned == Iterations(setup, old(Stands(StartLoop.START)), script, true)
      ensures old(view.caps.live) <= view.caps.live
      ensures |view.caps.live| == old(|view.caps.live|)
           + TotalCost(setup, old(d), AllDriverChoices(setup, old(Stands(StartLoop.START)), script))
    {
      ghost var w := Stands(StartLoop.START);
      var err, returned := false, false;
      var i := 0;
      spawned, l := 0, StartLoop.START;
      assert script[..0] == [];
      while i < |script| && !returned
        invariant 0 <= i <= |script|
        invariant Valid() && Between(Stands(l)) && Stands(l) == Served(setup, w, script[..i])
        invariant returned == l.stopped
        invariant spawned == l.spawned && (!returned ==> err == l.err && spawned == l.unread)
        invariant old(view.caps.live) <= view.caps.live
        invariant |view.caps.live|
               == old(|view.caps.live|) + TotalCost(setup, old(d), AllDriverChoices(setup, w, script[..i]))
      {
        ghost var before := Stands(l);
        NextTurn(setup, w, script, i);
        LoopTurns(setup, before, script[i]);
        TurnKeepsBetween(setup, before, script[i]);
        var turn;
        turn, err, l := TakeTurn(script[i], err, spawned, l);
        i := i + 1;
        returned := turn.Returns?;
        if turn.Iterates? && err {
          spawned := spawned + 1;
        }
      }
      NothingServed(setup, w, script, i);
      OneSenderPerError(setup, w, script);
    }

    // ------------------------------------------------------------------------------ calls from other nodes

    /** PutItem: proposes the item's text. */
    method PutItem(item: ItemCodec.Item, accepted: bool) returns (err: bool)
      modifies this`proposed
      ensures proposed == old(proposed) + [ProposeData(ItemCodec.Marshal(item))] && err == !accepted
    {
      var data := ItemCodec.Marshal(item);
      proposed := proposed + [ProposeData(data)];
      err := !accepted;
    }

    /** rpcGetId on a reference of its own. */
    method Ask(node: Ref, answer: Option<NodeId>) returns (id: Option<NodeId>)
      requires view.Valid() && view.caps.Usable(node)
      modifies view.caps
      ensures view.Valid() && old(view.caps.live) <= view.caps.live
      ensures id == if node.Ref? then answer else None
    {
      var asked := view.caps.AddRef(node);
      id := RpcGetId(view.caps, asked, answer);
    }

    /**
     * add: proposes the conf change that adds the node under the id it answers with, and returns a reference
     * to every known peer. Null stands for a client that cannot be resolved or called.
     */
    method Add(node: Ref, resolves: bool, answer: Option<NodeId>, accepted: bool)
      returns (peers: seq<Ref>, err: bool, ghost ids: seq<NodeId>)
      requires Valid() && view.caps.Usable(node)
      modifies this`proposed, view.caps
      ensures Valid() && old(view.caps.live) <= view.caps.live
      ensures err <==> !(resolves && node.Ref? && answer.Some? && accepted)
      ensures proposed == old(proposed) + if resolves && node.Ref? && answer.Some?
        then [ProposeConf(ConfChange(answer.value, RaftTypes.AddNode, answer.value))] else []
      ensures Enumerates(ids, if err then {} else view.peers.Keys)
      ensures RefsTo(view.Abs(), ids, peers) && NewRefs(view.caps, old(view.caps.live), peers)
    {
      peers, ids := [], [];
      var own := view.caps.AddRef(node);
      if !resolves {
        err := true;
        return;
      }
      var id := Ask(own, answer);
      if id.None? {
        err := true;
        return;
      }
      proposed := proposed + [ProposeConf(ConfChange(id.value, RaftTypes.AddNode, id.value))];
      err := !accepted;
      if !err {
        peers, ids := KnownPeers();
      }
    }

    /** The last part of add: a reference to every peer, in whatever order the map gives them. */
    method KnownPeers() returns (peers: seq<Ref>, ghost ids: seq<NodeId>)
      requires view.Valid()
      modifies view.caps
      ensures view.Valid() && old(view.caps.live) <= view.caps.live
      ensures Enumerates(ids, view.peers.Keys)
      ensures RefsTo(view.Abs(), ids, peers) && NewRefs(view.caps, old(view.caps.live), peers)
    {
      var found := view.Peers();
      peers, ids := [], [];
      var todo := found.Keys;
      while todo != {}
        invariant view.Valid() && old(view.caps.live) <= view.caps.live && todo <= found.Keys
        invariant forall id | id in found :: view.caps.Usable(found[id])
        invariant Enumerates(ids, found.Keys - todo) && RefsTo(view.Abs(), ids, peers)
        invariant NewRefs(view.caps, old(view.caps.live), peers)
        decreases todo
      {
        var id :| id in todo;
        assert found.Keys - (todo - {id}) == found.Keys - todo + {id};
        EnumeratesMore(ids, found.Keys - todo, id);
        ghost var before := peers;
        peers := OneMorePeer(peers, found[id], old(view.caps.live));
        RefsToMore(view.Abs(), ids, before, id, peers[|before|]);
        ids := ids + [id];
        todo := todo - {id};
      }
    }

    /** The body of the loop of add. */
    method OneMorePeer(peers: seq<Ref>, peer: Ref, ghost before: set<nat>) returns (peers': seq<Ref>)
      requires view.caps.Valid() && view.caps.Usable(peer)
      requires before <= view.caps.live && NewRefs(view.caps, before, peers)
      modifies view.caps
      ensures view.caps.Valid() && old(view.caps.live) <= view.caps.live
      ensures |peers'| == |peers| + 1 && peers' == peers + [peers'[|peers|]]
      ensures PeerOf(peers'[|peers|]) == PeerOf(peer)
      ensures NewRefs(view.caps, before, peers')
    {
      var own := view.caps.AddRef(peer);
      peers' := peers + [own];
    }

    /** remove: proposes the conf change that removes the node under the id it answers with. */
    method Remove(node: Ref, answer: Option<NodeId>, accepted: bool) returns (err: bool)
      requires Valid() && view.caps.Usable(node)
      modifies this`proposed, view.caps
      ensures Valid() && old(view.caps.live) <= view.caps.live
      ensures err <==> !(node.Ref? && answer.Some? && accepted)
      ensures proposed == old(proposed) + if node.Ref? && answer.Some?
        then [ProposeConf(ConfChange(answer.value, RaftTypes.RemoveNode, answer.value))] else []
    {
      var own := view.caps.AddRef(node);
      var id := Ask(own, answer);
      if id.None? {
        return true;
      }
      proposed := proposed + [ProposeConf(ConfChange(id.value, RaftTypes.RemoveNode, id.value))];
      err := !accepted;
    }
  }

  /** One more turn of a script, in the world and in the choices of the driver. */
  lemma NextTurn(s: Setup, w: World, script: seq<Selected>, i: nat)
    requires i < |script| && !Served(s, w, script[..i]).l.stopped
    ensures var before := Served(s, w, script[..i]);
      && Served(s, w, script[..i + 1]) == Turned(s, before, script[i])
      && TotalCost(s, w.d, AllDriverChoices(s, w, script[..i + 1]))
         == TotalCost(s, w.d, AllDriverChoices(s, w, script[..i]))
            + TotalCost(s, before.d, DriverChoices(s, before, script[i]))
  {
    assert script[..i + 1][..i] == script[..i];
    ServedRuns(s, w, script[..i]);
    TotalCostConcat(s, w.d, AllDriverChoices(s, w, script[..i]),
      DriverChoices(s, Served(s, w, script[..i]), script[i]));
  }

  /** Once Start returned, the rest of its script changes nothing. */
  lemma {:induction false} NothingServed(s: Setup, w: World, script: seq<Selected>, i: nat)
    requires i <= |script| && (i < |script| ==> Served(s, w, script[..i]).l.stopped)
    ensures Served(s, w, script) == Served(s, w, script[..i])
    ensures AllDriverChoices(s, w, script) == AllDriverChoices(s, w, script[..i])
  {
    if i == |script| {
      assert script[..i] == script;
    } else {
      var init := script[..|script| - 1];
      assert init[..i] == script[..i];
      NothingServed(s, w, init, i);
      assert AllDriverChoices(s, w, init) + [] == AllDriverChoices(s, w, init);
    }
  }

  /** The state and the cost of a doReady, part by part. */
  lemma DoReadyUnfolds(s: Setup, d0: State, o: ReadyOutcome) returns (d1: State, d2: State, d3: State, d4: State)
    ensures d1 == Step(s, d0, StoreReturns(o.store))
    ensures d2 == Exec(s, d1, SendChoices(o.sends))
    ensures d3 == Step(s, d2, CheckSnapshot)
    ensures d4 == Exec(s, d3, ApplyChoices(o.entries))
    ensures Exec(s, d0, DoReadyScript(o)) == Step(s, d4, Driver.Advance)
    ensures TotalCost(s, d0, DoReadyScript(o))
         == Cost(s, d0, StoreReturns(o.store)) + TotalCost(s, d1, SendChoices(o.sends))
            + TotalCost(s, d3, ApplyChoices(o.entries))
  {
    d1, d3 := DoReadyParts(s, d0, o);
    d2, d4 := Exec(s, d1, SendChoices(o.sends)), Exec(s, d3, ApplyChoices(o.entries));
    DoReadyCost(s, d0, o, d1, d2, d3, d4);
  }

  lemma ScriptNests(o: ReadyOutcome)
    ensures DoReadyScript(o)
         == [StoreReturns(o.store)]
            + (SendChoices(o.sends) + ([CheckSnapshot] + (ApplyChoices(o.entries) + [Driver.Advance])))
  {
  }

  /** Only the store, the messages and the entries cost anything. */
  lemma DoReadyCost(s: Setup, d0: State, o: ReadyOutcome, d1: State, d2: State, d3: State, d4: State)
    requires d1 == Step(s, d0, StoreReturns(o.store)) && d2 == Exec(s, d1, SendChoices(o.sends))
    requires d3 == Step(s, d2, CheckSnapshot) && d4 == Exec(s, d3, ApplyChoices(o.entries))
    ensures TotalCost(s, d0, DoReadyScript(o))
         == Cost(s, d0, StoreReturns(o.store)) + TotalCost(s, d1, SendChoices(o.sends))
            + TotalCost(s, d3, ApplyChoices(o.entries))
  {
    var r4 := ApplyChoices(o.entries) + [Driver.Advance];
    var r3 := [CheckSnapshot] + r4;
    ScriptNests(o);
    OneChoiceCost(s, d0, StoreReturns(o.store));
    TotalCostConcat(s, d0, [StoreReturns(o.store)], SendChoices(o.sends) + r3);
    TotalCostConcat(s, d1, SendChoices(o.sends), r3);
    OneChoiceCost(s, d2, CheckSnapshot);
    TotalCostConcat(s, d2, [CheckSnapshot], r4);
    TotalCostConcat(s, d3, ApplyChoices(o.entries), [Driver.Advance]);
    OneChoiceCost(s, d4, Driver.Advance);
    FreeChoices(s, d2, d4);
  }

  lemma FreeChoices(s: Setup, d2: State, d4: State)
    ensures Cost(s, d2, CheckSnapshot) == 0 && Cost(s, d4, Driver.Advance) == 0
  {
  }

  lemma OneChoiceCost(s: Setup, d: State, c: Choice)
    ensures Exec(s, d, [c]) == Step(s, d, c) && TotalCost(s, d, [c]) == Cost(s, d, c)
  {
    assert [c][..0] == [];
  }

  /** After a failure the rest of doReady's choices do nothing and cost nothing. */
  lemma NothingMore(s: Setup, d: State, o: ReadyOutcome)
    requires d.phase.Idle?
    ensures Exec(s, d, SendChoices(o.sends)) == d && TotalCost(s, d, SendChoices(o.sends)) == 0
    ensures Step(s, d, CheckSnapshot) == d
    ensures Exec(s, d, ApplyChoices(o.entries)) == d && TotalCost(s, d, ApplyChoices(o.entries)) == 0
    ensures Step(s, d, Driver.Advance) == d
  {
    IdleRests(s, d, SendChoices(o.sends));
    IdleIsFree(s, d, SendChoices(o.sends));
    IdleRests(s, d, ApplyChoices(o.entries));
    IdleIsFree(s, d, ApplyChoices(o.entries));
  }

  /** Reading the peers is paid for when the store has returned. */
  lemma StoreCost(s: Setup, d: State, o: StoreOutcome)
    requires d.phase.Storing?
    ensures Cost(s, d, StoreReturns(o)) == if Step(s, d, StoreReturns(o)).phase.Idle? then 0 else |Clients(d.view)|
  {
  }

  lemma OneChoice(s: Setup, d: State, cs: seq<Choice>, k: nat)
    requires k < |cs|
    ensures Exec(s, d, cs[..k + 1]) == Step(s, Exec(s, d, cs[..k]), cs[k])
    ensures TotalCost(s, d, cs[..k + 1]) == TotalCost(s, d, cs[..k]) + Cost(s, Exec(s, d, cs[..k]), cs[k])
  {
    assert cs[..k + 1][..k] == cs[..k];
  }

  /** Once a prefix of a script ended back in the loop, the rest of it does and costs nothing. */
  lemma RestOfScript(s: Setup, d: State, cs: seq<Choice>, k: nat)
    requires k <= |cs| && Exec(s, d, cs[..k]).phase.Idle?
    requires forall i | k <= i < |cs| :: !cs[i].Deliver?
    ensures Exec(s, d, cs) == Exec(s, d, cs[..k]) && TotalCost(s, d, cs) == TotalCost(s, d, cs[..k])
  {
    assert cs == cs[..k] + cs[k..];
    ExecConcat(s, d, cs[..k], cs[k..]);
    TotalCostConcat(s, d, cs[..k], cs[k..]);
    IdleRests(s, Exec(s, d, cs[..k]), cs[k..]);
    IdleIsFree(s, Exec(s, d, cs[..k]), cs[k..]);
  }

  /** The step of one entry: what processing it gave, and doReady's place in the batch. */
  lemma EntryStep(s: Setup, d: State, r: Ready, i: nat, o: EntryOutcome) returns (after: State)
    requires DriverRuns.Sound(d) && d.phase == Applying(r, i) && i < |r.committed| && |o.attempts| == s.retries
    ensures after == Step(s, d, ApplyOne(o)) && DriverRuns.Sound(after)
    ensures var a := Driver.ApplyEntry(s, d, r.committed[i], o);
      && after.items == a.after.items && after.view == a.after.view && after.storage == a.after.storage
      && after.raft == a.after.raft && after.trace == a.after.trace
      && after.failed == !a.ok && after.phase == if a.ok then Applying(r, i + 1) else Idle
    ensures Cost(s, d, ApplyOne(o)) == EntryCost(s, r.committed[i], o)
  {
    after := Step(s, d, ApplyOne(o));
    DriverRuns.ApplyEntryFrame(s, d, r.committed[i], o);
    DriverRuns.ApplyOneKeepsSound(s, d, o);
  }

  /** The calls of a batch, one by one or at once. */
  lemma {:induction false} SendingCost(s: Setup, d: State, r: Ready, peers: map<NodeId, Peer>, oks: seq<bool>)
    requires d.phase == Sending(r, peers, 0) && |oks| <= |r.messages|
    ensures TotalCost(s, d, SendChoices(oks)) == BatchCost(s.id, peers, r.messages[..|oks|])
  {
    if oks != [] {
      var k := |oks| - 1;
      SendingCost(s, d, r, peers, oks[..k]);
      Messages.SendingBatch(s, d, r, peers, oks[..k]);
      LastChoiceCost(s, d, oks);
      LastSendCost(s, Exec(s, d, SendChoices(oks[..k])), r, peers, k, oks[k]);
      LastMessageCost(s.id, peers, r.messages, |oks|);
    }
  }

  lemma LastChoiceCost(s: Setup, d: State, oks: seq<bool>)
    requires oks != []
    ensures var k := |oks| - 1;
      TotalCost(s, d, SendChoices(oks))
      == TotalCost(s, d, SendChoices(oks[..k])) + Cost(s, Exec(s, d, SendChoices(oks[..k])), SendOne(oks[k]))
  {
    assert SendChoices(oks)[..|oks| - 1] == SendChoices(oks[..|oks| - 1]);
  }

  lemma LastMessageCost(self: NodeId, peers: map<NodeId, Peer>, msgs: seq<Message>, n: nat)
    requires 0 < n <= |msgs|
    ensures BatchCost(self, peers, msgs[..n])
         == BatchCost(self, peers, msgs[..n - 1]) + SendCost(self, peers, msgs[n - 1])
  {
    assert msgs[..n][..n - 1] == msgs[..n - 1];
  }

  lemma LastSendCost(s: Setup, d: State, r: Ready, peers: map<NodeId, Peer>, sent: nat, ok: bool)
    requires d.phase == Sending(r, peers, sent) && sent < |r.messages|
    ensures Cost(s, d, SendOne(ok)) == SendCost(s.id, peers, r.messages[sent])
  {
  }
}
