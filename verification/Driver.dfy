/**
 * The ready driver of raft/node.go as a deterministic machine: Step makes one small step of doReady under one
 * choice of the world outside (what raft delivers, what callbacks and calls return). A choice that is not
 * enabled changes nothing, so the runs of a node are Exec over arbitrary sequences of choices.
 */
module Driver {
  import opened Common
  import opened RaftTypes
  import ItemCodec
  import ItemMaps
  import opened Capabilities
  import Retrieval
  import MemoryLog

  /** What stays fixed while a node runs. */
  datatype Setup = Setup(
    id: NodeId,
    hasCallback: bool,                      // whether OnNewValue is non-nil
    retries: nat,                           // RetrievalRetries
    md5: ItemMaps.Hash,
    decode: string -> Option<ItemCodec.Item>,         // Item.Unmarshal into a fresh Item
    decodeConf: string -> Option<ConfChange>)

  /** The storage handed to RaftStore: raft's MemoryStorage, or a type DefaultRaftStore cannot cast. */
  datatype Storage = Memory(contents: MemoryLog.Contents) | Foreign

  /**
   * etcd's raft.Node as its user sees it: its log, how much of it was delivered as committed and how much of
   * that was acknowledged with Advance, whether a Ready is outstanding, its configuration, and whether it
   * was stopped.
   */
  datatype Raft = Raft(
    log: seq<Entry>, delivered: nat, advanced: nat, outstanding: bool, config: set<NodeId>, stopped: bool)

  /** The log after the entries of a Ready replaced its suffix. */
  function Merged(log: seq<Entry>, entries: seq<Entry>): (merged: seq<Entry>) {
    if entries != [] && 1 <= entries[0].index <= |log| + 1 then log[..entries[0].index - 1] + entries else log
  }

  /**
   * The contract of raft.Node.Ready: one Ready at a time, none after Stop; new entries are contiguous and
   * never overwrite a delivered one; committed entries continue the delivered prefix of raft's log. A Ready
   * with a snapshot may hold anything else.
   */
  predicate Legal(raft: Raft, r: Ready) {
    && !raft.outstanding
    && !raft.stopped
    && (IsEmptySnap(r.snapshot) ==>
          && (r.entries != [] ==> raft.delivered < r.entries[0].index <= |raft.log| + 1)
          && Contiguous(r.entries)
          && var log := Merged(raft.log, r.entries);
             && raft.delivered + |r.committed| <= |log|
             && r.committed == log[raft.delivered..raft.delivered + |r.committed|])
  }

  function Delivered(raft: Raft, r: Ready): (raft': Raft) {
    if IsEmptySnap(r.snapshot) then
      raft.(log := Merged(raft.log, r.entries), delivered := raft.delivered + |r.committed|, outstanding := true)
    else
      raft.(outstanding := true)
  }

  function Advanced(raft: Raft): (raft': Raft) {
    if raft.stopped then raft else raft.(advanced := raft.delivered, outstanding := false)
  }

  /** ApplyConfChange: no effect once stopped, and raft ignores node 0. */
  function Configured(raft: Raft, cc: ConfChange): (raft': Raft) {
    if raft.stopped || cc.node == 0 then raft
    else
      match cc.kind
      case AddNode => raft.(config := raft.config + {cc.node})
      case AddLearner => raft.(config := raft.config + {cc.node})
      case RemoveNode => raft.(config := raft.config - {cc.node})
      case UpdateNode => raft
  }

  /** Where doReady stands: waiting in the event loop, or at a step of the Ready it works on. */
  datatype Phase =
    | Idle
    | Storing(r: Ready)
    | Sending(r: Ready, peers: map<NodeId, Peer>, sent: nat)
    | Applying(r: Ready, applied: nat)

  /** What the node did, each event marked with the number of the Ready it was done for. */
  datatype Event =
    | StoreCalled(n: nat, ok: bool)
    | Stepped(n: nat, msg: Message)
    | Sent(n: nat, msg: Message, ok: bool)
    | Unreachable(n: nat, to: NodeId)
    | Called(n: nat, item: ItemCodec.Item, ok: bool)
    | Put(n: nat, item: ItemCodec.Item)
    | ConfApplied(n: nat, cc: ConfChange)
    | RaftStopped(n: nat)
    | Campaigned(n: nat, ok: bool)
    | AdvanceCalled(n: nat)

  datatype State = State(
    items: map<string, ItemCodec.Item>,
    view: map<NodeId, Peer>,
    storage: Storage,
    raft: Raft,
    phase: Phase,
    failed: bool,          // some doReady returned an error, or the process died in one
    readies: nat,          // Readys received
    done: seq<Entry>,      // entries processed without an error
    trace: seq<Event>)

  function Initial(s: Setup, storage: Storage): (s': State) {
    State(map[], map[], storage, Raft([], 0, 0, false, {s.id}, false), Idle, false, 0, [], [])
  }

  /** What RaftStore did: the default one ran, or another one returned and left these contents. */
  datatype StoreOutcome = DefaultRan | CustomRan(ok: bool, contents: MemoryLog.Contents)

  /** What the id call to a retrieved peer answers. */
  datatype Answer = AsAsked | OtherId(id: NodeId) | NoAnswer

  /** What the calls made for one committed entry return. */
  datatype EntryOutcome = EntryOutcome(
    callbackOk: bool, attempts: seq<Retrieval.Attempt>, answer: Answer, lead1: NodeId, lead2: NodeId, campaignOk: bool)

  datatype Choice =
    | Deliver(r: Ready)
    | StoreReturns(store: StoreOutcome)
    | SendOne(ok: bool)
    | CheckSnapshot
    | ApplyOne(outcome: EntryOutcome)
    | Advance

  /** What processing something came to: the state after it, and whether it went without an error. */
  datatype Result = Result(after: State, ok: bool)

  /** Number of the Ready being worked on. */
  function Current(d: State): (n: nat) {
    if d.readies == 0 then 0 else d.readies - 1
  }

  function Emit(d: State, e: Event): (d': State) {
    d.(trace := d.trace + [e])
  }

  function Fail(d: State): (d': State) {
    d.(phase := Idle, failed := true)
  }

  // ---------------------------------------------------------------------------------- store and send

  /** RaftStore: the storage it leaves, and whether doReady goes on. */
  datatype Ran = Ran(storage: Storage, ok: bool)

  function RunStore(storage: Storage, r: Ready, o: StoreOutcome): (ran: Ran) {
    match o
    case CustomRan(ok, contents) => Ran(if storage.Memory? then Memory(contents) else Foreign, ok)
    case DefaultRan =>
      if storage.Foreign? then Ran(Foreign, false)
      else
        match MemoryLog.StoredReady(storage.contents, r.hard, r.entries, r.snapshot)
        case Panicked => Ran(storage, false)
        case Done(contents) => Ran(Memory(contents), true)
  }

  /** Where sendMessages takes a message. */
  datatype Route = Local | Remote | Dropped

  function RouteOf(self: NodeId, peers: map<NodeId, Peer>, msg: Message): (route: Route) {
    if msg.to == self then Local else if msg.to in peers then Remote else Dropped
  }

  /** The events of one message; a call on a null client fails. */
  function SendEvents(self: NodeId, peers: map<NodeId, Peer>, n: nat, msg: Message, ok: bool)
    : (events: seq<Event>)
  {
    match RouteOf(self, peers, msg)
    case Local => [Stepped(n, msg)]
    case Dropped => []
    case Remote =>
      if ok && peers[msg.to].Client? then [Sent(n, msg, true)]
      else [Sent(n, msg, false), Unreachable(n, msg.to)]
  }

  // ---------------------------------------------------------------------------------- entries

  /** addEntry. */
  function AddEntry(s: Setup, d: State, e: Entry, o: EntryOutcome): (result: Result) {
    if e.data.None? then Result(d, true)
    else
      match s.decode(e.data.value)
      case None => Result(d, false)
      case Some(item) =>
        var called := if s.hasCallback then Emit(d, Called(Current(d), item, o.callbackOk)) else d;
        if s.hasCallback && !o.callbackOk then Result(called, false)
        else
          Result(called.(trace := called.trace + [Put(Current(d), item)],
                         items := ItemMaps.Stored(s.md5, d.items, item)),
                 true)
  }

  function AnswerTo(a: Answer, asked: NodeId): (id: Option<NodeId>) {
    match a
    case AsAsked => Some(asked)
    case OtherId(id) => Some(id)
    case NoAnswer => None
  }

  /** addNode: register. */
  function AddPeerNode(d: State, id: NodeId, o: EntryOutcome): (result: Result) {
    var registered := Retrieval.Registered(d.view, o.attempts, AnswerTo(o.answer, id));
    Result(d.(view := registered.view), registered.ok)
  }

  /** The leader in raft's status; a stopped raft reports none. */
  function Lead(d: State, lead: NodeId): (lead': NodeId) {
    if d.raft.stopped then 0 else lead
  }

  function Unregistered(self: NodeId, view: map<NodeId, Peer>, id: NodeId): (view': map<NodeId, Peer>) {
    if id == self then view else view - {id}
  }

  /** removeNode: step down as or against the leader, then unregister whatever happened. */
  function RemovePeerNode(s: Setup, d: State, id: NodeId, o: EntryOutcome): (result: Result) {
    var view := Unregistered(s.id, d.view, id);
    if s.id == id && id == Lead(d, o.lead1) then
      Result(d.(trace := d.trace + [RaftStopped(Current(d))], view := view, raft := d.raft.(stopped := true)), true)
    else if id == Lead(d, o.lead2) then
      var ok := o.campaignOk && !d.raft.stopped;
      Result(d.(trace := d.trace + [Campaigned(Current(d), ok)], view := view), ok)
    else
      Result(d.(view := view), true)
  }

  /** The switch of addConfChange: what becomes of the view, and whether it went well. */
  function ChangePeers(s: Setup, d: State, cc: ConfChange, o: EntryOutcome): (result: Result) {
    match cc.kind
    case AddNode => AddPeerNode(d, cc.node, o)
    case RemoveNode => RemovePeerNode(s, d, cc.node, o)
    case _ => Result(d, false)
  }

  /** raft.Node.ApplyConfChange. */
  function TellRaft(d: State, cc: ConfChange): (d': State) {
    d.(trace := d.trace + [ConfApplied(Current(d), cc)], raft := Configured(d.raft, cc))
  }

  /** addConfChange: raft is told of the change even when registering it failed. */
  function AddConfChange(s: Setup, d: State, e: Entry, o: EntryOutcome): (result: Result) {
    if e.data.None? then Result(d, true)
    else
      match s.decodeConf(e.data.value)
      case None => Result(d, false)
      case Some(cc) =>
        var changed := ChangePeers(s, d, cc, o);
        Result(TellRaft(changed.after, cc), changed.ok)
  }

  function ApplyEntry(s: Setup, d: State, e: Entry, o: EntryOutcome): (result: Result) {
    match e.kind
    case Normal => AddEntry(s, d, e, o)
    case Conf => AddConfChange(s, d, e, o)
    case OtherKind => Result(d, false)
  }

  // ---------------------------------------------------------------------------------- the machine

  /** The loop of doReady after one entry. */
  function AfterEntry(a: Result, r: Ready, applied: nat): (d': State)
    requires applied < |r.committed|
  {
    if a.ok then a.after.(done := a.after.done + [r.committed[applied]], phase := Applying(r, applied + 1))
    else Fail(a.after)
  }

  /** The return of RaftStore. */
  function AfterStore(d: State, r: Ready, ran: Ran): (d': State) {
    var stored := d.(trace := d.trace + [StoreCalled(Current(d), ran.ok)], storage := ran.storage);
    if ran.ok then stored.(phase := Sending(r, d.view, 0)) else Fail(stored)
  }

  function Step(s: Setup, d: State, c: Choice): (d': State) {
    match d.phase
    case Idle =>
      if c.Deliver? && Legal(d.raft, c.r) then
        d.(raft := Delivered(d.raft, c.r), phase := Storing(c.r), readies := d.readies + 1)
      else d
    case Storing(r) =>
      if c.StoreReturns? then AfterStore(d, r, RunStore(d.storage, r, c.store)) else d
    case Sending(r, peers, sent) =>
      if c.SendOne? && sent < |r.messages| then
        d.(trace := d.trace + SendEvents(s.id, peers, Current(d), r.messages[sent], c.ok),
           phase := Sending(r, peers, sent + 1))
      else if c.CheckSnapshot? && sent >= |r.messages| then
        if IsEmptySnap(r.snapshot) then d.(phase := Applying(r, 0)) else Fail(d)
      else d
    case Applying(r, applied) =>
      if c.ApplyOne? && applied < |r.committed| && |c.outcome.attempts| == s.retries then
        AfterEntry(ApplyEntry(s, d, r.committed[applied], c.outcome), r, applied)
      else if c.Advance? && applied >= |r.committed| then
        d.(trace := d.trace + [AdvanceCalled(Current(d))], raft := Advanced(d.raft), phase := Idle)
      else d
  }

  /** The step of one entry, apart from what processing it comes to. */
  lemma ApplyOneIs(s: Setup, d: State, o: EntryOutcome)
    requires d.phase.Applying?
    ensures var r, applied := d.phase.r, d.phase.applied;
      Step(s, d, ApplyOne(o))
      == if applied < |r.committed| && |o.attempts| == s.retries
         then AfterEntry(ApplyEntry(s, d, r.committed[applied], o), r, applied) else d
  {
  }

  function Exec(s: Setup, d: State, cs: seq<Choice>): (d': State) {
    if cs == [] then d else Step(s, Exec(s, d, cs[..|cs| - 1]), cs[|cs| - 1])
  }

  /** One doReady as a sequence of choices; what follows a failure is not enabled and does nothing. */
  datatype ReadyOutcome = ReadyOutcome(store: StoreOutcome, sends: seq<bool>, entries: seq<EntryOutcome>)

  function SendChoices(sends: seq<bool>): (cs: seq<Choice>) {
    seq(|sends|, k requires 0 <= k < |sends| => SendOne(sends[k]))
  }

  function ApplyChoices(entries: seq<EntryOutcome>): (cs: seq<Choice>) {
    seq(|entries|, k requires 0 <= k < |entries| => ApplyOne(entries[k]))
  }

  function DoReadyScript(o: ReadyOutcome): (cs: seq<Choice>) {
    [StoreReturns(o.store)] + SendChoices(o.sends) + [CheckSnapshot] + ApplyChoices(o.entries) + [Advance]
  }

  lemma {:induction false} ExecConcat(s: Setup, d: State, a: seq<Choice>, b: seq<Choice>)
    ensures Exec(s, d, a + b) == Exec(s, Exec(s, d, a), b)
  {
    if b == [] {
      assert a + b == a;
    } else {
      assert (a + b)[..|a + b| - 1] == a + b[..|b| - 1];
      ExecConcat(s, d, a, b[..|b| - 1]);
    }
  }

  /** Back in the event loop, nothing but a Ready moves the driver. */
  lemma {:induction false} IdleRests(s: Setup, d: State, cs: seq<Choice>)
    requires d.phase.Idle? && forall k | 0 <= k < |cs| :: !cs[k].Deliver?
    ensures Exec(s, d, cs) == d
  {
    if cs != [] {
      IdleRests(s, d, cs[..|cs| - 1]);
    }
  }
}
