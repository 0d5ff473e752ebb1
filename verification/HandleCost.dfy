/** How many references a run of the driver takes; the code gives none of the ones counted here back. */
module HandleCost {
  import opened Common
  import opened RaftTypes
  import Capabilities
  import Retrieval
  import opened Driver

  /** One reference per call to a real peer. */
  function SendCost(self: NodeId, peers: map<NodeId, Capabilities.Peer>, msg: Message): (n: nat) {
    if RouteOf(self, peers, msg).Remote? then Capabilities.One(peers[msg.to]) else 0
  }

  /** The calls of a batch. */
  function BatchCost(self: NodeId, peers: map<NodeId, Capabilities.Peer>, msgs: seq<Message>): (n: nat) {
    if msgs == [] then 0
    else BatchCost(self, peers, msgs[..|msgs| - 1]) + SendCost(self, peers, msgs[|msgs| - 1])
  }

  /** Only adding a node takes references; removing one takes and releases its own. */
  function EntryCost(s: Setup, e: Entry, o: EntryOutcome): (n: nat) {
    if e.kind.Conf? && e.data.Some? && s.decodeConf(e.data.value).Some?
       && s.decodeConf(e.data.value).value.kind.AddNode?
    then Retrieval.RegisterCost(o.attempts) else 0
  }

  /** The cost of a step: reading the peers once the store returned, a call, or an entry. */
  function Cost(s: Setup, d: State, c: Choice): (n: nat) {
    match d.phase
    case Idle => 0
    case Storing(r) =>
      if c.StoreReturns? && RunStore(d.storage, r, c.store).ok then |Capabilities.Clients(d.view)| else 0
    case Sending(r, peers, sent) =>
      if c.SendOne? && sent < |r.messages| then SendCost(s.id, peers, r.messages[sent]) else 0
    case Applying(r, applied) =>
      if c.ApplyOne? && applied < |r.committed| && |c.outcome.attempts| == s.retries
      then EntryCost(s, r.committed[applied], c.outcome) else 0
  }

  /** The closed form over a run: the sum of its steps' costs. */
  function TotalCost(s: Setup, d: State, cs: seq<Choice>): (n: nat) {
    if cs == [] then 0
    else TotalCost(s, d, cs[..|cs| - 1]) + Cost(s, Exec(s, d, cs[..|cs| - 1]), cs[|cs| - 1])
  }

  lemma {:induction false} TotalCostConcat(s: Setup, d: State, a: seq<Choice>, b: seq<Choice>)
    ensures TotalCost(s, d, a + b) == TotalCost(s, d, a) + TotalCost(s, Exec(s, d, a), b)
  {
    if b == [] {
      assert a + b == a;
    } else {
      assert (a + b)[..|a + b| - 1] == a + b[..|b| - 1];
      TotalCostConcat(s, d, a, b[..|b| - 1]);
      ExecConcat(s, d, a, b[..|b| - 1]);
    }
  }

  lemma {:induction false} IdleIsFree(s: Setup, d: State, cs: seq<Choice>)
    requires d.phase.Idle? && forall k | 0 <= k < |cs| :: !cs[k].Deliver?
    ensures TotalCost(s, d, cs) == 0
  {
    if cs != [] {
      IdleIsFree(s, d, cs[..|cs| - 1]);
      IdleRests(s, d, cs[..|cs| - 1]);
    }
  }
}
