/** Where sendMessages takes each message of a batch. */
module Messages {
  import opened Common
  import opened RaftTypes
  import opened Capabilities
  import opened Driver

  /** The messages of a batch addressed to one node, in order. */
  function Addressed(msgs: seq<Message>, to: NodeId): (addressed: seq<Message>) {
    if msgs == [] then []
    else Addressed(msgs[..|msgs| - 1], to) + if msgs[|msgs| - 1].to == to then [msgs[|msgs| - 1]] else []
  }

  /** Messages stepped locally, messages sent to one node, and reports that this node is unreachable. */
  function SteppedIn(events: seq<Event>): (msgs: seq<Message>) {
    if events == [] then []
    else
      var last := events[|events| - 1];
      SteppedIn(events[..|events| - 1]) + if last.Stepped? then [last.msg] else []
  }

  function SentTo(events: seq<Event>, to: NodeId): (msgs: seq<Message>) {
    if events == [] then []
    else
      var last := events[|events| - 1];
      SentTo(events[..|events| - 1], to) + if last.Sent? && last.msg.to == to then [last.msg] else []
  }

  /** The failed calls to a node, and the reports about it, as positions among the events. */
  function FailuresTo(events: seq<Event>, to: NodeId): (n: nat) {
    if events == [] then 0
    else
      var last := events[|events| - 1];
      FailuresTo(events[..|events| - 1], to) + if last.Sent? && last.msg.to == to && !last.ok then 1 else 0
  }

  function ReportsOf(events: seq<Event>, to: NodeId): (n: nat) {
    if events == [] then 0
    else
      var last := events[|events| - 1];
      ReportsOf(events[..|events| - 1], to) + if last.Unreachable? && last.to == to then 1 else 0
  }

  /** A report directly follows the failed call it reports, and a failed call has its report. */
  ghost predicate ReportFits(events: seq<Event>, p: int)
    requires 0 <= p < |events|
  {
    && (events[p].Unreachable? ==>
          p > 0 && events[p - 1].Sent? && !events[p - 1].ok && events[p - 1].msg.to == events[p].to)
    && (events[p].Sent? && !events[p].ok ==>
          p + 1 < |events| && events[p + 1] == Unreachable(events[p].n, events[p].msg.to))
  }

  ghost predicate ReportsMatch(events: seq<Event>) {
    forall p | 0 <= p < |events| :: ReportFits(events, p)
  }

  /** All events of a batch. */
  function BatchEvents(self: NodeId, peers: map<NodeId, Peer>, n: nat, msgs: seq<Message>, oks: seq<bool>)
    : (events: seq<Event>)
    requires |oks| == |msgs|
  {
    if msgs == [] then []
    else
      BatchEvents(self, peers, n, msgs[..|msgs| - 1], oks[..|msgs| - 1])
      + SendEvents(self, peers, n, msgs[|msgs| - 1], oks[|msgs| - 1])
  }

  lemma {:induction false} ProjectSends(a: seq<Event>, b: seq<Event>, to: NodeId)
    ensures SteppedIn(a + b) == SteppedIn(a) + SteppedIn(b)
    ensures SentTo(a + b, to) == SentTo(a, to) + SentTo(b, to)
    ensures FailuresTo(a + b, to) == FailuresTo(a, to) + FailuresTo(b, to)
    ensures ReportsOf(a + b, to) == ReportsOf(a, to) + ReportsOf(b, to)
  {
    if b == [] {
      assert a + b == a;
    } else {
      assert (a + b)[..|a + b| - 1] == a + b[..|b| - 1];
      ProjectSends(a, b[..|b| - 1], to);
    }
  }

  /** What the projections of a batch's events are. */
  ghost predicate Partitioned(
    self: NodeId, peers: map<NodeId, Peer>, msgs: seq<Message>, events: seq<Event>, to: NodeId)
  {
    && SteppedIn(events) == Addressed(msgs, self)
    && SentTo(events, to) == (if to != self && to in peers then Addressed(msgs, to) else [])
    && FailuresTo(events, to) == ReportsOf(events, to)
  }

  /** Which events a batch has, and where its reports are. */
  ghost predicate Reported(n: nat, events: seq<Event>) {
    && ReportsMatch(events)
    && (forall p | 0 <= p < |events| ::
          events[p].n == n && (events[p].Stepped? || events[p].Sent? || events[p].Unreachable?))
  }

  /** One message gives one entry in exactly one of the projections, or none at all. */
  lemma OneMessage(self: NodeId, peers: map<NodeId, Peer>, n: nat, msg: Message, ok: bool, to: NodeId)
    ensures Partitioned(self, peers, [msg], SendEvents(self, peers, n, msg, ok), to)
  {
    assert [msg][..0] == [];
    var events := SendEvents(self, peers, n, msg, ok);
    if |events| == 2 {
      assert events == [events[0]] + [events[1]];
      ProjectSends([events[0]], [events[1]], to);
    } else if |events| == 1 {
      assert events[..0] == [];
    }
  }

  lemma AddressedOneMore(msgs: seq<Message>, msg: Message, to: NodeId)
    ensures Addressed(msgs + [msg], to) == Addressed(msgs, to) + Addressed([msg], to)
  {
    assert (msgs + [msg])[..|msgs + [msg]| - 1] == msgs && [msg][..0] == [];
  }

  lemma PartitionedOneMore(self: NodeId, peers: map<NodeId, Peer>, msgs: seq<Message>, before: seq<Event>,
                           msg: Message, events: seq<Event>, to: NodeId)
    requires Partitioned(self, peers, msgs, before, to)
    requires Partitioned(self, peers, [msg], events, to)
    ensures Partitioned(self, peers, msgs + [msg], before + events, to)
  {
    AddressedOneMore(msgs, msg, self);
    AddressedOneMore(msgs, msg, to);
    ProjectSends(before, events, to);
  }

  lemma {:induction false} BatchIsPartitioned(
    self: NodeId, peers: map<NodeId, Peer>, n: nat, msgs: seq<Message>, oks: seq<bool>, to: NodeId)
    requires |oks| == |msgs|
    ensures Partitioned(self, peers, msgs, BatchEvents(self, peers, n, msgs, oks), to)
  {
    if msgs != [] {
      var k := |msgs| - 1;
      var before := BatchEvents(self, peers, n, msgs[..k], oks[..k]);
      var events := SendEvents(self, peers, n, msgs[k], oks[k]);
      BatchIsPartitioned(self, peers, n, msgs[..k], oks[..k], to);
      OneMessage(self, peers, n, msgs[k], oks[k], to);
      PartitionedOneMore(self, peers, msgs[..k], before, msgs[k], events, to);
      SplitLast(msgs);
    }
  }

  lemma JoinReports(n: nat, a: seq<Event>, b: seq<Event>)
    requires Reported(n, a) && Reported(n, b)
    ensures Reported(n, a + b)
  {
    var t := a + b;
    forall p | 0 <= p < |t| ensures ReportFits(t, p) {
      if p < |a| {
        assert ReportFits(a, p);
      } else {
        assert ReportFits(b, p - |a|);
      }
    }
  }

  /** The messages of a batch whose call to a node fails: the client is null, or does not answer well. */
  function FailedCalls(
    self: NodeId, peers: map<NodeId, Peer>, msgs: seq<Message>, oks: seq<bool>, to: NodeId): (n: nat)
    requires |oks| == |msgs|
  {
    if msgs == [] then 0
    else
      var k := |msgs| - 1;
      FailedCalls(self, peers, msgs[..k], oks[..k], to)
      + if msgs[k].to == to && to != self && to in peers && !(peers[to].Client? && oks[k]) then 1 else 0
  }

  lemma OneCall(self: NodeId, peers: map<NodeId, Peer>, n: nat, msg: Message, ok: bool, to: NodeId)
    ensures FailuresTo(SendEvents(self, peers, n, msg, ok), to)
         == if msg.to == to && to != self && to in peers && !(peers[to].Client? && ok) then 1 else 0
  {
    var events := SendEvents(self, peers, n, msg, ok);
    if |events| == 2 {
      assert events == [events[0]] + [events[1]];
      ProjectSends([events[0]], [events[1]], to);
    } else if |events| == 1 {
      assert events[..0] == [];
    }
  }

  /** A call is recorded as failed exactly when it is to a null client or is not answered well. */
  lemma {:induction false} FailuresAreFailedCalls(
    self: NodeId, peers: map<NodeId, Peer>, n: nat, msgs: seq<Message>, oks: seq<bool>, to: NodeId)
    requires |oks| == |msgs|
    ensures FailuresTo(BatchEvents(self, peers, n, msgs, oks), to) == FailedCalls(self, peers, msgs, oks, to)
  {
    if msgs != [] {
      var k := |msgs| - 1;
      FailuresAreFailedCalls(self, peers, n, msgs[..k], oks[..k], to);
      OneCall(self, peers, n, msgs[k], oks[k], to);
      ProjectSends(BatchEvents(self, peers, n, msgs[..k], oks[..k]), SendEvents(self, peers, n, msgs[k], oks[k]), to);
    }
  }

  lemma {:induction false} BatchIsReported(
    self: NodeId, peers: map<NodeId, Peer>, n: nat, msgs: seq<Message>, oks: seq<bool>)
    requires |oks| == |msgs|
    ensures Reported(n, BatchEvents(self, peers, n, msgs, oks))
  {
    if msgs != [] {
      var k := |msgs| - 1;
      BatchIsReported(self, peers, n, msgs[..k], oks[..k]);
      JoinReports(n, BatchEvents(self, peers, n, msgs[..k], oks[..k]), SendEvents(self, peers, n, msgs[k], oks[k]));
    }
  }

  /**
   * The partition of a batch. Messages to the node itself are stepped locally, in order; the calls to a peer
   * of the view are, in order, the messages addressed to it; nothing else is called, so every other message
   * is dropped; and the reports of an unreachable node match the failed calls to it one to one.
   */
  lemma BatchPartition(
    self: NodeId, peers: map<NodeId, Peer>, n: nat, msgs: seq<Message>, oks: seq<bool>, to: NodeId)
    requires |oks| == |msgs|
    ensures var events := BatchEvents(self, peers, n, msgs, oks);
      && SteppedIn(events) == Addressed(msgs, self)
      && SentTo(events, to) == (if to != self && to in peers then Addressed(msgs, to) else [])
      && FailuresTo(events, to) == ReportsOf(events, to)
      && ReportsMatch(events)
      && (forall p | 0 <= p < |events| ::
            events[p].n == n && (events[p].Stepped? || events[p].Sent? || events[p].Unreachable?))
  {
    BatchIsPartitioned(self, peers, n, msgs, oks, to);
    BatchIsReported(self, peers, n, msgs, oks);
  }

  lemma LastSend(s: Setup, d: State, oks: seq<bool>)
    requires oks != []
    ensures var k := |oks| - 1;
      Exec(s, d, SendChoices(oks)) == Step(s, Exec(s, d, SendChoices(oks[..k])), SendOne(oks[k]))
  {
    assert SendChoices(oks)[..|oks| - 1] == SendChoices(oks[..|oks| - 1]);
  }

  lemma SendStep(s: Setup, d: State, r: Ready, peers: map<NodeId, Peer>, sent: nat, ok: bool)
    requires d.phase == Sending(r, peers, sent) && sent < |r.messages|
    ensures Step(s, d, SendOne(ok))
         == d.(trace := d.trace + SendEvents(s.id, peers, Current(d), r.messages[sent], ok),
               phase := Sending(r, peers, sent + 1))
  {
  }

  lemma BatchGrows(
    self: NodeId, peers: map<NodeId, Peer>, n: nat, msgs: seq<Message>, oks: seq<bool>, k: nat, trace: seq<Event>)
    requires k < |oks| <= |msgs|
    ensures trace + BatchEvents(self, peers, n, msgs[..k], oks[..k]) + SendEvents(self, peers, n, msgs[k], oks[k])
         == trace + BatchEvents(self, peers, n, msgs[..k + 1], oks[..k + 1])
  {
    assert msgs[..k + 1][..k] == msgs[..k] && oks[..k + 1][..k] == oks[..k];
  }

  lemma SendGrows(s: Setup, d: State, e: State, r: Ready, peers: map<NodeId, Peer>, oks: seq<bool>, k: nat)
    requires k < |oks| <= |r.messages|
    requires e == d.(trace := d.trace + BatchEvents(s.id, peers, Current(d), r.messages[..k], oks[..k]),
                     phase := Sending(r, peers, k))
    ensures Step(s, e, SendOne(oks[k]))
         == d.(trace := d.trace + BatchEvents(s.id, peers, Current(d), r.messages[..k + 1], oks[..k + 1]),
               phase := Sending(r, peers, k + 1))
  {
    SendStep(s, e, r, peers, k, oks[k]);
    BatchGrows(s.id, peers, Current(d), r.messages, oks, k, d.trace);
  }

  /** The sending part of doReady, from its first message: the view is read once and never changes under it. */
  lemma {:induction false} SendingBatch(s: Setup, d: State, r: Ready, peers: map<NodeId, Peer>, oks: seq<bool>)
    requires d.phase == Sending(r, peers, 0) && |oks| <= |r.messages|
    ensures Exec(s, d, SendChoices(oks))
         == d.(trace := d.trace + BatchEvents(s.id, peers, Current(d), r.messages[..|oks|], oks),
               phase := Sending(r, peers, |oks|))
  {
    if oks != [] {
      var k := |oks| - 1;
      SendingBatch(s, d, r, peers, oks[..k]);
      LastSend(s, d, oks);
      SendGrows(s, d, Exec(s, d, SendChoices(oks[..k])), r, peers, oks, k);
      assert oks[..k + 1] == oks;
    } else {
      assert d.trace + [] == d.trace;
    }
  }

  /** In every run, the peers of a batch are those of the view as the Readys before this one left it. */
  lemma {:induction false} PeersAreTheView(s: Setup, storage: Storage, cs: seq<Choice>)
    ensures var d := Exec(s, Initial(s, storage), cs); d.phase.Sending? ==> d.phase.peers == d.view
  {
    if cs != [] {
      PeersAreTheView(s, storage, cs[..|cs| - 1]);
    }
  }
}
