/** The node's view of its peers against raft's own configuration, over whole runs. */
module Membership {
  import opened Common
  import opened RaftTypes
  import Capabilities
  import Retrieval
  import opened Driver
  import DriverRuns

  /** The conf change an entry carries, if any. */
  function ConfOf(s: Setup, e: Entry): (cc: Option<ConfChange>) {
    if e.kind.Conf? && e.data.Some? then s.decodeConf(e.data.value) else None
  }

  /** Whether a node that started out as given is a member after the conf changes among the entries. */
  predicate IsMember(s: Setup, entries: seq<Entry>, x: NodeId, start: bool) {
    if entries == [] then start
    else
      var before := IsMember(s, entries[..|entries| - 1], x, start);
      match ConfOf(s, entries[|entries| - 1])
      case None => before
      case Some(cc) =>
        if cc.node != x || cc.kind.UpdateNode? then before else !cc.kind.RemoveNode?
  }

  /** Whether some entry added the node. */
  predicate EverAdded(s: Setup, entries: seq<Entry>, x: NodeId) {
    entries != [] &&
    (EverAdded(s, entries[..|entries| - 1], x) ||
     match ConfOf(s, entries[|entries| - 1])
     case None => false
     case Some(cc) => cc.node == x && cc.kind.AddNode?)
  }

  /** Retrieval gives real nodes, and they answer with the id they were asked for. */
  ghost predicate Faithful(o: EntryOutcome) {
    o.answer.AsAsked? && forall j | 0 <= j < |o.attempts| :: o.attempts[j].Got? ==> o.attempts[j].peer.Client?
  }

  ghost predicate FaithfulRun(cs: seq<Choice>) {
    forall k | 0 <= k < |cs| && cs[k].ApplyOne? :: Faithful(cs[k].outcome)
  }

  /**
   * After a failed conf change, and no other failure: whether it was one of this node. The change is that of
   * the entry after the last one done, and telling raft of it is the last thing that happened.
   */
  ghost predicate Blamed(s: Setup, d: State, x: NodeId) {
    && d.failed
    && |d.done| < |d.raft.log|
    && ConfOf(s, d.raft.log[|d.done|]).Some?
    && ConfOf(s, d.raft.log[|d.done|]).value.node == x
    && d.trace != []
    && d.trace[|d.trace| - 1] == ConfApplied(Current(d), ConfOf(s, d.raft.log[|d.done|]).value)
  }

  ghost predicate ViewIs(s: Setup, view: map<NodeId, Capabilities.Peer>, done: seq<Entry>, x: NodeId) {
    x in view <==> if x == s.id then EverAdded(s, done, x) else IsMember(s, done, x, false)
  }

  ghost predicate ConfigIs(s: Setup, config: set<NodeId>, done: seq<Entry>, x: NodeId) {
    x in config <==> (x != 0 && IsMember(s, done, x, x == s.id))
  }

  ghost predicate Tracked(s: Setup, d: State) {
    && (forall x: NodeId | !Blamed(s, d, x) :: ViewIs(s, d.view, d.done, x))
    && (!d.raft.stopped ==> forall x: NodeId | !Blamed(s, d, x) :: ConfigIs(s, d.raft.config, d.done, x))
  }

  lemma OneMore(s: Setup, done: seq<Entry>, e: Entry, x: NodeId, start: bool)
    ensures IsMember(s, done + [e], x, start)
         == match ConfOf(s, e)
            case None => IsMember(s, done, x, start)
            case Some(cc) =>
              if cc.node != x || cc.kind.UpdateNode? then IsMember(s, done, x, start) else !cc.kind.RemoveNode?
    ensures EverAdded(s, done + [e], x)
         == (EverAdded(s, done, x)
             || (ConfOf(s, e).Some? && ConfOf(s, e).value.node == x && ConfOf(s, e).value.kind.AddNode?))
  {
    assert (done + [e])[..|done + [e]| - 1] == done;
  }

  lemma {:induction false} FaithfulGives(attempts: seq<Retrieval.Attempt>)
    requires attempts != [] && forall j | 0 <= j < |attempts| :: attempts[j].Got? ==> attempts[j].peer.Client?
    ensures Retrieval.Retrieved(attempts).Some? ==> Retrieval.Retrieved(attempts) == Some(Capabilities.Client)
  {
    if attempts[1..] == [] {
      assert Retrieval.FirstGot(attempts[1..]) == None;
    } else {
      FaithfulGives(attempts[1..]);
    }
  }

  /** The id a node found is filed under, without trusting its answer: that of its answer, or 0 for none. */
  lemma FiledByAnswer(d: State, id: NodeId, o: EntryOutcome)
    requires Retrieval.Retrieved(o.attempts) == Some(Capabilities.Client)
    ensures var view := AddPeerNode(d, id, o).after.view;
      && (o.answer.AsAsked? ==> view == d.view[id := Capabilities.Client])
      && (o.answer.OtherId? ==> view == d.view[o.answer.id := Capabilities.Client])
      && (o.answer.NoAnswer? ==> view == d.view[0 := Capabilities.Client])
  {
  }

  /** What registering or unregistering does to the view, node by node; raft's configuration it leaves alone. */
  lemma ChangePeersEffect(s: Setup, d: State, cc: ConfChange, o: EntryOutcome)
    requires s.retries > 0 && |o.attempts| == s.retries && Faithful(o)
    ensures var a := ChangePeers(s, d, cc, o);
      && (forall x | x != cc.node :: x in a.after.view <==> x in d.view)
      && (a.ok ==> cc.kind.AddNode? || cc.kind.RemoveNode?)
      && (a.ok && cc.kind.AddNode? ==> cc.node in a.after.view)
      && (a.ok && cc.kind.RemoveNode? && cc.node != s.id ==> cc.node !in a.after.view)
      && (cc.kind.RemoveNode? && cc.node == s.id ==> a.after.view == d.view)
      && a.after.raft.config == d.raft.config
      && (d.raft.stopped ==> a.after.raft.stopped)
  {
    FaithfulGives(o.attempts);
  }

  lemma ConfiguredEffect(raft: Raft, cc: ConfChange)
    ensures var raft' := Configured(raft, cc);
      && (forall x | x != cc.node :: x in raft'.config <==> x in raft.config)
      && (!raft.stopped && cc.node != 0 && !cc.kind.UpdateNode?
          ==> (cc.node in raft'.config <==> !cc.kind.RemoveNode?))
      && (cc.node == 0 ==> raft'.config == raft.config)
      && raft'.stopped == raft.stopped
  {
  }

  /** What a conf change does to view and configuration, node by node. */
  lemma ConfChangeEffect(s: Setup, d: State, e: Entry, cc: ConfChange, o: EntryOutcome)
    requires s.retries > 0 && |o.attempts| == s.retries && Faithful(o)
    requires e.data.Some? && s.decodeConf(e.data.value) == Some(cc)
    ensures var a := AddConfChange(s, d, e, o);
      && (forall x | x != cc.node :: x in a.after.view <==> x in d.view)
      && (forall x | x != cc.node :: x in a.after.raft.config <==> x in d.raft.config)
      && (a.ok ==> cc.kind.AddNode? || cc.kind.RemoveNode?)
      && (a.ok && cc.kind.AddNode? ==> cc.node in a.after.view)
      && (a.ok && cc.kind.RemoveNode? && cc.node != s.id ==> cc.node !in a.after.view)
      && (cc.kind.RemoveNode? && cc.node == s.id ==> a.after.view == d.view)
      && (!a.after.raft.stopped && cc.node != 0 && !cc.kind.UpdateNode?
          ==> (cc.node in a.after.raft.config <==> !cc.kind.RemoveNode?))
      && (cc.node == 0 ==> a.after.raft.config == d.raft.config)
      && (d.raft.stopped ==> a.after.raft.stopped)
  {
    ChangePeersEffect(s, d, cc, o);
    var changed := ChangePeers(s, d, cc, o);
    ConfiguredEffect(changed.after.raft, cc);
    assert AddConfChange(s, d, e, o) == Result(TellRaft(changed.after, cc), changed.ok);
  }

  lemma ConfChangeTracked(s: Setup, d: State, e: Entry, cc: ConfChange, a: Result, x: NodeId)
    requires s.id != 0 && ConfOf(s, e) == Some(cc) && a.ok
    requires ViewIs(s, d.view, d.done, x)
    requires !d.raft.stopped ==> ConfigIs(s, d.raft.config, d.done, x)
    requires x != cc.node ==> (x in a.after.view <==> x in d.view) && (x in a.after.raft.config <==> x in d.raft.config)
    requires cc.kind.AddNode? || cc.kind.RemoveNode?
    requires cc.kind.AddNode? ==> cc.node in a.after.view
    requires cc.kind.RemoveNode? && cc.node != s.id ==> cc.node !in a.after.view
    requires cc.kind.RemoveNode? && cc.node == s.id ==> a.after.view == d.view
    requires !a.after.raft.stopped && cc.node != 0 ==> (cc.node in a.after.raft.config <==> !cc.kind.RemoveNode?)
    requires cc.node == 0 ==> a.after.raft.config == d.raft.config
    requires d.raft.stopped ==> a.after.raft.stopped
    ensures ViewIs(s, a.after.view, d.done + [e], x)
    ensures !a.after.raft.stopped ==> ConfigIs(s, a.after.raft.config, d.done + [e], x)
  {
    OneMore(s, d.done, e, x, x == s.id);
    OneMore(s, d.done, e, x, false);
  }

  lemma ConfStepTracked(s: Setup, d: State, r: Ready, applied: nat, o: EntryOutcome)
    requires s.id != 0 && s.retries > 0 && |o.attempts| == s.retries && Faithful(o)
    requires DriverRuns.Sound(d) && Tracked(s, d) && d.phase == Applying(r, applied) && applied < |r.committed|
    requires ConfOf(s, r.committed[applied]).Some?
    ensures Tracked(s, AfterEntry(AddConfChange(s, d, r.committed[applied], o), r, applied))
  {
    var e := r.committed[applied];
    var cc := ConfOf(s, e).value;
    var a := AddConfChange(s, d, e, o);
    var d' := AfterEntry(a, r, applied);
    ConfChangeEffect(s, d, e, cc, o);
    DriverRuns.AddConfChangeFrame(s, d, e, o);
    assert e == d.raft.log[|d.done|];
    forall x: NodeId | !Blamed(s, d', x)
      ensures ViewIs(s, d'.view, d'.done, x)
      ensures !d'.raft.stopped ==> ConfigIs(s, d'.raft.config, d'.done, x)
    {
      assert !Blamed(s, d, x);
      if a.ok {
        ConfChangeTracked(s, d, e, cc, a, x);
      }
    }
  }

  lemma PlainStepTracked(s: Setup, d: State, d': State, e: Entry)
    requires Tracked(s, d) && !d.failed && ConfOf(s, e).None?
    requires d'.view == d.view && d'.raft == d.raft
    requires d'.done == d.done + [e] || d'.done == d.done
    ensures Tracked(s, d')
  {
    forall x: NodeId
      ensures ViewIs(s, d'.view, d'.done, x)
      ensures !d'.raft.stopped ==> ConfigIs(s, d'.raft.config, d'.done, x)
    {
      assert !Blamed(s, d, x);
      OneMore(s, d.done, e, x, x == s.id);
      OneMore(s, d.done, e, x, false);
    }
  }

  lemma ApplyTracked(s: Setup, d: State, o: EntryOutcome)
    requires s.id != 0 && s.retries > 0 && Faithful(o)
    requires DriverRuns.Sound(d) && Tracked(s, d) && d.phase.Applying?
    ensures Tracked(s, Step(s, d, ApplyOne(o)))
  {
    var r, applied := d.phase.r, d.phase.applied;
    if applied < |r.committed| && |o.attempts| == s.retries {
      var e := r.committed[applied];
      if ConfOf(s, e).Some? {
        ConfStepTracked(s, d, r, applied, o);
      } else {
        if e.kind.Normal? {
          DriverRuns.AddEntryFrame(s, d, e, o);
        }
        PlainStepTracked(s, d, Step(s, d, ApplyOne(o)), e);
      }
    }
  }

  /** A step that changes neither what was processed nor the members, and not before the log's end. */
  lemma QuietStepTracked(s: Setup, d: State, d': State)
    requires DriverRuns.Sound(d) && Tracked(s, d) && !d.failed
    requires d'.view == d.view && d'.done == d.done
    requires d'.raft.config == d.raft.config && d'.raft.stopped == d.raft.stopped
    ensures Tracked(s, d')
  {
    forall x: NodeId | !Blamed(s, d', x)
      ensures ViewIs(s, d'.view, d'.done, x)
      ensures !d'.raft.stopped ==> ConfigIs(s, d'.raft.config, d'.done, x)
    {
      assert !Blamed(s, d, x);
    }
  }

  lemma StepTracked(s: Setup, d: State, c: Choice)
    requires s.id != 0 && s.retries > 0 && FaithfulRun([c])
    requires DriverRuns.Sound(d) && Tracked(s, d)
    ensures Tracked(s, Step(s, d, c))
  {
    assert [c][0] == c;
    if d.phase.Applying? && c.ApplyOne? {
      ApplyTracked(s, d, c.outcome);
    } else if !d.failed {
      QuietStepTracked(s, d, Step(s, d, c));
    }
  }

  lemma {:induction false} RunsTracked(s: Setup, storage: Storage, cs: seq<Choice>)
    requires s.id != 0 && s.retries > 0 && FaithfulRun(cs)
    ensures DriverRuns.Sound(Exec(s, Initial(s, storage), cs)) && Tracked(s, Exec(s, Initial(s, storage), cs))
  {
    if cs != [] {
      RunsTracked(s, storage, cs[..|cs| - 1]);
      StepTracked(s, Exec(s, Initial(s, storage), cs[..|cs| - 1]), cs[|cs| - 1]);
      DriverRuns.StepKeepsSound(s, Exec(s, Initial(s, storage), cs[..|cs| - 1]), cs[|cs| - 1]);
    }
  }

  /**
   * Membership over whole runs, with faithful retrieval, in every state between entries. View and raft's
   * configuration are both known node by node from the entries processed: they agree on every node but the
   * node itself, which is never unregistered, and node 0, which raft ignores. After a failed
   * conf change the one more node they can differ on is that of the change; FailedChanges says when. A
   * stopped raft's configuration no longer counts; the view still does.
   */
  lemma MembershipAgreement(s: Setup, storage: Storage, cs: seq<Choice>)
    requires s.id != 0 && s.retries > 0 && FaithfulRun(cs)
    ensures var d := Exec(s, Initial(s, storage), cs);
      && (forall x: NodeId | !Blamed(s, d, x) ::
            x in d.view <==> if x == s.id then EverAdded(s, d.done, x) else IsMember(s, d.done, x, false))
      && (!d.raft.stopped ==> forall x: NodeId | !Blamed(s, d, x) ::
            x in d.raft.config <==> (x != 0 && IsMember(s, d.done, x, x == s.id)))
      && (!d.raft.stopped ==> forall x: NodeId | !Blamed(s, d, x) && x != s.id && x != 0 ::
            x in d.view <==> x in d.raft.config)
  {
    RunsTracked(s, storage, cs);
    var d := Exec(s, Initial(s, storage), cs);
    forall x: NodeId | !Blamed(s, d, x)
      ensures ViewIs(s, d.view, d.done, x)
      ensures !d.raft.stopped ==> ConfigIs(s, d.raft.config, d.done, x)
    {
    }
  }

  /**
   * The removal of a leader, on a node whose raft still runs: it stops its own raft exactly when it is itself
   * that leader; otherwise it campaigns exactly when its status names the removed node; it does at most one
   * of the two, and tells raft of the change after it.
   */
  lemma LeaderRemoval(s: Setup, d: State, e: Entry, o: EntryOutcome) returns (events: seq<Event>)
    requires ConfOf(s, e).Some? && ConfOf(s, e).value.kind.RemoveNode? && !d.raft.stopped
    ensures ApplyEntry(s, d, e, o).after.trace == d.trace + events && 1 <= |events| <= 2
    ensures var cc := ConfOf(s, e).value;
      && events[|events| - 1] == ConfApplied(Current(d), cc)
      && (RaftStopped(Current(d)) in events <==> cc.node == s.id && s.id == o.lead1)
      && (Campaigned(Current(d), o.campaignOk) in events
          <==> cc.node == o.lead2 && !(cc.node == s.id && s.id == o.lead1))
      && (ApplyEntry(s, d, e, o).ok <==> Campaigned(Current(d), false) !in events)
  {
    var cc := ConfOf(s, e).value;
    events := [ConfApplied(Current(d), cc)];
    if cc.node == s.id && s.id == o.lead1 {
      events := [RaftStopped(Current(d))] + events;
    } else if cc.node == o.lead2 {
      events := [Campaigned(Current(d), o.campaignOk)] + events;
    }
  }
}
