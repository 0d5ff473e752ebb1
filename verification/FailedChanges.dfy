/** What a failed conf change leaves behind, and when a node's raft has stopped, over whole runs. */
module FailedChanges {
  import opened Common
  import opened RaftTypes
  import Capabilities
  import opened Driver
  import DriverRuns
  import opened Membership
  import MemoryLog
  import Retrieval

  /**
   * The change that fails, for every kind and every node. Only a removal touches the view, and not the node
   * itself; raft is told all the same, and ignores node 0; telling it is the last thing that happens.
   */
  lemma FailedConfChange(s: Setup, d: State, e: Entry, cc: ConfChange, o: EntryOutcome)
    requires ConfOf(s, e) == Some(cc) && !AddConfChange(s, d, e, o).ok
    ensures var d' := AddConfChange(s, d, e, o).after;
      && d'.view == (if cc.kind.RemoveNode? && cc.node != s.id then d.view - {cc.node} else d.view)
      && (!d'.raft.stopped ==>
            (cc.node in d'.raft.config
             <==> if cc.node == 0 || cc.kind.UpdateNode? then cc.node in d.raft.config else !cc.kind.RemoveNode?))
      && d'.trace != [] && d'.trace[|d'.trace| - 1] == ConfApplied(Current(d), cc)
  {
  }

  /** The conf change that a node with a failed one stopped at. */
  function FailedChange(s: Setup, d: State, x: NodeId): (cc: ConfChange)
    requires Blamed(s, d, x)
  {
    ConfOf(s, d.raft.log[|d.done|]).value
  }

  /** View and configuration at the node of a failed change, from the entries processed and the change. */
  ghost predicate AtBlamed(s: Setup, d: State, x: NodeId, cc: ConfChange) {
    && (x in d.view <==>
          !(cc.kind.RemoveNode? && x != s.id)
          && if x == s.id then EverAdded(s, d.done, x) else IsMember(s, d.done, x, false))
    && (!d.raft.stopped ==>
          (x in d.raft.config <==>
             x != 0 && if cc.kind.UpdateNode? then IsMember(s, d.done, x, x == s.id) else !cc.kind.RemoveNode?))
  }

  ghost predicate Described(s: Setup, d: State) {
    && (forall x: NodeId | Blamed(s, d, x) :: AtBlamed(s, d, x, FailedChange(s, d, x)))
    && (d.phase.Sending? ==> d.trace != [] && !d.trace[|d.trace| - 1].ConfApplied?)
  }

  lemma FailedStepDescribed(s: Setup, d: State, r: Ready, applied: nat, o: EntryOutcome)
    requires DriverRuns.Sound(d) && Tracked(s, d) && d.phase == Applying(r, applied) && applied < |r.committed|
    requires ConfOf(s, r.committed[applied]).Some? && !AddConfChange(s, d, r.committed[applied], o).ok
    ensures Described(s, Fail(AddConfChange(s, d, r.committed[applied], o).after))
  {
    var e := r.committed[applied];
    var cc := ConfOf(s, e).value;
    var d' := Fail(AddConfChange(s, d, e, o).after);
    FailedConfChange(s, d, e, cc, o);
    DriverRuns.AddConfChangeFrame(s, d, e, o);
    StoppedStays(s, d, e, o);
    assert e == d.raft.log[|d.done|];
    forall x: NodeId | Blamed(s, d', x) ensures AtBlamed(s, d', x, FailedChange(s, d', x)) {
      assert !Blamed(s, d, x);
      assert ViewIs(s, d.view, d.done, x);
      assert !d.raft.stopped ==> ConfigIs(s, d.raft.config, d.done, x);
    }
  }

  lemma StoppedStays(s: Setup, d: State, e: Entry, o: EntryOutcome)
    ensures d.raft.stopped ==> ApplyEntry(s, d, e, o).after.raft.stopped
  {
  }

  lemma ApplyDescribed(s: Setup, d: State, o: EntryOutcome)
    requires DriverRuns.Sound(d) && Tracked(s, d) && d.phase.Applying?
    ensures Described(s, Step(s, d, ApplyOne(o)))
  {
    var r, applied := d.phase.r, d.phase.applied;
    if applied < |r.committed| && |o.attempts| == s.retries {
      var e := r.committed[applied];
      DriverRuns.ApplyEntryFrame(s, d, e, o);
      assert e == d.raft.log[|d.done|];
      if ConfOf(s, e).Some? && !AddConfChange(s, d, e, o).ok {
        FailedStepDescribed(s, d, r, applied, o);
      }
    }
  }

  /** Of the other steps those that fail record something else, or nothing, last. */
  lemma OtherStepDescribed(s: Setup, d: State, c: Choice)
    requires DriverRuns.Sound(d) && Described(s, d) && !(d.phase.Applying? && c.ApplyOne?)
    ensures Described(s, Step(s, d, c))
  {
    if d.failed {
      DriverRuns.StepKeepsSound(s, d, c);
    } else {
      NotBlamed(s, d, c);
      SendingRecords(s, d, c);
    }
  }

  lemma NotBlamed(s: Setup, d: State, c: Choice)
    requires DriverRuns.Sound(d) && Described(s, d) && !d.failed && !(d.phase.Applying? && c.ApplyOne?)
    ensures Step(s, d, c).failed ==>
      Step(s, d, c).trace != [] && !Step(s, d, c).trace[|Step(s, d, c).trace| - 1].ConfApplied?
  {
  }

  lemma SendingRecords(s: Setup, d: State, c: Choice)
    requires d.phase.Sending? ==> d.trace != [] && !d.trace[|d.trace| - 1].ConfApplied?
    ensures var d' := Step(s, d, c);
      d'.phase.Sending? ==> d'.trace != [] && !d'.trace[|d'.trace| - 1].ConfApplied?
  {
    if d.phase.Sending? && c.SendOne? && d.phase.sent < |d.phase.r.messages| {
      var events := SendEvents(s.id, d.phase.peers, Current(d), d.phase.r.messages[d.phase.sent], c.ok);
      assert events != [] ==> !events[|events| - 1].ConfApplied?;
      assert d.trace + [] == d.trace;
    }
  }

  lemma {:induction false} RunsDescribed(s: Setup, storage: Storage, cs: seq<Choice>)
    requires s.id != 0 && s.retries > 0 && FaithfulRun(cs)
    ensures Described(s, Exec(s, Initial(s, storage), cs))
  {
    if cs != [] {
      var init, c := cs[..|cs| - 1], cs[|cs| - 1];
      var d := Exec(s, Initial(s, storage), init);
      RunsDescribed(s, storage, init);
      RunsTracked(s, storage, init);
      if d.phase.Applying? && c.ApplyOne? {
        ApplyDescribed(s, d, c.outcome);
      } else {
        OtherStepDescribed(s, d, c);
      }
    }
  }

  /**
   * After a failed conf change of a node, view and raft's configuration at that node follow from the entries
   * processed before and the change, for every kind and also for the node itself and node 0.
   */
  lemma AfterFailedChange(s: Setup, storage: Storage, cs: seq<Choice>, x: NodeId)
    requires s.id != 0 && s.retries > 0 && FaithfulRun(cs)
    requires Blamed(s, Exec(s, Initial(s, storage), cs), x)
    ensures var d := Exec(s, Initial(s, storage), cs);
      var cc := FailedChange(s, d, x);
      && (x in d.view <==>
            !(cc.kind.RemoveNode? && x != s.id)
            && if x == s.id then EverAdded(s, d.done, x) else IsMember(s, d.done, x, false))
      && (!d.raft.stopped ==>
            (x in d.raft.config <==>
               x != 0 && if cc.kind.UpdateNode? then IsMember(s, d.done, x, x == s.id) else !cc.kind.RemoveNode?))
  {
    RunsDescribed(s, storage, cs);
    assert AtBlamed(s, Exec(s, Initial(s, storage), cs), x,
                    FailedChange(s, Exec(s, Initial(s, storage), cs), x));
  }

  /**
   * When the two agree at the node of a failed conf change, exactly: the change is a removal or an update, or
   * the node was a member before. They differ when adding a node that was none, as member or learner, failed.
   */
  lemma AgreeAtFailedChange(s: Setup, storage: Storage, cs: seq<Choice>, x: NodeId)
    requires s.id != 0 && s.retries > 0 && FaithfulRun(cs)
    requires Blamed(s, Exec(s, Initial(s, storage), cs), x) && x != s.id && x != 0
    requires !Exec(s, Initial(s, storage), cs).raft.stopped
    ensures var d := Exec(s, Initial(s, storage), cs);
      var kind := FailedChange(s, d, x).kind;
      (x in d.view <==> x in d.raft.config)
      <==> (kind.RemoveNode? || kind.UpdateNode? || IsMember(s, d.done, x, false))
  {
    AfterFailedChange(s, storage, cs, x);
  }

  // ---------------------------------------------------------------------------------- a run where they differ

  lemma AllErred(n: nat)
    requires n > 0
    ensures Retrieval.Retrieved(seq(n, i => Retrieval.Erred(false, Capabilities.NullClient))) == None
  {
    var attempts := seq(n, i => Retrieval.Erred(false, Capabilities.NullClient));
    Retrieval.FirstGotDecides(attempts);
    assert forall i | 0 <= i < n :: !Retrieval.Decides(attempts, i);
  }

  lemma ExecFour(s: Setup, d: State, a: Choice, b: Choice, c: Choice, e: Choice)
    ensures Exec(s, d, [a, b, c, e]) == Step(s, Step(s, Step(s, Step(s, d, a), b), c), e)
  {
    assert [a, b, c, e][..3] == [a, b, c] && [a, b, c][..2] == [a, b] && [a, b][..1] == [a] && [a][..0] == [];
    assert Exec(s, d, [a]) == Step(s, d, a);
    assert Exec(s, d, [a, b]) == Step(s, Step(s, d, a), b);
    assert Exec(s, d, [a, b, c]) == Step(s, Step(s, Step(s, d, a), b), c);
  }

  /** The Ready of the run below: one conf change, new and committed at once. */
  function OneConf(text: string): (r: Ready) {
    var e := Entry(1, 1, RaftTypes.Conf, Some(text));
    Ready(EMPTY_HARD_STATE, [e], Snapshot(0, 0), [e], [])
  }

  /** Up to its entry, that Ready stores one entry and changes nothing else that counts here. */
  lemma UpToTheEntry(s: Setup, text: string) returns (d3: State)
    ensures var d0, r := Initial(s, Memory(MemoryLog.EMPTY)), OneConf(text);
      d3 == Step(s, Step(s, Step(s, d0, Deliver(r)), StoreReturns(DefaultRan)), CheckSnapshot)
    ensures d3.phase == Applying(OneConf(text), 0) && d3.view == map[] && d3.done == [] && !d3.failed
    ensures d3.raft.log == OneConf(text).entries && !d3.raft.stopped
  {
    var d0, r := Initial(s, Memory(MemoryLog.EMPTY)), OneConf(text);
    var d1 := Step(s, d0, Deliver(r));
    assert d1.phase == Storing(r) && d1.view == map[] && d1.raft.log == r.entries && !d1.raft.stopped;
    var d2 := Step(s, d1, StoreReturns(DefaultRan));
    assert d2.phase == Sending(r, map[], 0) && d2.view == map[] && d2.raft == d1.raft && d2.done == [];
    d3 := Step(s, d2, CheckSnapshot);
  }

  /** The addition of a node that no attempt finds. */
  lemma AdditionFails(s: Setup, d: State, e: Entry, cc: ConfChange, o: EntryOutcome)
    requires s.retries > 0 && o.attempts == seq(s.retries, i => Retrieval.Erred(false, Capabilities.NullClient))
    requires ConfOf(s, e) == Some(cc) && cc.kind.AddNode?
    ensures var a := AddConfChange(s, d, e, o); !a.ok && (a.after.raft.stopped <==> d.raft.stopped)
  {
    AllErred(s.retries);
  }

  lemma DiffersAfter(s: Setup, d: State, r: Ready, cc: ConfChange, o: EntryOutcome)
    requires s.retries > 0 && o.attempts == seq(s.retries, i => Retrieval.Erred(false, Capabilities.NullClient))
    requires d.phase == Applying(r, 0) && d.view == map[] && d.done == [] && d.raft.log == r.committed
    requires |r.committed| == 1 && !d.raft.stopped
    requires ConfOf(s, r.committed[0]) == Some(cc) && cc.kind.AddNode? && cc.node != 0 && cc.node != s.id
    ensures var d' := Step(s, d, ApplyOne(o));
      Blamed(s, d', cc.node) && !d'.raft.stopped && cc.node in d'.raft.config && cc.node !in d'.view
  {
    AdditionFails(s, d, r.committed[0], cc, o);
    FailedConfChange(s, d, r.committed[0], cc, o);
    DriverRuns.AddConfChangeFrame(s, d, r.committed[0], o);
  }

  /** It does happen, for any node and any retry bound: the first addition, when no attempt finds the node. */
  lemma DifferHappens(s: Setup, text: string, cc: ConfChange)
    requires s.retries > 0 && s.decodeConf(text) == Some(cc) && cc.kind.AddNode? && cc.node != 0 && cc.node != s.id
    ensures exists cs ::
      var d := Exec(s, Initial(s, Memory(MemoryLog.EMPTY)), cs);
      FaithfulRun(cs) && Blamed(s, d, cc.node) && !d.raft.stopped && cc.node in d.raft.config && cc.node !in d.view
  {
    var r, d0 := OneConf(text), Initial(s, Memory(MemoryLog.EMPTY));
    var attempts := seq(s.retries, i => Retrieval.Erred(false, Capabilities.NullClient));
    var o := EntryOutcome(true, attempts, AsAsked, 0, 0, true);
    var cs := [Deliver(r), StoreReturns(DefaultRan), CheckSnapshot, ApplyOne(o)];
    ExecFour(s, d0, Deliver(r), StoreReturns(DefaultRan), CheckSnapshot, ApplyOne(o));
    var d3 := UpToTheEntry(s, text);
    DiffersAfter(s, d3, r, cc, o);
    assert FaithfulRun(cs);
  }

  // ---------------------------------------------------------------------------------- stopping itself

  /** A node stops its own raft exactly when it applies its own removal while its status names it leader. */
  lemma StopsItself(s: Setup, d: State, e: Entry, o: EntryOutcome)
    requires !d.raft.stopped
    ensures ApplyEntry(s, d, e, o).after.raft.stopped <==> OwnRemoval(s, e, o)
  {
    if e.kind.Normal? && e.data.Some? {
      assert ApplyEntry(s, d, e, o) == AddEntry(s, d, e, o);
    }
  }

  /** The entry removes the node itself, and the node's status names it leader. */
  predicate OwnRemoval(s: Setup, e: Entry, o: EntryOutcome) {
    && ConfOf(s, e).Some? && ConfOf(s, e).value.kind.RemoveNode? && ConfOf(s, e).value.node == s.id
    && o.lead1 == s.id
  }

  /** Whether the choice processes such an entry on a raft that still runs. */
  predicate StopsHere(s: Setup, d: State, c: Choice) {
    && d.phase.Applying? && d.phase.applied < |d.phase.r.committed|
    && c.ApplyOne? && |c.outcome.attempts| == s.retries
    && !d.raft.stopped && OwnRemoval(s, d.phase.r.committed[d.phase.applied], c.outcome)
  }

  lemma StopStep(s: Setup, d: State, c: Choice)
    ensures Step(s, d, c).raft.stopped <==> d.raft.stopped || StopsHere(s, d, c)
  {
    if d.phase.Applying? && c.ApplyOne? {
      StopApplyOne(s, d, c.outcome);
    }
  }

  lemma StopApplyOne(s: Setup, d: State, o: EntryOutcome)
    requires d.phase.Applying?
    ensures Step(s, d, ApplyOne(o)).raft.stopped <==> d.raft.stopped || StopsHere(s, d, ApplyOne(o))
  {
    if d.phase.applied < |d.phase.r.committed| && |o.attempts| == s.retries {
      var e := d.phase.r.committed[d.phase.applied];
      if d.raft.stopped {
        StoppedStays(s, d, e, o);
      } else {
        StopsItself(s, d, e, o);
      }
    }
  }

  predicate StopsAt(s: Setup, storage: Storage, cs: seq<Choice>, k: nat)
    requires k < |cs|
  {
    StopsHere(s, Exec(s, Initial(s, storage), cs[..k]), cs[k])
  }

  /**
   * Over runs: a node's raft is stopped if and only if at some moment the node processed its own removal while
   * its status named it leader. Nothing else stops it, and nothing starts it again.
   */
  lemma {:induction false} StoppedExactly(s: Setup, storage: Storage, cs: seq<Choice>)
    ensures Exec(s, Initial(s, storage), cs).raft.stopped <==> exists k :: 0 <= k < |cs| && StopsAt(s, storage, cs, k)
  {
    if cs != [] {
      var n := |cs| - 1;
      StoppedExactly(s, storage, cs[..n]);
      forall k | 0 <= k < n ensures StopsAt(s, storage, cs[..n], k) <==> StopsAt(s, storage, cs, k) {
        assert cs[..n][..k] == cs[..k];
      }
      StopStep(s, Exec(s, Initial(s, storage), cs[..n]), cs[n]);
      assert StopsAt(s, storage, cs, n) <==> StopsHere(s, Exec(s, Initial(s, storage), cs[..n]), cs[n]);
      if Exec(s, Initial(s, storage), cs[..n]).raft.stopped {
        var k :| 0 <= k < n && StopsAt(s, storage, cs[..n], k);
        assert StopsAt(s, storage, cs, k);
      } else {
        assert forall k | 0 <= k < n :: !StopsAt(s, storage, cs, k);
      }
    }
  }

  lemma StoppedStep(s: Setup, d: State, c: Choice)
    requires d.raft.stopped
    ensures Step(s, d, c).raft == d.raft
  {
    if d.phase.Applying? && c.ApplyOne? && d.phase.applied < |d.phase.r.committed| {
      StoppedEntry(s, d, d.phase.r.committed[d.phase.applied], c.outcome);
    }
  }

  lemma StoppedEntry(s: Setup, d: State, e: Entry, o: EntryOutcome)
    requires d.raft.stopped
    ensures ApplyEntry(s, d, e, o).after.raft == d.raft
  {
  }

  /** A stopped raft never changes again: it delivers nothing, and takes neither conf changes nor Advance. */
  lemma {:induction false} StoppedForever(s: Setup, d: State, cs: seq<Choice>)
    requires d.raft.stopped
    ensures Exec(s, d, cs).raft == d.raft
  {
    if cs != [] {
      StoppedForever(s, d, cs[..|cs| - 1]);
      StoppedStep(s, Exec(s, d, cs[..|cs| - 1]), cs[|cs| - 1]);
    }
  }
}
