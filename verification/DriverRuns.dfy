/** What holds of the log in every state of every run of the ready driver, failures anywhere included. */
module DriverRuns {
  import opened RaftTypes
  import opened Driver

  /** The entries delivered as committed so far. */
  function Stream(d: State): (entries: seq<Entry>)
    requires d.raft.delivered <= |d.raft.log|
  {
    d.raft.log[..d.raft.delivered]
  }

  /** The outstanding Ready's committed entries end the stream, and applied of them are done. */
  ghost predicate Pending(d: State, r: Ready, applied: nat) {
    && d.raft.outstanding
    && !d.failed
    && d.readies > 0
    && (IsEmptySnap(r.snapshot) ==>
          && applied <= |r.committed| <= d.raft.delivered <= |d.raft.log|
          && |d.done| == d.raft.delivered - |r.committed| + applied
          && r.committed == d.raft.log[d.raft.delivered - |r.committed|..d.raft.delivered])
  }

  /** What is done is a prefix of the log, and where the driver stands tells how far it reaches. */
  ghost predicate Sound(d: State) {
    && IndexedFromOne(d.raft.log)
    && d.raft.advanced <= |d.done| <= d.raft.delivered <= |d.raft.log|
    && d.done == d.raft.log[..|d.done|]
    && (d.failed ==> d.raft.outstanding && d.phase.Idle?)
    && (d.phase.Idle? && !d.failed ==> |d.done| == d.raft.delivered)
    && (!d.raft.outstanding ==> d.phase.Idle? && d.raft.advanced == d.raft.delivered)
    && (d.phase.Idle? && !d.failed && !d.raft.stopped ==> !d.raft.outstanding)
    && match d.phase
       case Idle => true
       case Storing(r) => Pending(d, r, 0)
       case Sending(r, _, sent) => Pending(d, r, 0) && sent <= |r.messages|
       case Applying(r, applied) => IsEmptySnap(r.snapshot) && Pending(d, r, applied)
  }

  lemma ChangePeersFrame(s: Setup, d: State, cc: ConfChange, o: EntryOutcome)
    ensures var d' := ChangePeers(s, d, cc, o).after;
      d' == d.(view := d'.view, trace := d'.trace, raft := d.raft.(stopped := d'.raft.stopped))
  {
  }

  /** A conf change touches nothing but the view, raft's configuration and the trace. */
  lemma AddConfChangeFrame(s: Setup, d: State, e: Entry, o: EntryOutcome)
    ensures var d' := AddConfChange(s, d, e, o).after;
      d' == d.(view := d'.view, trace := d'.trace,
               raft := d.raft.(config := d'.raft.config, stopped := d'.raft.stopped))
  {
    if e.data.Some? && s.decodeConf(e.data.value).Some? {
      var cc := s.decodeConf(e.data.value).value;
      ChangePeersFrame(s, d, cc, o);
      TellRaftFrame(ChangePeers(s, d, cc, o).after, cc);
    }
  }

  lemma TellRaftFrame(d: State, cc: ConfChange)
    ensures var d' := TellRaft(d, cc);
      d' == d.(trace := d'.trace, raft := d.raft.(config := d'.raft.config))
  {
  }

  /** A normal entry touches nothing but the map and the trace. */
  lemma AddEntryFrame(s: Setup, d: State, e: Entry, o: EntryOutcome)
    ensures var d' := AddEntry(s, d, e, o).after; d' == d.(items := d'.items, trace := d'.trace)
  {
  }

  /** What processing an entry can change: not the log, the stream or the entries done. */
  ghost predicate SameRun(d: State, d': State) {
    d' == d.(items := d'.items, view := d'.view, trace := d'.trace,
             raft := d.raft.(config := d'.raft.config, stopped := d'.raft.stopped))
  }

  lemma ApplyEntryFrame(s: Setup, d: State, e: Entry, o: EntryOutcome)
    ensures SameRun(d, ApplyEntry(s, d, e, o).after)
  {
    match e.kind
    case Normal => AddEntryFrame(s, d, e, o);
    case Conf => AddConfChangeFrame(s, d, e, o);
    case OtherKind =>
  }

  lemma DeliverKeepsSound(s: Setup, d: State, r: Ready)
    requires Sound(d) && d.phase.Idle?
    ensures Sound(Step(s, d, Deliver(r))) && Stream(d) <= Stream(Step(s, d, Deliver(r)))
  {
    if Legal(d.raft, r) && IsEmptySnap(r.snapshot) {
      var log := Merged(d.raft.log, r.entries);
      assert log[..d.raft.delivered] == d.raft.log[..d.raft.delivered];
      assert IndexedFromOne(log);
    }
  }

  lemma AfterEntryKeepsSound(d: State, a: Result, r: Ready, applied: nat)
    requires Sound(d) && d.phase == Applying(r, applied) && applied < |r.committed|
    requires SameRun(d, a.after)
    ensures Sound(AfterEntry(a, r, applied))
    ensures Stream(AfterEntry(a, r, applied)) == Stream(d)
    ensures AfterEntry(a, r, applied).done == if a.ok then d.done + [r.committed[applied]] else d.done
  {
    assert r.committed[applied] == d.raft.log[|d.done|];
    assert d.done + [r.committed[applied]] == d.raft.log[..|d.done| + 1];
  }

  lemma ApplyOneKeepsSound(s: Setup, d: State, o: EntryOutcome)
    requires Sound(d) && d.phase.Applying?
    ensures Sound(Step(s, d, ApplyOne(o))) && Stream(Step(s, d, ApplyOne(o))) == Stream(d)
    ensures d.done <= Step(s, d, ApplyOne(o)).done && |Step(s, d, ApplyOne(o)).done| <= |d.done| + 1
  {
    var r, applied := d.phase.r, d.phase.applied;
    if applied < |r.committed| && |o.attempts| == s.retries {
      ApplyEntryFrame(s, d, r.committed[applied], o);
      AfterEntryKeepsSound(d, ApplyEntry(s, d, r.committed[applied], o), r, applied);
    }
  }

  /** The steps that neither deliver nor process an entry. */
  lemma OtherStepsKeepSound(s: Setup, d: State, c: Choice)
    requires Sound(d) && !c.Deliver? && !c.ApplyOne?
    ensures Sound(Step(s, d, c)) && Stream(Step(s, d, c)) == Stream(d) && Step(s, d, c).done == d.done
  {
  }

  /** One step keeps soundness and extends the stream and the processed entries, the latter by at most one. */
  lemma StepKeepsSound(s: Setup, d: State, c: Choice)
    requires Sound(d)
    ensures Sound(Step(s, d, c))
    ensures Stream(d) <= Stream(Step(s, d, c))
    ensures d.done <= Step(s, d, c).done && |Step(s, d, c).done| <= |d.done| + 1
    ensures d.failed ==> Step(s, d, c) == d
  {
    if c.Deliver? {
      if d.phase.Idle? {
        DeliverKeepsSound(s, d, c.r);
      }
    } else if c.ApplyOne? {
      if d.phase.Applying? {
        ApplyOneKeepsSound(s, d, c.outcome);
      }
    } else {
      OtherStepsKeepSound(s, d, c);
    }
  }

  lemma {:induction false} ExecKeepsSound(s: Setup, d: State, cs: seq<Choice>)
    requires Sound(d)
    ensures Sound(Exec(s, d, cs))
    ensures Stream(d) <= Stream(Exec(s, d, cs)) && d.done <= Exec(s, d, cs).done
    ensures d.failed ==> Exec(s, d, cs) == d
  {
    if cs != [] {
      ExecKeepsSound(s, d, cs[..|cs| - 1]);
      StepKeepsSound(s, Exec(s, d, cs[..|cs| - 1]), cs[|cs| - 1]);
    }
  }

  lemma InitialIsSound(s: Setup, storage: Storage)
    ensures Sound(Initial(s, storage))
  {
  }

  /**
   * Exactly-once application. In every state of every run, at any moment k of a longer one, the entries
   * processed are the committed stream up to some point, with indices 1, 2, 3 and so on; that point lies
   * between the last Advance and the end of what was delivered, and between Readys it is both of them;
   * both the stream and the entries processed only grow; from the first failure on nothing changes any more,
   * and the Ready that failed stays outstanding.
   */
  lemma ExactlyOnce(s: Setup, storage: Storage, cs: seq<Choice>, k: nat)
    requires k <= |cs|
    ensures var d, e := Exec(s, Initial(s, storage), cs), Exec(s, Initial(s, storage), cs[..k]);
      && d.raft.advanced <= |d.done| <= d.raft.delivered <= |d.raft.log|
      && d.done == Stream(d)[..|d.done|]
      && (forall i | 0 <= i < |d.done| :: d.done[i].index == i + 1)
      && e.raft.delivered <= |e.raft.log| && Stream(e) <= Stream(d)
      && e.done <= d.done
      && (d.phase.Idle? && !d.failed && !d.raft.stopped ==> d.raft.advanced == |d.done| == d.raft.delivered)
      && (e.failed ==> d == e && d.raft.outstanding)
  {
    var d0 := Initial(s, storage);
    ExecKeepsSound(s, d0, cs[..k]);
    assert cs == cs[..k] + cs[k..];
    ExecConcat(s, d0, cs[..k], cs[k..]);
    ExecKeepsSound(s, Exec(s, d0, cs[..k]), cs[k..]);
  }
}
