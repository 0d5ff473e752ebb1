/** When exactly doReady fails: entry by entry, and over whole runs of the driver. */
module Failures {
  import opened Common
  import opened RaftTypes
  import Capabilities
  import opened Driver
  import DriverRuns
  import MemoryLog
  import Retrieval

  // ---------------------------------------------------------------------------------- what is refused

  /** A normal entry: data that is no item, or an item that the callback refuses. Nil data never. */
  predicate NormalRefused(s: Setup, e: Entry, o: EntryOutcome) {
    e.data.Some? && (s.decode(e.data.value).None? || (s.hasCallback && !o.callbackOk))
  }

  /** No attempt within the bound came by a node before the context ended. */
  ghost predicate NotFound(attempts: seq<Retrieval.Attempt>) {
    attempts != [] && forall i | 0 <= i < |attempts| :: !Retrieval.Decides(attempts, i)
  }

  /** The removed node leads, is not the node itself stepping down, and the campaign against it fails. */
  predicate CampaignFails(s: Setup, raft: Raft, node: NodeId, o: EntryOutcome) {
    if raft.stopped then node == 0 && s.id != 0
    else node == o.lead2 && !(node == s.id && o.lead1 == s.id) && !o.campaignOk
  }

  ghost predicate ConfRefused(s: Setup, raft: Raft, e: Entry, o: EntryOutcome) {
    e.data.Some? &&
    match s.decodeConf(e.data.value)
    case None => true
    case Some(cc) =>
      match cc.kind
      case AddNode => NotFound(o.attempts)
      case RemoveNode => CampaignFails(s, raft, cc.node, o)
      case UpdateNode => true
      case AddLearner => true
  }

  ghost predicate EntryRefused(s: Setup, raft: Raft, e: Entry, o: EntryOutcome) {
    match e.kind
    case Normal => NormalRefused(s, e, o)
    case Conf => ConfRefused(s, raft, e, o)
    case OtherKind => true
  }

  /** The default store fails on a storage it does not know, and panics on a gap between log and batch. */
  predicate StoreRefused(storage: Storage, r: Ready, o: StoreOutcome) {
    match o
    case CustomRan(ok, _) => !ok
    case DefaultRan => storage.Foreign? || MemoryLog.Gap(storage.contents, r.entries)
  }

  /** Whether the choice, made where the driver stands, is a failure of its doReady. */
  ghost predicate FailsHere(s: Setup, d: State, c: Choice) {
    match d.phase
    case Idle => false
    case Storing(r) => c.StoreReturns? && StoreRefused(d.storage, r, c.store)
    case Sending(r, _, sent) => c.CheckSnapshot? && sent >= |r.messages| && r.snapshot.index != 0
    case Applying(r, applied) =>
      && c.ApplyOne? && applied < |r.committed| && |c.outcome.attempts| == s.retries
      && EntryRefused(s, d.raft, r.committed[applied], c.outcome)
  }

  // ---------------------------------------------------------------------------------- entry by entry

  /** addEntry returns nil for nil data, raft's own empty entry, and for an item nobody refuses. */
  lemma AddEntryFails(s: Setup, d: State, e: Entry, o: EntryOutcome)
    ensures AddEntry(s, d, e, o).ok
       <==> (e.data.None? || (s.decode(e.data.value).Some? && (s.hasCallback ==> o.callbackOk)))
  {
  }

  lemma AdditionFails(d: State, id: NodeId, o: EntryOutcome)
    ensures !AddPeerNode(d, id, o).ok <==> NotFound(o.attempts)
  {
    Retrieval.FirstGotDecides(o.attempts);
  }

  lemma RemovalFails(s: Setup, d: State, id: NodeId, o: EntryOutcome)
    ensures !RemovePeerNode(s, d, id, o).ok <==> CampaignFails(s, d.raft, id, o)
  {
  }

  /** addConfChange returns nil for nil data, and the error of its change, or of its text, otherwise. */
  lemma AddConfChangeFails(s: Setup, d: State, e: Entry, o: EntryOutcome)
    ensures !AddConfChange(s, d, e, o).ok <==> ConfRefused(s, d.raft, e, o)
  {
    if e.data.Some? && s.decodeConf(e.data.value).Some? {
      AdditionFails(d, s.decodeConf(e.data.value).value.node, o);
      RemovalFails(s, d, s.decodeConf(e.data.value).value.node, o);
    }
  }

  lemma EntryFails(s: Setup, d: State, e: Entry, o: EntryOutcome)
    ensures !ApplyEntry(s, d, e, o).ok <==> EntryRefused(s, d.raft, e, o)
  {
    match e.kind
    case Normal => AddEntryFails(s, d, e, o);
    case Conf => AddConfChangeFails(s, d, e, o);
    case OtherKind =>
  }

  /** Entries without data, nil in Go, are processed and change nothing but the count of entries done. */
  lemma NilDataPasses(s: Setup, d: State, e: Entry, o: EntryOutcome)
    requires e.data.None? && !e.kind.OtherKind?
    ensures ApplyEntry(s, d, e, o) == Result(d, true)
  {
  }

  // ---------------------------------------------------------------------------------- runs

  lemma StoreFails(storage: Storage, r: Ready, o: StoreOutcome)
    ensures !RunStore(storage, r, o).ok <==> StoreRefused(storage, r, o)
  {
    if o.DefaultRan? && storage.Memory? {
      MemoryLog.PanicsOnGap(storage.contents, r.entries);
    }
  }

  lemma ApplyFails(s: Setup, d: State, o: EntryOutcome)
    requires d.phase.Applying? && !d.failed
    ensures Step(s, d, ApplyOne(o)).failed <==> FailsHere(s, d, ApplyOne(o))
  {
    if d.phase.applied < |d.phase.r.committed| && |o.attempts| == s.retries {
      var e := d.phase.r.committed[d.phase.applied];
      EntryFails(s, d, e, o);
      DriverRuns.ApplyEntryFrame(s, d, e, o);
    }
  }

  lemma OtherStepFails(s: Setup, d: State, c: Choice)
    requires !d.failed && !(d.phase.Applying? && c.ApplyOne?)
    ensures Step(s, d, c).failed <==> FailsHere(s, d, c)
  {
    if d.phase.Storing? && c.StoreReturns? {
      StoreFails(d.storage, d.phase.r, c.store);
    }
  }

  lemma StepFails(s: Setup, d: State, c: Choice)
    requires DriverRuns.Sound(d)
    ensures Step(s, d, c).failed <==> d.failed || FailsHere(s, d, c)
  {
    if d.failed {
      DriverRuns.StepKeepsSound(s, d, c);
    } else if d.phase.Applying? && c.ApplyOne? {
      ApplyFails(s, d, c.outcome);
    } else {
      OtherStepFails(s, d, c);
    }
  }

  ghost predicate FailsAt(s: Setup, storage: Storage, cs: seq<Choice>, k: nat)
    requires k < |cs|
  {
    FailsHere(s, Exec(s, Initial(s, storage), cs[..k]), cs[k])
  }

  lemma SameFailures(s: Setup, storage: Storage, cs: seq<Choice>, k: nat)
    requires k + 1 < |cs|
    ensures FailsAt(s, storage, cs[..|cs| - 1], k) <==> FailsAt(s, storage, cs, k)
  {
    assert cs[..|cs| - 1][..k] == cs[..k];
  }

  ghost predicate NeverFails(s: Setup, storage: Storage, cs: seq<Choice>) {
    forall k | 0 <= k < |cs| :: !FailsAt(s, storage, cs, k)
  }

  lemma NeverFailsSplits(s: Setup, storage: Storage, cs: seq<Choice>)
    requires cs != []
    ensures NeverFails(s, storage, cs)
       <==> NeverFails(s, storage, cs[..|cs| - 1]) && !FailsAt(s, storage, cs, |cs| - 1)
  {
    var init := cs[..|cs| - 1];
    if NeverFails(s, storage, cs) {
      forall k | 0 <= k < |init| ensures !FailsAt(s, storage, init, k) {
        SameFailures(s, storage, cs, k);
      }
    }
    if NeverFails(s, storage, init) && !FailsAt(s, storage, cs, |cs| - 1) {
      forall k | 0 <= k < |cs| ensures !FailsAt(s, storage, cs, k) {
        if k < |init| {
          SameFailures(s, storage, cs, k);
        }
      }
    }
  }

  lemma {:induction false} RunsUntilAFailure(s: Setup, storage: Storage, cs: seq<Choice>)
    ensures !Exec(s, Initial(s, storage), cs).failed <==> NeverFails(s, storage, cs)
  {
    if cs != [] {
      RunsUntilAFailure(s, storage, cs[..|cs| - 1]);
      NeverFailsSplits(s, storage, cs);
      DriverRuns.ExecKeepsSound(s, Initial(s, storage), cs[..|cs| - 1]);
      StepFails(s, Exec(s, Initial(s, storage), cs[..|cs| - 1]), cs[|cs| - 1]);
    }
  }

  /**
   * Over runs, exactly: some doReady has failed if and only if at some moment the store refused, the Ready had
   * a snapshot after its messages, or the next entry was refused: data that does not decode, a callback that
   * returned an error, a node not found, a campaign that failed, a change or an entry of an unknown type.
   */
  lemma {:induction false} FailsExactly(s: Setup, storage: Storage, cs: seq<Choice>)
    ensures Exec(s, Initial(s, storage), cs).failed <==> exists k :: 0 <= k < |cs| && FailsAt(s, storage, cs, k)
  {
    RunsUntilAFailure(s, storage, cs);
  }
}
