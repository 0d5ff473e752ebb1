/** DefaultRaftStore under the ready driver: what is applied is stored, and stays stored. */
module Durability {
  import opened RaftTypes
  import opened MemoryLog
  import opened Driver
  import DriverRuns
  import StoreFirst

  /** Runs whose store is the default one and whose Readys carry no snapshot. */
  ghost predicate DefaultStoreRun(cs: seq<Choice>) {
    forall k | 0 <= k < |cs| ::
      && (cs[k].StoreReturns? ==> cs[k].store.DefaultRan?)
      && (cs[k].Deliver? ==> IsEmptySnap(cs[k].r.snapshot))
  }

  /** The batch of an unstored Ready fits the stored log above everything done, and gives raft's log. */
  ghost predicate ToStore(d: State, r: Ready)
    requires d.storage.Memory?
  {
    && Contiguous(r.entries)
    && (r.entries != [] ==> |d.done| < r.entries[0].index <= |d.storage.contents.entries| + 1)
    && |d.done| <= |d.storage.contents.entries|
    && d.storage.contents.entries[..|d.done|] == d.done
    && Merged(d.storage.contents.entries, r.entries) == d.raft.log
  }

  /** The storage is raft's log, up to the batch that a Ready just delivered. */
  ghost predicate Durable(d: State)
    requires d.storage.Memory?
  {
    && d.storage.contents.base == 0
    && Indexed(d.storage.contents)
    && match d.phase
       case Idle => d.storage.contents.entries == d.raft.log
       case Storing(r) => IsEmptySnap(r.snapshot) && ToStore(d, r)
       case Sending(r, _, _) => IsEmptySnap(r.snapshot) && d.storage.contents.entries == d.raft.log
       case Applying(_, _) => d.storage.contents.entries == d.raft.log
  }

  /** Nothing recorded of a store call says that it failed. */
  ghost predicate StoresOk(trace: seq<Event>) {
    forall p | 0 <= p < |trace| && trace[p].StoreCalled? :: trace[p].ok
  }

  ghost predicate DurableState(d: State) {
    d.storage.Memory? && Durable(d) && StoresOk(d.trace)
  }

  /** Storing a batch without a snapshot is what raft did to its own log. */
  lemma StoreIsMerge(c: Contents, r: Ready)
    requires c.base == 0 && IsEmptySnap(r.snapshot) && Contiguous(r.entries)
    requires r.entries != [] ==> 0 < r.entries[0].index <= |c.entries| + 1
    ensures var w := StoredReady(c, r.hard, r.entries, r.snapshot);
      w.Done? && w.contents.base == 0 && w.contents.entries == Merged(c.entries, r.entries)
  {
  }

  lemma AfterStoreDurable(s: Setup, d: State, d': State, contents: Contents, r: Ready)
    requires DriverRuns.Sound(d) && StoresOk(d.trace)
    requires contents.base == 0 && contents.entries == d.raft.log && IsEmptySnap(r.snapshot)
    requires d' == d.(trace := d.trace + [StoreCalled(Current(d), true)], storage := Memory(contents),
                      phase := Sending(r, d.view, 0))
    ensures DurableState(d')
  {
  }

  lemma StoreKeepsDurable(s: Setup, d: State)
    requires DriverRuns.Sound(d) && DurableState(d) && d.phase.Storing?
    ensures DurableState(Step(s, d, StoreReturns(DefaultRan)))
  {
    var r := d.phase.r;
    StoreIsMerge(d.storage.contents, r);
    var contents := StoredReady(d.storage.contents, r.hard, r.entries, r.snapshot).contents;
    assert RunStore(d.storage, r, DefaultRan) == Ran(Memory(contents), true);
    AfterStoreDurable(s, d, Step(s, d, StoreReturns(DefaultRan)), contents, r);
  }

  lemma DeliverKeepsDurable(s: Setup, d: State, r: Ready)
    requires DriverRuns.Sound(d) && DurableState(d) && d.phase.Idle? && IsEmptySnap(r.snapshot)
    ensures DurableState(Step(s, d, Deliver(r)))
  {
    assert d.done == d.raft.log[..|d.done|];
  }

  lemma ApplyKeepsDurable(s: Setup, d: State, o: EntryOutcome)
    requires DriverRuns.Sound(d) && DurableState(d) && d.phase.Applying?
    ensures DurableState(Step(s, d, ApplyOne(o)))
  {
    var r, applied := d.phase.r, d.phase.applied;
    if applied < |r.committed| && |o.attempts| == s.retries {
      var events := StoreFirst.EntryEvents(s, d, r.committed[applied], o);
      DriverRuns.ApplyEntryFrame(s, d, r.committed[applied], o);
    }
  }

  lemma StepKeepsDurable(s: Setup, d: State, c: Choice)
    requires DriverRuns.Sound(d) && DurableState(d) && DefaultStoreRun([c])
    ensures DurableState(Step(s, d, c))
  {
    assert [c][0] == c;
    if d.phase.Storing? && c.StoreReturns? {
      StoreKeepsDurable(s, d);
    } else if d.phase.Idle? && c.Deliver? {
      DeliverKeepsDurable(s, d, c.r);
    } else if d.phase.Applying? && c.ApplyOne? {
      ApplyKeepsDurable(s, d, c.outcome);
    }
  }

  lemma {:induction false} RunsAreDurable(s: Setup, cs: seq<Choice>)
    requires DefaultStoreRun(cs)
    ensures DriverRuns.Sound(Exec(s, Initial(s, Memory(EMPTY)), cs))
    ensures DurableState(Exec(s, Initial(s, Memory(EMPTY)), cs))
  {
    if cs != [] {
      RunsAreDurable(s, cs[..|cs| - 1]);
      StepKeepsDurable(s, Exec(s, Initial(s, Memory(EMPTY)), cs[..|cs| - 1]), cs[|cs| - 1]);
      DriverRuns.StepKeepsSound(s, Exec(s, Initial(s, Memory(EMPTY)), cs[..|cs| - 1]), cs[|cs| - 1]);
    }
  }

  /** Storage that starts at index 1 holds each of its entries. */
  lemma StoredIsHeld(c: Contents, i: nat)
    requires c.base == 0 && Indexed(c) && i < |c.entries|
    ensures Holds(c, c.entries[i])
  {
  }

  /** The storage begins with what was done. */
  lemma DoneIsStored(d: State)
    requires DriverRuns.Sound(d) && DurableState(d)
    ensures d.done <= d.storage.contents.entries
  {
  }

  lemma DoneIsHeld(d: State)
    requires DriverRuns.Sound(d) && DurableState(d)
    ensures forall i | 0 <= i < |d.done| :: Holds(d.storage.contents, d.done[i])
  {
    DoneIsStored(d);
    forall i | 0 <= i < |d.done| ensures Holds(d.storage.contents, d.done[i]) {
      StoredIsHeld(d.storage.contents, i);
    }
  }

  lemma NextIsHeld(d: State)
    requires DriverRuns.Sound(d) && DurableState(d) && d.phase.Applying? && d.phase.applied < |d.phase.r.committed|
    ensures Holds(d.storage.contents, d.phase.r.committed[d.phase.applied])
  {
    assert d.phase.r.committed[d.phase.applied] == d.raft.log[|d.done|];
    StoredIsHeld(d.storage.contents, |d.done|);
  }

  /**
   * Durability over whole runs. The default store neither fails nor panics; every entry processed is at its
   * index in storage in this and every later state; and so is the entry about to be processed.
   */
  lemma AppliedIsStored(s: Setup, cs: seq<Choice>, k: nat)
    requires DefaultStoreRun(cs) && k <= |cs|
    ensures var d, e := Exec(s, Initial(s, Memory(EMPTY)), cs), Exec(s, Initial(s, Memory(EMPTY)), cs[..k]);
      && d.storage.Memory? && StoresOk(d.trace)
      && (forall i | 0 <= i < |e.done| :: Holds(d.storage.contents, e.done[i]))
      && (d.phase.Applying? && d.phase.applied < |d.phase.r.committed|
          ==> Holds(d.storage.contents, d.phase.r.committed[d.phase.applied]))
  {
    RunsAreDurable(s, cs);
    DriverRuns.ExactlyOnce(s, Memory(EMPTY), cs, k);
    var d := Exec(s, Initial(s, Memory(EMPTY)), cs);
    DoneIsHeld(d);
    if d.phase.Applying? && d.phase.applied < |d.phase.r.committed| {
      NextIsHeld(d);
    }
  }
}
