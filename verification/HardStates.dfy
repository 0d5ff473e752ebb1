/** The hard state under the ready driver: term, vote and commit of the last Ready that had them are stored. */
module HardStates {
  import opened RaftTypes
  import opened MemoryLog
  import opened Driver

  /** Runs whose store is the default one. */
  ghost predicate DefaultOnly(cs: seq<Choice>) {
    forall k | 0 <= k < |cs| && cs[k].StoreReturns? :: cs[k].store.DefaultRan?
  }

  /** Whether the choice is the return of a store call that did not panic. */
  predicate StoresHere(d: State, c: Choice) {
    d.phase.Storing? && c.StoreReturns? && d.storage.Memory? && !Gap(d.storage.contents, d.phase.r.entries)
  }

  /** The last hard state among the Readys stored in a run that was not empty, or the one it began with. */
  function LastHard(s: Setup, c: Contents, cs: seq<Choice>): (hard: HardState) {
    if cs == [] then c.hard
    else
      var before := Exec(s, Initial(s, Memory(c)), cs[..|cs| - 1]);
      if StoresHere(before, cs[|cs| - 1]) && before.phase.r.hard != HardState(0, 0, 0) then before.phase.r.hard
      else LastHard(s, c, cs[..|cs| - 1])
  }

  lemma StoreKeepsHard(s: Setup, d: State)
    requires d.phase.Storing? && d.storage.Memory?
    ensures var d' := Step(s, d, StoreReturns(DefaultRan));
      && d'.storage.Memory?
      && d'.storage.contents.hard
         == if StoresHere(d, StoreReturns(DefaultRan)) && d.phase.r.hard != HardState(0, 0, 0)
            then d.phase.r.hard else d.storage.contents.hard
  {
    var r := d.phase.r;
    PanicsOnGap(d.storage.contents, r.entries);
    if !Gap(d.storage.contents, r.entries) {
      StoredExactly(d.storage.contents, r.hard, r.entries, r.snapshot);
    }
  }

  lemma OtherStepsLeaveStorage(s: Setup, d: State, c: Choice)
    requires !(d.phase.Storing? && c.StoreReturns?)
    ensures Step(s, d, c).storage == d.storage
  {
    if d.phase.Applying? && c.ApplyOne? && d.phase.applied < |d.phase.r.committed| {
      EntryLeavesStorage(s, d, d.phase.r.committed[d.phase.applied], c.outcome);
    }
  }

  lemma EntryLeavesStorage(s: Setup, d: State, e: Entry, o: EntryOutcome)
    ensures ApplyEntry(s, d, e, o).after.storage == d.storage
  {
  }

  /**
   * Over every run on the default store, with snapshots and failures anywhere: the hard state in storage is
   * the last one that was not empty among the Readys whose store returned, or the initial one.
   */
  lemma {:induction false} HardStateIsLast(s: Setup, c: Contents, cs: seq<Choice>)
    requires DefaultOnly(cs)
    ensures var d := Exec(s, Initial(s, Memory(c)), cs);
      d.storage.Memory? && d.storage.contents.hard == LastHard(s, c, cs)
  {
    if cs != [] {
      var d := Exec(s, Initial(s, Memory(c)), cs[..|cs| - 1]);
      HardStateIsLast(s, c, cs[..|cs| - 1]);
      if d.phase.Storing? && cs[|cs| - 1].StoreReturns? {
        assert cs[|cs| - 1] == StoreReturns(DefaultRan);
        StoreKeepsHard(s, d);
      } else {
        OtherStepsLeaveStorage(s, d, cs[|cs| - 1]);
      }
    }
  }
}
