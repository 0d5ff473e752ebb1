/** raft.MemoryStorage as DefaultRaftStore writes it (raft/defaults.go). */
module MemoryLog {
  import opened RaftTypes

  /**
   * The contents of a MemoryStorage: the entries after index base, which is that of the last snapshot
   * applied (0 at first), and the hard state.
   */
  datatype Contents = Contents(base: nat, entries: seq<Entry>, hard: HardState)

  const EMPTY := Contents(0, [], EMPTY_HARD_STATE)

  /** What a call on the storage came to: a panic for a gap in the log, or the new contents. */
  datatype Written = Panicked | Done(contents: Contents)

  /** MemoryStorage.Append: drops what the snapshot covers, then overwrites from the first index given. */
  function Appended(c: Contents, entries: seq<Entry>): (written: Written) {
    if entries == [] then Done(c)
    else
      var first := c.base + 1;
      if entries[0].index + |entries| - 1 < first then Done(c)
      else
        var rest := if first > entries[0].index then entries[first - entries[0].index..] else entries;
        var at := if first > entries[0].index then first else entries[0].index;
        if at - first <= |c.entries| then Done(c.(entries := c.entries[..at - first] + rest)) else Panicked
  }

  function WithHardState(c: Contents, hard: HardState): (c': Contents) {
    if hard == EMPTY_HARD_STATE then c else c.(hard := hard)
  }

  /** MemoryStorage.ApplySnapshot: an old snapshot is refused, a newer one replaces every entry. */
  function WithSnapshot(c: Contents, s: Snapshot): (c': Contents) {
    if s.index <= c.base then c else c.(base := s.index, entries := [])
  }

  /** DefaultRaftStore on a MemoryStorage, in its order: entries, hard state, snapshot. */
  function StoredReady(c: Contents, hard: HardState, entries: seq<Entry>, s: Snapshot): (written: Written) {
    match Appended(c, entries)
    case Panicked => Panicked
    case Done(c') => Done(WithSnapshot(WithHardState(c', hard), s))
  }

  /** The library's in-memory log, updated in place. */
  class MemoryStorage {
    var contents: Contents

    constructor ()
      ensures contents == EMPTY
    {
      contents := EMPTY;
    }

    method Append(entries: seq<Entry>) returns (panicked: bool)
      modifies this
      ensures panicked <==> Appended(old(contents), entries).Panicked?
      ensures contents == if panicked then old(contents) else Appended(old(contents), entries).contents
    {
      panicked := false;
      if entries == [] {
        return;
      }
      var first := contents.base + 1;
      var rest, at := entries, entries[0].index;
      if at + |entries| - 1 < first {
        return;
      }
      if first > at {
        rest, at := entries[first - at..], first;
      }
      if at - first > |contents.entries| {
        return true;
      }
      contents := contents.(entries := contents.entries[..at - first] + rest);
    }

    method SetHardState(hard: HardState)
      modifies this
      ensures contents == old(contents).(hard := hard)
    {
      contents := contents.(hard := hard);
    }

    method ApplySnapshot(s: Snapshot) returns (refused: bool)
      modifies this
      ensures refused <==> s.index <= old(contents).base
      ensures contents == WithSnapshot(old(contents), s)
    {
      refused := s.index <= contents.base;
      if !refused {
        contents := contents.(base := s.index, entries := []);
      }
    }
  }

  /** Whether the contents answer a read of the entry's index with that entry. */
  ghost predicate Holds(c: Contents, e: Entry) {
    c.base < e.index <= c.base + |c.entries| && c.entries[e.index - c.base - 1] == e
  }

  /** Entries in the order of their indices, from the one after base. */
  ghost predicate Indexed(c: Contents) {
    forall k | 0 <= k < |c.entries| :: c.entries[k].index == c.base + 1 + k
  }

  /** Append's result in one formula: what lies below the batch, and the batch from the log's first index on. */
  lemma AppendedIs(c: Contents, entries: seq<Entry>)
    requires entries != [] && entries[0].index + |entries| > c.base + 1 && Appended(c, entries).Done?
    ensures var c', skip := Appended(c, entries).contents, Skipped(c, entries);
      && c'.base == c.base
      && skip < |entries| && 0 <= entries[0].index + skip - c.base - 1 <= |c.entries|
      && c'.entries == c.entries[..entries[0].index + skip - c.base - 1] + entries[skip..]
  {
  }

  /** How many entries of a batch a snapshot covers. */
  function Skipped(c: Contents, entries: seq<Entry>): (n: nat)
    requires entries != []
  {
    if c.base + 1 > entries[0].index then c.base + 1 - entries[0].index else 0
  }

  lemma AppendHolds(c: Contents, entries: seq<Entry>, k: nat)
    requires Contiguous(entries) && Appended(c, entries).Done? && k < |entries| && entries[k].index > c.base
    ensures Holds(Appended(c, entries).contents, entries[k])
  {
    AppendedIs(c, entries);
    assert entries[k].index == entries[0].index + k;
    assert entries[Skipped(c, entries)..][k - Skipped(c, entries)] == entries[k];
  }

  lemma AppendIndexed(c: Contents, entries: seq<Entry>)
    requires Indexed(c) && Contiguous(entries) && Appended(c, entries).Done?
    ensures Indexed(Appended(c, entries).contents) && Appended(c, entries).contents.base == c.base
    ensures entries != [] && entries[|entries| - 1].index > c.base
      ==> c.base + |Appended(c, entries).contents.entries| == entries[|entries| - 1].index
  {
    if entries != [] && entries[0].index + |entries| > c.base + 1 {
      AppendedIs(c, entries);
    }
  }

  lemma AppendKeeps(c: Contents, entries: seq<Entry>, e: Entry)
    requires Holds(c, e) && (entries == [] || e.index < entries[0].index) && Appended(c, entries).Done?
    ensures Holds(Appended(c, entries).contents, e)
  {
    if entries != [] && entries[0].index + |entries| > c.base + 1 {
      AppendedIs(c, entries);
    }
  }

  /**
   * Append keeps what lies below the batch, holds every entry of the batch that no snapshot covers, and
   * truncates everything after it.
   */
  lemma {:induction false} AppendOverwrites(c: Contents, entries: seq<Entry>)
    requires Indexed(c) && Contiguous(entries) && Appended(c, entries).Done?
    ensures var c' := Appended(c, entries).contents;
      && Indexed(c') && c'.base == c.base
      && (forall e | e in entries && e.index > c.base :: Holds(c', e))
      && (forall e | Holds(c, e) && (entries == [] || e.index < entries[0].index) :: Holds(c', e))
      && (entries != [] && entries[|entries| - 1].index > c.base
          ==> c.base + |c'.entries| == entries[|entries| - 1].index)
  {
    var c' := Appended(c, entries).contents;
    AppendIndexed(c, entries);
    forall e | e in entries && e.index > c.base ensures Holds(c', e) {
      var k :| 0 <= k < |entries| && entries[k] == e;
      AppendHolds(c, entries, k);
    }
    forall e | Holds(c, e) && (entries == [] || e.index < entries[0].index) ensures Holds(c', e) {
      AppendKeeps(c, entries, e);
    }
  }

  /** A batch that begins beyond the end of the log, and is not covered by its snapshot. */
  predicate Gap(c: Contents, entries: seq<Entry>) {
    && entries != [] && entries[0].index + |entries| > c.base + 1
    && entries[0].index > c.base + |c.entries| + 1
  }

  lemma PanicsOnGap(c: Contents, entries: seq<Entry>)
    ensures Appended(c, entries).Panicked? <==> Gap(c, entries)
  {
  }

  /** A snapshot covers all of the batch. */
  predicate Covered(c: Contents, entries: seq<Entry>) {
    entries == [] || entries[0].index + |entries| <= c.base + 1
  }

  /** What can be read after Append, exactly: the batch, and what lies below it; or all as before. */
  lemma AppendExactly(c: Contents, entries: seq<Entry>, e: Entry)
    requires Indexed(c) && Contiguous(entries) && Appended(c, entries).Done?
    ensures Holds(Appended(c, entries).contents, e)
       <==> if Covered(c, entries) then Holds(c, e)
            else (e in entries && e.index > c.base) || (Holds(c, e) && e.index < entries[0].index)
    ensures Appended(c, entries).contents.hard == c.hard
  {
    var c' := Appended(c, entries).contents;
    if !Covered(c, entries) {
      AppendedIs(c, entries);
      AppendOverwrites(c, entries);
      if Holds(c', e) {
        HeldComesFrom(c, entries, e);
      }
    }
  }

  lemma HeldComesFrom(c: Contents, entries: seq<Entry>, e: Entry)
    requires Indexed(c) && Contiguous(entries) && !Covered(c, entries) && Appended(c, entries).Done?
    requires Holds(Appended(c, entries).contents, e)
    ensures (e in entries && e.index > c.base) || (Holds(c, e) && e.index < entries[0].index)
  {
    AppendedIs(c, entries);
    var skip := Skipped(c, entries);
    var low := entries[0].index + skip - c.base - 1;
    var i := e.index - c.base - 1;
    if i < low {
      assert c.entries[..low][i] == e;
    } else {
      assert entries[skip..][i - low] == e;
      assert e in entries[skip..];
    }
  }

  /**
   * Everything that DefaultRaftStore leaves: the last snapshot's index, the hard state unless the one given
   * is empty, and the entries of Append unless a newer snapshot discards them.
   */
  lemma StoredExactly(c: Contents, hard: HardState, entries: seq<Entry>, s: Snapshot)
    requires !Gap(c, entries)
    ensures var written := StoredReady(c, hard, entries, s);
      && written.Done?
      && written.contents.base == (if s.index > c.base then s.index else c.base)
      && written.contents.hard == (if hard == HardState(0, 0, 0) then c.hard else hard)
      && written.contents.entries == if s.index > c.base then [] else Appended(c, entries).contents.entries
  {
    PanicsOnGap(c, entries);
  }

  /**
   * DefaultRaftStore applies the snapshot after the entries, so a snapshot newer than the log discards the
   * entries stored with it. The batch survives exactly when the snapshot is empty or old, or there is
   * nothing in the batch beyond the log's base.
   */
  lemma {:induction false} BatchSurvives(c: Contents, hard: HardState, entries: seq<Entry>, s: Snapshot)
    requires Indexed(c) && Contiguous(entries) && StoredReady(c, hard, entries, s).Done?
    ensures (forall e | e in entries && e.index > c.base :: Holds(StoredReady(c, hard, entries, s).contents, e))
       <==> (s.index <= c.base || forall e | e in entries :: e.index <= c.base)
  {
    AppendOverwrites(c, entries);
    var c' := Appended(c, entries).contents;
    assert WithHardState(c', hard).entries == c'.entries && WithHardState(c', hard).base == c'.base;
    if s.index <= c.base {
      forall e | e in entries && e.index > c.base ensures Holds(StoredReady(c, hard, entries, s).contents, e) {
        assert Holds(c', e);
      }
    }
  }

  /** What a RaftStore returns to the event loop. */
  datatype StoreResult = StoreResult(err: bool, panicked: bool)

  /** DefaultRaftStore of raft/defaults.go; null stands for a storage of another type, whose cast fails. */
  method DefaultRaftStore(storage: MemoryStorage?, hard: HardState, entries: seq<Entry>, s: Snapshot)
    returns (r: StoreResult)
    modifies storage
    ensures r.err <==> storage == null
    ensures storage != null ==>
      (r.panicked <==> StoredReady(old(storage.contents), hard, entries, s).Panicked?)
    ensures storage != null ==>
      storage.contents == if r.panicked then old(storage.contents)
                          else StoredReady(old(storage.contents), hard, entries, s).contents
    ensures storage == null ==> !r.panicked
  {
    if storage == null {
      return StoreResult(true, false);
    }
    var panicked := storage.Append(entries);
    if panicked {
      return StoreResult(false, true);
    }
    if hard != EMPTY_HARD_STATE {
      storage.SetHardState(hard);
    }
    if !IsEmptySnap(s) {
      var _ := storage.ApplySnapshot(s);
    }
    return StoreResult(false, false);
  }
}
