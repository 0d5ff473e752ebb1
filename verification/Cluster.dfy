/** Several nodes, each with its own driver and its own raft, interleaved in any way. */
module Cluster {
  import opened Common
  import opened RaftTypes
  import ItemCodec
  import ItemMaps
  import opened Driver
  import opened DriverRuns
  import opened ItemRuns

  /** The normal entries among some entries, in order. */
  function Normals(entries: seq<Entry>): (normals: seq<Entry>) {
    if entries == [] then []
    else
      Normals(entries[..|entries| - 1])
      + if entries[|entries| - 1].kind.Normal? then [entries[|entries| - 1]] else []
  }

  /** The nodes run the same code: one hash, one decoder. Everything else may differ. */
  ghost predicate SameCode(setups: seq<Setup>) {
    forall i, j | 0 <= i < |setups| && 0 <= j < |setups| ::
      setups[i].md5 == setups[j].md5 && setups[i].decode == setups[j].decode
  }

  /** At a moment some node makes a step under some choice. */
  datatype Move = Move(node: nat, choice: Choice)

  ghost predicate MovesAt(setups: seq<Setup>, moves: seq<Move>, run: seq<seq<State>>, k: int)
    requires 0 <= k < |moves| && |run| == |moves| + 1
  {
    var m, before := moves[k], run[k];
    run[k + 1] == if m.node < |setups| && |before| == |setups|
                  then before[m.node := Step(setups[m.node], before[m.node], m.choice)] else before
  }

  /** A run of the cluster: all nodes start fresh, each on its own storage, and each moment is one move. */
  ghost predicate IsRun(setups: seq<Setup>, storages: seq<Storage>, moves: seq<Move>, run: seq<seq<State>>) {
    && |storages| == |setups| && |run| == |moves| + 1
    && |run[0]| == |setups|
    && (forall i | 0 <= i < |setups| :: run[0][i] == Initial(setups[i], storages[i]))
    && (forall k | 0 <= k < |moves| :: MovesAt(setups, moves, run, k))
  }

  /**
   * State machine safety (section 5.4.3 of the extended Raft paper), for the normal entries only: what each
   * node was delivered of them is a prefix of one common log. Nothing is assumed of conf changes.
   */
  ghost predicate CommonLog(nodes: seq<State>, log: seq<Entry>) {
    forall i | 0 <= i < |nodes| ::
      nodes[i].raft.delivered <= |nodes[i].raft.log| && Normals(Stream(nodes[i])) <= log
  }

  /** How many normal entries a node has applied. */
  function Applied(d: State): (n: nat) {
    |Normals(d.done)|
  }

  lemma {:induction false} NormalsConcat(a: seq<Entry>, b: seq<Entry>)
    ensures Normals(a + b) == Normals(a) + Normals(b)
  {
    if b == [] {
      assert a + b == a;
    } else {
      assert (a + b)[..|a + b| - 1] == a + b[..|b| - 1];
      NormalsConcat(a, b[..|b| - 1]);
    }
  }

  lemma NormalsPrefix(a: seq<Entry>, b: seq<Entry>)
    requires a <= b
    ensures Normals(a) <= Normals(b)
  {
    assert b == a + b[|a|..];
    NormalsConcat(a, b[|a|..]);
  }

  /** Only normal entries count for the map. */
  lemma {:induction false} ItemsOfNormals(decode: string -> Option<ItemCodec.Item>, entries: seq<Entry>)
    ensures ItemsOf(decode, Normals(entries)) == ItemsOf(decode, entries)
  {
    if entries != [] {
      var init, last := entries[..|entries| - 1], entries[|entries| - 1];
      ItemsOfNormals(decode, init);
      if last.kind.Normal? {
        ItemsOfOneMore(decode, Normals(init), last);
      } else {
        assert Normals(entries) == Normals(init);
        assert ItemsOf(decode, init) + [] == ItemsOf(decode, init);
      }
    }
  }

  lemma {:induction false} RunIsGood(
    setups: seq<Setup>, storages: seq<Storage>, moves: seq<Move>, run: seq<seq<State>>, k: nat)
    requires IsRun(setups, storages, moves, run) && k < |run|
    ensures |run[k]| == |setups| && forall b | 0 <= b < |setups| :: Good(setups[b], run[k][b])
  {
    if k == 0 {
      forall b | 0 <= b < |setups| ensures Good(setups[b], run[0][b]) {
        InitialIsSound(setups[b], storages[b]);
      }
    } else {
      RunIsGood(setups, storages, moves, run, k - 1);
      assert MovesAt(setups, moves, run, k - 1);
      var m := moves[k - 1];
      if m.node < |setups| {
        StepKeepsGood(setups[m.node], run[k - 1][m.node], m.choice);
      }
    }
  }

  /** One step applies at most one more normal entry, and takes none back. */
  lemma StepApplies(s: Setup, d: State, c: Choice)
    requires Sound(d)
    ensures d.done <= Step(s, d, c).done && Applied(d) <= Applied(Step(s, d, c)) <= Applied(d) + 1
  {
    StepKeepsSound(s, d, c);
    OneMoreAtMost(d.done, Step(s, d, c).done);
  }

  lemma OneMoreAtMost(a: seq<Entry>, b: seq<Entry>)
    requires a <= b && |b| <= |a| + 1
    ensures |Normals(a)| <= |Normals(b)| <= |Normals(a)| + 1
  {
    var more := b[|a|..];
    assert b == a + more;
    NormalsConcat(a, more);
    assert |more| == 1 ==> more[..0] == [];
  }

  lemma MomentApplies(
    setups: seq<Setup>, storages: seq<Storage>, moves: seq<Move>, run: seq<seq<State>>, k: nat, b: nat)
    requires IsRun(setups, storages, moves, run) && k + 1 < |run| && b < |setups|
    requires |run[k]| == |run[k + 1]| == |setups| && Good(setups[b], run[k][b])
    ensures run[k][b].done <= run[k + 1][b].done
    ensures Applied(run[k][b]) <= Applied(run[k + 1][b]) <= Applied(run[k][b]) + 1
  {
    assert MovesAt(setups, moves, run, k);
    StepApplies(setups[b], run[k][b], moves[k].choice);
  }

  /** A node passes through every count of normal entries on its way, along one growing sequence. */
  lemma {:induction false} PassesThrough(
    setups: seq<Setup>, storages: seq<Storage>, moves: seq<Move>, run: seq<seq<State>>, last: nat, b: nat, n: nat)
    returns (k: nat)
    requires IsRun(setups, storages, moves, run) && last < |run| && b < |setups|
    requires |run[last]| == |setups| && n <= Applied(run[last][b])
    ensures k <= last && |run[k]| == |setups|
    ensures Applied(run[k][b]) == n && run[k][b].done <= run[last][b].done
  {
    k := last;
    if Applied(run[last][b]) != n {
      RunIsGood(setups, storages, moves, run, 0);
      if last > 0 {
        RunIsGood(setups, storages, moves, run, last - 1);
        MomentApplies(setups, storages, moves, run, last - 1, b);
        k := PassesThrough(setups, storages, moves, run, last - 1, b, n);
      }
    }
  }

  /** A node's map is a function of how many normal entries it applied. */
  lemma MapOfCount(s: Setup, d: State, stream: seq<Entry>, log: seq<Entry>)
    requires Good(s, d) && d.done <= stream && Normals(stream) <= log
    ensures Applied(d) <= |log|
    ensures d.items == ItemMaps.PutAll(s.md5, ItemsOf(s.decode, log[..Applied(d)]))
  {
    NormalsPrefix(d.done, stream);
    assert Normals(d.done) == log[..Applied(d)];
    ItemsOfNormals(s.decode, d.done);
  }

  lemma EqualMaps(s: Setup, d: State, s': Setup, d': State, log: seq<Entry>)
    requires Good(s, d) && Good(s', d') && s.md5 == s'.md5 && s.decode == s'.decode
    requires Normals(Stream(d)) <= log && Normals(Stream(d')) <= log
    ensures Applied(d) == Applied(d') ==> d.items == d'.items
  {
    MapOfCount(s, d, Stream(d), log);
    MapOfCount(s', d', Stream(d'), log);
  }

  /** A state that another one, later on its own node, has gone beyond: the maps agree at equal counts. */
  lemma EqualPast(s: Setup, d: State, s': Setup, past: State, now: State, log: seq<Entry>)
    requires Good(s, d) && Good(s', past) && Good(s', now) && s.md5 == s'.md5 && s.decode == s'.decode
    requires Normals(Stream(d)) <= log && Normals(Stream(now)) <= log && past.done <= now.done
    ensures Applied(d) == Applied(past) ==> d.items == past.items
  {
    MapOfCount(s, d, Stream(d), log);
    assert now.done <= Stream(now);
    MapOfCount(s', past, Stream(now), log);
  }

  /** Whether a node's state shows as many normal entries as another one's, and the same map. */
  ghost predicate SameMap(d: State, d': State) {
    Applied(d) == Applied(d') && d.items == d'.items
  }

  /**
   * Replica convergence, for any number of nodes, any batching, any interleaving and any failures, in every
   * state of every run: nodes that applied equally many normal entries have equal maps, and the map of a node
   * that lags is one the other passed through, when it had applied as many.
   */
  lemma Convergence(
    setups: seq<Setup>, storages: seq<Storage>, moves: seq<Move>, run: seq<seq<State>>, log: seq<Entry>,
    a: nat, b: nat)
    requires IsRun(setups, storages, moves, run) && SameCode(setups)
    requires a < |setups| && b < |setups| && CommonLog(run[|moves|], log)
    ensures forall k | 0 <= k < |run| :: |run[k]| == |setups|
    ensures Applied(run[|moves|][a]) == Applied(run[|moves|][b]) ==> run[|moves|][a].items == run[|moves|][b].items
    ensures Applied(run[|moves|][a]) <= Applied(run[|moves|][b]) ==>
      exists k :: 0 <= k < |run| && SameMap(run[k][b], run[|moves|][a])
  {
    forall k | 0 <= k < |run| ensures |run[k]| == |setups| {
      RunIsGood(setups, storages, moves, run, k);
    }
    var nodes := run[|moves|];
    RunIsGood(setups, storages, moves, run, |moves|);
    EqualMaps(setups[a], nodes[a], setups[b], nodes[b], log);
    if Applied(nodes[a]) <= Applied(nodes[b]) {
      var k := PassesThrough(setups, storages, moves, run, |moves|, b, Applied(nodes[a]));
      RunIsGood(setups, storages, moves, run, k);
      EqualPast(setups[a], nodes[a], setups[b], run[k][b], nodes[b], log);
      assert SameMap(run[k][b], nodes[a]);
    }
  }
}
