/** The values that etcd's raft library hands to a node and takes from it. */
module RaftTypes {
  import opened Common

  /** EntryNormal, EntryConfChange, and every other entry type. */
  datatype EntryKind = Normal | Conf | OtherKind

  /** A log entry; data None is Go's nil. */
  datatype Entry = Entry(term: nat, index: nat, kind: EntryKind, data: Option<string>)

  datatype ConfKind = AddNode | RemoveNode | UpdateNode | AddLearner

  datatype ConfChange = ConfChange(id: NodeId, kind: ConfKind, node: NodeId)

  datatype HardState = HardState(term: nat, vote: NodeId, commit: nat)

  const EMPTY_HARD_STATE := HardState(0, 0, 0)

  /** A snapshot's metadata; raft takes index 0 to mean no snapshot. */
  datatype Snapshot = Snapshot(term: nat, index: nat)

  predicate IsEmptySnap(s: Snapshot) {
    s.index == 0
  }

  /** A raft message: its addressee and everything else about it. */
  datatype Message = Message(to: NodeId, body: string)

  datatype Ready = Ready(
    hard: HardState, entries: seq<Entry>, snapshot: Snapshot, committed: seq<Entry>, messages: seq<Message>)

  /** Entries that follow one another in the log. */
  predicate Contiguous(entries: seq<Entry>) {
    forall k | 0 <= k < |entries| :: entries[k].index == entries[0].index + k
  }

  /** A log that starts at index 1. */
  ghost predicate IndexedFromOne(log: seq<Entry>) {
    forall k | 0 <= k < |log| :: log[k].index == k + 1
  }
}
