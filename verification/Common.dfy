/** Types shared by every module. */
module Common {
  datatype Option<+T> = None | Some(value: T)

  /** One byte of a Go byte slice. */
  type byte = x: int | 0 <= x < 256

  /** A raft node id: a 64-bit unsigned number. */
  type NodeId = x: int | 0 <= x < 0x1_0000_0000_0000_0000

  /** A Go []byte: None is the nil slice, Some([]) the empty one. */
  type Slice = Option<seq<byte>>

  lemma SplitLast<T>(s: seq<T>)
    requires s != []
    ensures s == s[..|s| - 1] + [s[|s| - 1]]
  {
  }

  function Bytes(s: Slice): (bytes: seq<byte>) {
    match s
    case None => []
    case Some(b) => b
  }
}
