/** References to remote nodes, and the view that keeps one per peer (raft/view.go). */
module Capabilities {
  import opened Common

  /** A Cap'n Proto client: null, or a counted reference of its own. */
  datatype Ref = Null | Ref(h: nat)

  /** What a reference is worth apart from its identity. */
  datatype Peer = NullClient | Client

  function PeerOf(r: Ref): (peer: Peer) {
    if r.Null? then NullClient else Client
  }

  function One(p: Peer): (n: nat) {
    if p.Client? then 1 else 0
  }

  function Clients(view: map<NodeId, Peer>): (ids: set<NodeId>) {
    set id | id in view && view[id].Client?
  }

  /** The reference that the application's functions give out; it is not the node's to release. */
  const APPLICATION: nat := 0

  /**
   * The references the node took, live or released. A reference can be used while it is null, live, or the
   * application's; Release demands one that the node took and has not released. Every call in this project
   * proves it.
   */
  class CapTable {
    var next: nat
    var live: set<nat>
    ghost var released: set<nat>

    ghost predicate Valid()
      reads this
    {
      && (forall h | h in live :: APPLICATION < h < next && h !in released)
      && (forall h | h in released :: APPLICATION < h < next)
      && APPLICATION < next
    }

    predicate Owned(r: Ref)
      reads this
    {
      r.Null? || r.h in live
    }

    predicate Usable(r: Ref)
      reads this
    {
      Owned(r) || r == Ref(APPLICATION)
    }

    constructor ()
      ensures Valid() && live == {} && released == {}
    {
      next, live, released := APPLICATION + 1, {}, {};
    }

    method AddRef(r: Ref) returns (n: Ref)
      requires Valid() && Usable(r)
      modifies this
      ensures Valid() && Owned(n) && released == old(released)
      ensures r.Null? ==> n.Null? && live == old(live)
      ensures r.Ref? ==> n.Ref? && n.h !in old(live) + old(released) && live == old(live) + {n.h}
      ensures PeerOf(n) == PeerOf(r) && |live| == old(|live|) + One(PeerOf(r))
      ensures old(next) <= next && (n.Ref? ==> old(next) <= n.h)
    {
      if r.Null? {
        return Null;
      }
      n := Ref(next);
      live := live + {next};
      next := next + 1;
    }

    method Release(r: Ref)
      requires Valid() && Owned(r)
      modifies this
      ensures Valid() && next == old(next)
      ensures live == old(live) - (if r.Null? then {} else {r.h})
      ensures released == old(released) + (if r.Null? then {} else {r.h})
    {
      if r.Ref? {
        live := live - {r.h};
        released := released + {r.h};
      }
    }
  }

  /** rpcGetId: a null client cannot be called, and a call may go unanswered. */
  method RpcGetId(caps: CapTable, peer: Ref, answer: Option<NodeId>) returns (id: Option<NodeId>)
    requires caps.Usable(peer)
    ensures id == if peer.Ref? then answer else None
  {
    id := if peer.Ref? then answer else None;
  }

  /** The id AddPeer files a peer under: zero when the id call fails, as its error is dropped. */
  function FiledUnder(p: Peer, answer: Option<NodeId>): (id: NodeId) {
    if p.Client? && answer.Some? then answer.value else 0
  }

  /** References that are null, or live without having been so before and no two the same. */
  ghost predicate NewRefs(caps: CapTable, before: set<nat>, refs: seq<Ref>)
    reads caps
  {
    && (forall k | 0 <= k < |refs| :: caps.Owned(refs[k]) && (refs[k].Ref? ==> refs[k].h !in before))
    && (forall j, k | 0 <= j < k < |refs| && refs[j].Ref? :: refs[j] != refs[k])
  }

  /** Ids in some order, each once. */
  ghost predicate Enumerates(ids: seq<NodeId>, all: set<NodeId>) {
    && (forall j, k | 0 <= j < k < |ids| :: ids[j] != ids[k])
    && (forall id :: id in ids <==> id in all)
  }

  /** References to the peers of the given ids, one each. */
  ghost predicate RefsTo(view: map<NodeId, Peer>, ids: seq<NodeId>, refs: seq<Ref>) {
    |refs| == |ids| && forall k | 0 <= k < |ids| :: ids[k] in view && PeerOf(refs[k]) == view[ids[k]]
  }

  lemma EnumeratesMore(ids: seq<NodeId>, all: set<NodeId>, id: NodeId)
    requires Enumerates(ids, all) && id !in all
    ensures Enumerates(ids + [id], all + {id})
  {
  }

  lemma RefsToMore(view: map<NodeId, Peer>, ids: seq<NodeId>, refs: seq<Ref>, id: NodeId, r: Ref)
    requires RefsTo(view, ids, refs) && id in view && PeerOf(r) == view[id]
    ensures RefsTo(view, ids + [id], refs + [r])
  {
  }

  /** No two ids share a reference. */
  ghost predicate Distinct(m: map<NodeId, Ref>) {
    forall a, b | a in m && b in m && m[a].Ref? && m[a] == m[b] :: a == b
  }

  lemma DistinctInsert(m: map<NodeId, Ref>, id: NodeId, r: Ref)
    requires Distinct(m) && forall a | a in m && m[a].Ref? :: m[a] != r
    ensures Distinct(m[id := r])
  {
  }

  function Worth(m: map<NodeId, Ref>): (view: map<NodeId, Peer>) {
    map id | id in m :: PeerOf(m[id])
  }

  lemma WorthInsert(m: map<NodeId, Ref>, id: NodeId, r: Ref)
    ensures Worth(m[id := r]) == Worth(m)[id := PeerOf(r)]
  {
  }

  lemma ClientsInsert(m: map<NodeId, Peer>, id: NodeId, p: Peer)
    requires id !in m
    ensures |Clients(m[id := p])| == |Clients(m)| + One(p)
  {
    assert Clients(m[id := p]) == Clients(m) + if p.Client? then {id} else {};
  }

  class View {
    const caps: CapTable
    var peers: map<NodeId, Ref>

    /** Every reference kept is the view's own and live, and no two peers share one. */
    ghost predicate Valid()
      reads this, caps
    {
      && caps.Valid()
      && (forall id | id in peers :: caps.Owned(peers[id]))
      && Distinct(peers)
    }

    function Abs(): (view: map<NodeId, Peer>)
      reads this
    {
      Worth(peers)
    }

    constructor (caps: CapTable)
      requires caps.Valid()
      ensures this.caps == caps && Valid() && peers == map[]
    {
      this.caps := caps;
      peers := map[];
    }

    /** A fresh reference to every peer; the ones kept stay as they are. */
    method Peers() returns (found: map<NodeId, Ref>)
      requires Valid()
      modifies caps
      ensures Valid()
      ensures found.Keys == peers.Keys
      ensures forall id | id in found :: PeerOf(found[id]) == PeerOf(peers[id]) && caps.Owned(found[id])
      ensures forall id | id in found && found[id].Ref? :: found[id].h !in old(caps.live)
      ensures Distinct(found)
      ensures old(caps.live) <= caps.live && caps.released == old(caps.released)
      ensures |caps.live| == old(|caps.live|) + |Clients(Abs())|
    {
      found := map[];
      var todo := peers.Keys;
      while todo != {}
        invariant Valid() && caps.released == old(caps.released) && old(caps.live) <= caps.live
        invariant todo <= peers.Keys && found.Keys == peers.Keys - todo
        invariant Copies(found, old(caps.live))
        invariant |caps.live| == old(|caps.live|) + |Clients(Worth(found))|
        decreases todo
      {
        var id :| id in todo;
        found := CopyPeer(found, id, old(caps.live));
        todo := todo - {id};
      }
      assert Worth(found) == Abs();
    }

    /** References of their own to peers of the view, none live before. */
    ghost predicate Copies(found: map<NodeId, Ref>, before: set<nat>)
      reads this, caps
    {
      && Distinct(found)
      && forall id | id in found ::
           && id in peers && PeerOf(found[id]) == PeerOf(peers[id]) && caps.Owned(found[id])
           && (found[id].Ref? ==> found[id].h !in before)
    }

    /** The body of the loop of Peers. */
    method CopyPeer(found: map<NodeId, Ref>, id: NodeId, ghost before: set<nat>) returns (found': map<NodeId, Ref>)
      requires Valid() && id in peers && id !in found && Copies(found, before) && before <= caps.live
      modifies caps
      ensures Valid() && found'.Keys == found.Keys + {id} && Copies(found', before)
      ensures old(caps.live) <= caps.live && caps.released == old(caps.released)
      ensures |caps.live| - old(|caps.live|) == |Clients(Worth(found'))| - |Clients(Worth(found))|
    {
      var r := caps.AddRef(peers[id]);
      DistinctInsert(found, id, r);
      WorthInsert(found, id, r);
      ClientsInsert(Worth(found), id, PeerOf(r));
      found' := found[id := r];
    }

    /** Files a peer under the id it answers with; what was kept under that id is overwritten, not released. */
    method AddPeer(peer: Ref, answer: Option<NodeId>)
      requires Valid() && caps.Usable(peer)
      modifies this, caps
      ensures Valid()
      ensures Abs() == old(Abs())[FiledUnder(PeerOf(peer), answer) := PeerOf(peer)]
      ensures old(caps.live) <= caps.live && caps.released == old(caps.released)
      ensures |caps.live| == old(|caps.live|) + 2 * One(PeerOf(peer))
    {
      var probe := caps.AddRef(peer);
      var answered := RpcGetId(caps, probe, answer);
      Keep(if answered.Some? then answered.value else 0, peer);
    }

    /** Stores a reference of the view's own. */
    method Keep(id: NodeId, peer: Ref)
      requires Valid() && caps.Usable(peer)
      modifies this, caps
      ensures Valid() && Abs() == old(Abs())[id := PeerOf(peer)]
      ensures old(caps.live) <= caps.live && caps.released == old(caps.released)
      ensures |caps.live| == old(|caps.live|) + One(PeerOf(peer))
    {
      var kept := caps.AddRef(peer);
      DistinctInsert(peers, id, kept);
      WorthInsert(peers, id, kept);
      peers := peers[id := kept];
    }

    /** Takes a peer out and returns a fresh reference to it, or null; the one that was kept stays live. */
    method PopPeer(id: NodeId) returns (peer: Ref)
      requires Valid()
      modifies this, caps
      ensures Valid() && caps.Owned(peer)
      ensures peers == old(peers) - {id}
      ensures PeerOf(peer) == if id in old(peers) then PeerOf(old(peers)[id]) else NullClient
      ensures peer.Ref? ==> peer.h !in old(caps.live) && peer.h !in old(caps.released)
      ensures caps.live == old(caps.live) + (if peer.Null? then {} else {peer.h})
      ensures caps.released == old(caps.released)
    {
      if id !in peers {
        return Null;
      }
      var kept := peers[id];
      peers := peers - {id};
      peer := caps.AddRef(kept);
    }
  }
}
