/** How a node finds a peer it is told to add, and how it drops one (raft/node.go, retrieve to unregister). */
module Retrieval {
  import opened Common
  import opened Capabilities

  /**
   * How one retrieveWithTimeout ends: with the node its goroutine sent, or with an error, which may or may
   * not be the context's. After an error of the caller's own (timeout, cancellation) the goroutine can
   * still come by a node, late.
   */
  datatype Attempt = Got(peer: Peer) | Erred(isCtxErr: bool, late: Peer)

  function FirstGot(attempts: seq<Attempt>): (peer: Option<Peer>) {
    if attempts == [] then None
    else
      match attempts[0]
      case Got(peer) => Some(peer)
      case Erred(isCtxErr, _) => if isCtxErr then None else FirstGot(attempts[1..])
  }

  /** The node the retry loop ends with, None for an error. With no attempts at all it keeps the null client. */
  function Retrieved(attempts: seq<Attempt>): (peer: Option<Peer>) {
    if attempts == [] then Some(NullClient) else FirstGot(attempts)
  }

  /** The attempt that decides: a success before which no attempt failed with the context's error. */
  ghost predicate Decides(attempts: seq<Attempt>, i: int) {
    && 0 <= i < |attempts|
    && attempts[i].Got?
    && forall j | 0 <= j < i :: attempts[j].Erred? && !attempts[j].isCtxErr
  }

  lemma {:induction false} FirstGotDecides(attempts: seq<Attempt>)
    ensures FirstGot(attempts).Some? <==> exists i :: Decides(attempts, i)
    ensures forall i | Decides(attempts, i) :: FirstGot(attempts) == Some(attempts[i].peer)
  {
    if attempts != [] {
      var rest := attempts[1..];
      FirstGotDecides(rest);
      if attempts[0].Got? {
        assert Decides(attempts, 0);
      } else {
        forall i | Decides(attempts, i) ensures i > 0 && Decides(rest, i - 1) && attempts[i] == rest[i - 1] {
          assert attempts[0].Erred?;
          forall j | 0 <= j < i - 1 ensures rest[j].Erred? && !rest[j].isCtxErr {
            assert rest[j] == attempts[j + 1];
          }
        }
        if i :| Decides(rest, i) && !attempts[0].isCtxErr {
          assert Decides(attempts, i + 1);
        }
      }
    }
  }

  /** References a run of attempts takes: the goroutine's and, on success, the caller's. */
  function AttemptsCost(attempts: seq<Attempt>): (n: nat) {
    if attempts == [] then 0
    else
      match attempts[0]
      case Got(peer) => 2 * One(peer)
      case Erred(isCtxErr, late) => One(late) + if isCtxErr then 0 else AttemptsCost(attempts[1..])
  }

  /** References a whole registration takes and never gives back. */
  function RegisterCost(attempts: seq<Attempt>): (n: nat) {
    AttemptsCost(attempts) + if Retrieved(attempts) == Some(Client) then 3 else 0
  }

  /** The view a registration leaves, and whether it went without an error. */
  datatype Registration = Registration(view: map<NodeId, Peer>, ok: bool)

  function Registered(view: map<NodeId, Peer>, attempts: seq<Attempt>, answer: Option<NodeId>)
    : (registration: Registration)
  {
    match Retrieved(attempts)
    case None => Registration(view, false)
    case Some(peer) => Registration(view[FiledUnder(peer, answer) := peer], true)
  }

  /**
   * A registration goes well exactly when some attempt decides, and files that attempt's peer, under the id it
   * answers with or under 0 when it does not answer; otherwise it leaves the view alone. A bound of no retries
   * is the exception: it files the null client under node 0.
   */
  lemma RegistersExactly(view: map<NodeId, Peer>, attempts: seq<Attempt>, answer: Option<NodeId>)
    ensures var r := Registered(view, attempts, answer);
      && (r.ok <==> attempts == [] || exists i :: Decides(attempts, i))
      && (!r.ok ==> r.view == view)
      && (forall i | Decides(attempts, i) && attempts[i].peer.Client? && answer.Some? ::
            r.view == view[answer.value := Client])
      && (forall i | Decides(attempts, i) && attempts[i].peer.Client? && answer.None? :: r.view == view[0 := Client])
      && (forall i | Decides(attempts, i) && attempts[i].peer.NullClient? :: r.view == view[0 := NullClient])
      && (attempts == [] ==> r.view == view[0 := NullClient])
  {
    FirstGotDecides(attempts);
  }

  /** The application's retrieval function: a reference of its own, or the null client. */
  method CallRetrieval(caps: CapTable, peer: Peer) returns (r: Ref)
    ensures PeerOf(r) == peer && caps.Usable(r)
  {
    r := if peer.NullClient? then Null else Ref(APPLICATION);
  }

  /** One attempt: the goroutine's reference, then the caller's on what it received. */
  method RetrieveWithTimeout(caps: CapTable, attempt: Attempt) returns (node: Ref, err: bool)
    requires caps.Valid()
    modifies caps
    ensures caps.Valid() && caps.Owned(node)
    ensures err <==> attempt.Erred?
    ensures PeerOf(node) == if attempt.Got? then attempt.peer else NullClient
    ensures old(caps.live) <= caps.live && caps.released == old(caps.released)
    ensures |caps.live| == old(|caps.live|) + if attempt.Got? then 2 * One(attempt.peer) else One(attempt.late)
  {
    err := attempt.Erred?;
    var found := CallRetrieval(caps, if err then attempt.late else attempt.peer);
    var sent := caps.AddRef(found);
    var received: Ref := if err then Null else sent;
    node := caps.AddRef(received);
  }

  method Register(view: View, attempts: seq<Attempt>, answer: Option<NodeId>) returns (err: bool)
    requires view.Valid()
    modifies view, view.caps
    ensures view.Valid()
    ensures Registration(view.Abs(), !err) == Registered(old(view.Abs()), attempts, answer)
    ensures old(view.caps.live) <= view.caps.live && view.caps.released == old(view.caps.released)
    ensures |view.caps.live| == old(|view.caps.live|) + RegisterCost(attempts)
  {
    var node: Ref := Null;
    err := false;
    var i := 0;
    while i < |attempts|
      invariant 0 <= i <= |attempts|
      invariant view.Valid() && view.peers == old(view.peers) && view.caps.Usable(node)
      invariant i == 0 ==> !err && node.Null?
      invariant i > 0 ==> err && Retrieved(attempts) == FirstGot(attempts[i..])
      invariant old(view.caps.live) <= view.caps.live && view.caps.released == old(view.caps.released)
      invariant |view.caps.live| + AttemptsCost(attempts[i..]) == old(|view.caps.live|) + AttemptsCost(attempts)
    {
      ghost var rest := attempts[i..];
      assert rest[0] == attempts[i] && rest[1..] == attempts[i + 1..];
      node, err := RetrieveWithTimeout(view.caps, attempts[i]);
      if !err {
        break;
      }
      if attempts[i].isCtxErr {
        break;
      }
      i := i + 1;
    }
    if err {
      return;
    }
    var handed := view.caps.AddRef(node);
    view.AddPeer(handed, answer);
  }

  /** unregister: a node never drops itself. Otherwise it releases the reference popped, not the one kept. */
  method Unregister(view: View, self: NodeId, id: NodeId)
    requires view.Valid()
    modifies view, view.caps
    ensures view.Valid()
    ensures view.Abs() == if id == self then old(view.Abs()) else old(view.Abs()) - {id}
    ensures view.caps.live == old(view.caps.live)
    ensures id != self && id in old(view.peers) && old(view.peers)[id].Ref?
        ==> |view.caps.released| == old(|view.caps.released|) + 1
    ensures old(view.caps.released) <= view.caps.released
  {
    if self == id {
      return;
    }
    var peer := view.PopPeer(id);
    view.caps.Release(peer);
  }
}
