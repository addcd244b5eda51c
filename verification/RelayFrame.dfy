/** Length-prefixed frames over a stream socket (benchmarks/worker_model_proxy.py, _read and relay_request). */
module RelayFrame {
  import opened Common
  import opened Base64

  const MAX_RESPONSE: nat := 1_048_576

  /** The receiving end of a socket: the bytes still to come before the peer closes it. */
  class Peer {
    var pending: seq<Byte>

    constructor (pending: seq<Byte>)
      ensures this.pending == pending
    {
      this.pending := pending;
    }

    /** At least one byte and at most max, as many as the network happens to deliver; nothing only at the end. */
    method Recv(max: nat, delivered: nat) returns (chunk: seq<Byte>)
      requires max > 0
      modifies this
      ensures chunk + pending == old(pending) && |chunk| <= max && (chunk == [] <==> old(pending) == [])
    {
      var available := if max < |pending| then max else |pending|;
      var n := if delivered < 1 then 1 else delivered;
      if n > available { n := available; }
      chunk := pending[..n];
      pending := pending[n..];
    }
  }

  /** However the bytes are delivered, the result is the next count of them, or nothing if the stream ends first. */
  method Read(peer: Peer, count: nat, delivered: nat -> nat) returns (data: Option<seq<Byte>>)
    modifies peer
    ensures |old(peer.pending)| < count ==> data == None
    ensures count <= |old(peer.pending)| ==>
              data == Some(old(peer.pending)[..count]) && peer.pending == old(peer.pending)[count..]
  {
    var received: seq<Byte>, i := [], 0;
    while |received| < count
      invariant received + peer.pending == old(peer.pending) && |received| <= count
      decreases count - |received|
    {
      var chunk := peer.Recv(count - |received|, delivered(i));
      if chunk == [] { return None; }
      received := received + chunk;
      i := i + 1;
    }
    return Some(received);
  }

  /** A length in network byte order. */
  function Prefix(n: nat): seq<Byte>
    requires n < 0x1_0000_0000
  {
    [n / 0x100_0000, n / 0x1_0000 % 0x100, n / 0x100 % 0x100, n % 0x100]
  }

  function Length(prefix: seq<Byte>): nat
    requires |prefix| == 4
  {
    prefix[0] as int * 0x100_0000 + prefix[1] as int * 0x1_0000 + prefix[2] as int * 0x100 + prefix[3] as int
  }

  /** The payload at the head of a stream, if it is whole and of an allowed length. */
  function Payload(stream: seq<Byte>): Option<seq<Byte>> {
    if |stream| < 4 then None
    else
      var n := Length(stream[..4]);
      if 0 < n <= MAX_RESPONSE && 4 + n <= |stream| then Some(stream[4..4 + n]) else None
  }

  method ReadFrame(peer: Peer, header: nat -> nat, body: nat -> nat) returns (payload: Option<seq<Byte>>)
    modifies peer
    ensures payload == Payload(old(peer.pending))
  {
    ghost var stream := peer.pending;
    var prefix := Read(peer, 4, header);
    if prefix.None? { return None; }
    var n := Length(prefix.value);
    if !(0 < n <= MAX_RESPONSE) { return None; }
    payload := Read(peer, n, body);
    assert n <= |stream[4..]| ==> stream[4..][..n] == stream[4..4 + n];
  }

  lemma LengthOfPrefix(n: nat)
    requires n < 0x1_0000_0000
    ensures Length(Prefix(n)) == n
  {
    assert n / 0x1_0000 == n / 0x100 / 0x100 && n / 0x100_0000 == n / 0x100 / 0x100 / 0x100;
  }

  /** A reply within the bound is read back whole, and bytes after it are left alone; any other reply is refused. */
  lemma FrameRoundTrip(payload: seq<Byte>, rest: seq<Byte>)
    requires |payload| < 0x1_0000_0000
    ensures Payload(Prefix(|payload|) + payload + rest)
         == if 0 < |payload| <= MAX_RESPONSE then Some(payload) else None
  {
    LengthOfPrefix(|payload|);
    var stream := Prefix(|payload|) + payload + rest;
    assert stream[..4] == Prefix(|payload|);
    assert stream[4..4 + |payload|] == payload;
  }
}
