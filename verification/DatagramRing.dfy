/** The UDP receive ring (src/network/src/esp/src/NetworkBroadcast.cpp). */
module DatagramRing {
  import opened Bytes
  import opened Sequences

  /** Default size (src/bsp/DefaultNetworkConfig.cmake); the ring is twice as large. */
  const MAX_DATAGRAM_SIZE: nat := 255
  const RING_SIZE: nat := 2 * MAX_DATAGRAM_SIZE

  class NetworkBroadcast {
    var circularBuffer: seq<byte>
    var started: bool

    constructor ()
      ensures circularBuffer == [] && !started
    {
      circularBuffer := [];
      started := false;
    }

    /** One pass of `receiveDatagrams`; `failed` stands for a socket error. */
    method ReceiveDatagram(datagram: seq<byte>, failed: bool) returns (running: bool)
      requires |datagram| <= MAX_DATAGRAM_SIZE
      modifies this
      ensures running == !failed && started == old(started)
      ensures circularBuffer ==
        if !failed && |old(circularBuffer)| + |datagram| <= 510 then old(circularBuffer) + datagram
        else old(circularBuffer)
      ensures circularBuffer == if failed then old(circularBuffer) else Arrive(old(circularBuffer), datagram)
    {
      if failed {
        return false;
      }
      if |circularBuffer| + |datagram| <= RING_SIZE {
        circularBuffer := circularBuffer + datagram;
      }
      return true;
    }

    /** One look of `receive`; false means that it keeps waiting. */
    method Receive(length: u16) returns (done: bool, data: seq<byte>)
      modifies this
      ensures done == (|old(circularBuffer)| >= length as nat) && started == old(started)
      ensures done ==> |data| == length as nat && data + circularBuffer == old(circularBuffer)
      ensures !done ==> circularBuffer == old(circularBuffer)
    {
      if |circularBuffer| < length {
        return false, [];
      }
      data := circularBuffer[..length];
      circularBuffer := circularBuffer[length..];
      return true, data;
    }
  }

  /** A datagram enters whole or not at all. */
  function Arrive(ring: seq<byte>, datagram: seq<byte>): seq<byte> {
    if |ring| + |datagram| <= RING_SIZE then ring + datagram else ring
  }

  datatype Action = Datagram(bytes: seq<byte>) | Read(count: nat)

  datatype History = History(
    ring: seq<byte>,
    read: seq<byte>,                // everything `receive` returned
    arrived: seq<seq<byte>>,
    kept: seq<seq<byte>>            // the datagrams that found room
  )

  function Step(h: History, a: Action): History {
    match a
    case Datagram(d) =>
      h.(ring := Arrive(h.ring, d), arrived := h.arrived + [d],
         kept := if |h.ring| + |d| <= RING_SIZE then h.kept + [d] else h.kept)
    case Read(n) => if n <= |h.ring| then h.(ring := h.ring[n..], read := h.read + h.ring[..n]) else h
  }

  function Run(acts: seq<Action>): History {
    if acts == [] then History([], [], [], []) else Step(Run(acts[..|acts| - 1]), acts[|acts| - 1])
  }

  function Concat(q: seq<seq<byte>>): seq<byte> {
    if q == [] then [] else Concat(q[..|q| - 1]) + q[|q| - 1]
  }

  /**
   In every run, what was read followed by the ring is the concatenation of whole datagrams,
   a subsequence of those that arrived; and the ring never outgrows its array.
   */
  lemma {:induction false} WholeDatagrams(acts: seq<Action>)
    ensures var h := Run(acts);
      && h.read + h.ring == Concat(h.kept) && Subsequence(h.kept, h.arrived) && |h.ring| <= RING_SIZE
  {
    if acts == [] {
    } else {
      WholeDatagrams(acts[..|acts| - 1]);
      var h, a := Run(acts[..|acts| - 1]), acts[|acts| - 1];
      match a
      case Datagram(d) =>
        SubsequenceSnoc(h.kept, h.arrived, d);
        assert (h.kept + [d])[..|h.kept|] == h.kept;
        assert h.read + (h.ring + d) == h.read + h.ring + d;
      case Read(n) =>
        if n <= |h.ring| {
          assert h.read + h.ring[..n] + h.ring[n..] == h.read + h.ring;
        }
    }
  }
}
