/**
 The partial-write and partial-read loops of the unicast link
 (src/network/src/esp/src/TCPClient.cpp and TCPServer.cpp).
 */
module TcpStream {
  import opened Bytes

  const NO_SOCKET: int := -1

  /** What successive socket calls return: negative is an error, else an upper bound on bytes moved. */
  type Script = seq<int>

  function Min(a: nat, b: nat): nat { if a < b then a else b }

  /** Bytes one call moves when `done` of `goal` are through and the peer has `limit` to offer. */
  function Moved(goal: nat, limit: nat, done: nat, offer: nat): nat
    requires done <= limit && done <= goal
  {
    Min(offer, Min(goal, limit) - done)
  }

  /**
   The loop: at least one call, until `goal` bytes are through or a call fails. The end of
   the script counts as a failed call.
   */
  function Moves(goal: nat, limit: nat, done: nat, script: Script): (r: (nat, bool))
    requires done <= goal && done <= limit
    ensures done <= r.0 <= Min(goal, limit)
    ensures r.1 ==> r.0 == goal
    decreases |script|
  {
    if script == [] || script[0] < 0 then (done, false)
    else
      var d := done + Moved(goal, limit, done, script[0]);
      if d < goal then Moves(goal, limit, d, script[1..]) else (d, true)
  }

  /** With enough bytes on offer and progress in every call, as many calls as bytes suffice. */
  lemma {:induction false} ProgressCompletes(goal: nat, limit: nat, done: nat, script: Script)
    requires done <= goal <= limit
    requires |script| >= 1 && |script| >= goal - done && forall k :: 0 <= k < |script| ==> script[k] >= 1
    ensures Moves(goal, limit, done, script) == (goal, true)
    decreases |script|
  {
    var d := done + Moved(goal, limit, done, script[0]);
    if d == goal {
    } else {
      ProgressCompletes(goal, limit, d, script[1..]);
    }
  }

  function Offered(script: Script): int {
    if script == [] then 0 else script[0] + Offered(script[1..])
  }

  /** Before any call fails, the calls offer to move at least n bytes; there is one call at least. */
  ghost predicate Reaches(n: nat, script: Script) {
    exists k :: 0 < k <= |script| && (forall x :: 0 <= x < k ==> script[x] >= 0) && Offered(script[..k]) >= n
  }

  lemma ReachesTail(n: nat, script: Script)
    requires script != [] && 0 <= script[0] < n
    ensures Reaches(n, script) <==> Reaches(n - script[0], script[1..])
  {
    var tail := script[1..];
    if Reaches(n, script) {
      var k :| 0 < k <= |script| && (forall x :: 0 <= x < k ==> script[x] >= 0) && Offered(script[..k]) >= n;
      assert script[..k][1..] == tail[..k - 1];
      assert k > 1 && forall x :: 0 <= x < k - 1 ==> tail[x] == script[x + 1];
    }
    if Reaches(n - script[0], tail) {
      var k :| 0 < k <= |tail| && (forall x :: 0 <= x < k ==> tail[x] >= 0) && Offered(tail[..k]) >= n - script[0];
      assert script[..k + 1][1..] == tail[..k];
      assert forall x :: 0 < x < k + 1 ==> script[x] == tail[x - 1];
    }
  }

  /** The loop succeeds exactly when there is enough to move and the calls reach it before one fails. */
  lemma {:induction false} SucceedsIff(goal: nat, limit: nat, done: nat, script: Script)
    requires done <= goal && done <= limit
    ensures Moves(goal, limit, done, script).1 <==> goal <= limit && Reaches(goal - done, script)
    decreases |script|
  {
    if script == [] || script[0] < 0 {
    } else {
      var d := done + Moved(goal, limit, done, script[0]);
      if d < goal {
        SucceedsIff(goal, limit, d, script[1..]);
        if goal <= limit {
          ReachesTail(goal - done, script);
        }
      } else {
        assert script[..1][1..] == [] && Offered(script[..1]) == script[0];
      }
    }
  }

  /** What the calls offer to move before one of them fails. */
  function OfferedBefore(script: Script): nat {
    if script == [] || script[0] < 0 then 0 else script[0] + OfferedBefore(script[1..])
  }

  /** However it ends, the loop has moved what was offered, as far as there was something to move. */
  lemma {:induction false} MovedExactly(goal: nat, limit: nat, done: nat, script: Script)
    requires done <= goal && done <= limit
    ensures var most := if goal < limit then goal else limit; var all := done + OfferedBefore(script);
      Moves(goal, limit, done, script).0 == if all < most then all else most
    decreases |script|
  {
    if script == [] || script[0] < 0 {
    } else {
      var d := done + Moved(goal, limit, done, script[0]);
      if d < goal {
        MovedExactly(goal, limit, d, script[1..]);
      }
    }
  }

  /** Every call moves something, and there are enough calls. */
  ghost predicate Progressing(script: Script, n: nat) {
    |script| >= 1 && |script| >= n && forall k :: 0 <= k < |script| ==> script[k] >= 1
  }

  /**
   However both sides are cut up, a transfer that succeeds at both ends is the identity and
   leaves what was sent later unread. Each side succeeds exactly when its calls reach the whole
   length before one of them fails, and so when every call makes progress.
   */
  lemma FragmentationIndependent(data: seq<byte>, later: seq<byte>, sends: Script, receives: Script)
    ensures var (sent, sentOk) := Moves(|data|, |data|, 0, sends);
      var wire := data[..sent] + later;
      var (got, gotOk) := Moves(|data|, |wire|, 0, receives);
      && (sentOk && gotOk ==> wire[..got] == data && wire[got..] == later)
      && (sentOk <==> Reaches(|data|, sends))
      && (sentOk ==> (gotOk <==> Reaches(|data|, receives)))
      && (Progressing(sends, |data|) && Progressing(receives, |data|) ==> sentOk && gotOk)
  {
    SucceedsIff(|data|, |data|, 0, sends);
    SucceedsIff(|data|, |data[..Moves(|data|, |data|, 0, sends).0] + later|, 0, receives);
    if Progressing(sends, |data|) && Progressing(receives, |data|) {
      ProgressCompletes(|data|, |data|, 0, sends);
      ProgressCompletes(|data|, |data| + |later|, 0, receives);
    }
  }

  class TCPClient {
    var socketFd: int
    var wire: seq<byte>          // what the connection has accepted

    constructor ()
      ensures socketFd == NO_SOCKET && wire == []
    {
      socketFd, wire := NO_SOCKET, [];
    }

    method Send(data: seq<byte>, script: Script) returns (ok: bool)
      modifies this
      ensures old(socketFd) == NO_SOCKET ==> !ok && wire == old(wire) && socketFd == NO_SOCKET
      ensures old(socketFd) != NO_SOCKET ==>
        var (sent, done) := Moves(|data|, |data|, 0, script);
        ok == done && wire == old(wire) + data[..sent] && socketFd == if ok then old(socketFd) else NO_SOCKET
    {
      if socketFd == NO_SOCKET {
        return false;
      }
      var sentBytes: nat, k := 0, 0;
      ghost var all := Moves(|data|, |data|, 0, script);
      while true
        invariant 0 <= k <= |script| && sentBytes <= |data|
        invariant wire == old(wire) + data[..sentBytes] && socketFd == old(socketFd)
        invariant all == Moves(|data|, |data|, sentBytes, script[k..])
        decreases |script| - k
      {
        if k == |script| || script[k] < 0 {
          socketFd := NO_SOCKET;
          return false;
        }
        var n := Min(script[k], |data| - sentBytes);
        assert data[..sentBytes + n] == data[..sentBytes] + data[sentBytes..sentBytes + n];
        wire := wire + data[sentBytes..sentBytes + n];
        sentBytes, k := sentBytes + n, k + 1;
        if sentBytes >= |data| {
          break;
        }
      }
      return sentBytes == |data|;
    }
  }

  class TCPServer {
    var clientSocket: int
    var incoming: seq<byte>      // what the connection holds unread

    constructor (socket: int, incoming: seq<byte>)
      ensures clientSocket == socket && this.incoming == incoming
    {
      clientSocket := socket;
      this.incoming := incoming;
    }

    /** `receive` once a client is connected, which it waits for first. */
    method Receive(data: array<byte>, length: nat, script: Script) returns (ok: bool)
      requires length <= data.Length && clientSocket != NO_SOCKET
      modifies this, data
      ensures var (got, done) := Moves(length, |old(incoming)|, 0, script);
        && ok == done && incoming == old(incoming)[got..]
        && (forall x :: 0 <= x < data.Length ==> data[x] == if x < got then old(incoming)[x] else old(data[x]))
        && clientSocket == if ok then old(clientSocket) else NO_SOCKET
    {
      var receivedBytes: nat, k := 0, 0;
      ghost var all := Moves(length, |incoming|, 0, script);
      ghost var stream := incoming;
      while true
        invariant 0 <= k <= |script| && receivedBytes <= length && receivedBytes <= |stream|
        invariant incoming == stream[receivedBytes..] && clientSocket == old(clientSocket)
        invariant forall x :: 0 <= x < data.Length ==>
          data[x] == (if x < receivedBytes then stream[x] else old(data[x]))
        invariant all == Moves(length, |stream|, receivedBytes, script[k..])
        decreases |script| - k
      {
        if k == |script| || script[k] < 0 {
          clientSocket := NO_SOCKET;
          return false;
        }
        var n := Min(script[k], Min(length, receivedBytes + |incoming|) - receivedBytes);
        forall i | receivedBytes <= i < receivedBytes + n {
          data[i] := incoming[i - receivedBytes];
        }
        incoming := incoming[n..];
        receivedBytes, k := receivedBytes + n, k + 1;
        if receivedBytes >= length {
          break;
        }
      }
      return receivedBytes == length;
    }
  }
}
