/** Sockets as the link code sees them. A stream socket is a script of
    arrivals: each `recv(max)` call takes (up to `max` bytes of) the next
    arrival, an empty chunk or an exhausted script is the peer closing the
    connection, and a fault is a call that raises. `recv_exact` is
    specified by `Take` and proved to return exactly the next `n` bytes of
    the byte stream, whatever its segmentation. */
module Transport {
  import opened Common

  datatype Arrival = Chunk(data: Bytes) | Fault

  /** The bytes the script delivers before the first close or fault, in
      arrival order. */
  function Avail(inbox: seq<Arrival>): Bytes
    decreases |inbox|
  {
    if inbox == [] || inbox[0].Fault? || inbox[0].data == [] then []
    else inbox[0].data + Avail(inbox[1..])
  }

  /** A measure of what is left to receive: every arrival counts one plus
      its length. */
  function Size(inbox: seq<Arrival>): nat
    decreases |inbox|
  {
    if inbox == [] then 0
    else 1 + (if inbox[0].Chunk? then |inbox[0].data| else 0) + Size(inbox[1..])
  }

  lemma {:induction false} SizeAppend(a: seq<Arrival>, b: seq<Arrival>)
    ensures Size(a + b) == Size(a) + Size(b)
    decreases |a|
  {
    if a == [] {
      assert a + b == b;
    } else {
      assert (a + b)[1..] == a[1..] + b;
      SizeAppend(a[1..], b);
    }
  }

  /** A connected stream socket. */
  class Socket {
    var inbox: seq<Arrival>
    var closed: bool

    constructor (script: seq<Arrival>)
      ensures inbox == script && !closed
    {
      inbox := script;
      closed := false;
    }

    /** `recv(max)`: `None` where the call raises, otherwise at most `max`
        bytes of the next arrival (the rest of that arrival stays queued);
        `Some([])` once the peer has closed. */
    method Recv(max: nat) returns (r: Option<Bytes>)
      requires max > 0
      modifies this
      ensures closed == old(closed)
      ensures old(inbox) == [] ==> r == Some([]) && inbox == []
      ensures old(inbox) != [] && old(inbox)[0].Fault? ==> r == None && inbox == old(inbox)[1..]
      ensures old(inbox) != [] && old(inbox)[0].Chunk? && |old(inbox)[0].data| <= max ==>
                r == Some(old(inbox)[0].data) && inbox == old(inbox)[1..]
      ensures old(inbox) != [] && old(inbox)[0].Chunk? && |old(inbox)[0].data| > max ==>
                r == Some(old(inbox)[0].data[..max]) &&
                inbox == [Chunk(old(inbox)[0].data[max..])] + old(inbox)[1..]
      ensures Size(inbox) <= Size(old(inbox))
      ensures old(inbox) != [] ==> Size(inbox) < Size(old(inbox))
    {
      if inbox == [] {
        return Some([]);
      }
      match inbox[0]
      case Fault =>
        r := None;
        inbox := inbox[1..];
      case Chunk(d) =>
        if |d| <= max {
          r := Some(d);
          inbox := inbox[1..];
        } else {
          r := Some(d[..max]);
          SizeAppend([Chunk(d[max..])], inbox[1..]);
          inbox := [Chunk(d[max..])] + inbox[1..];
        }
    }

    method Close()
      modifies this
      ensures closed && inbox == old(inbox)
    {
      closed := true;
    }
  }

  // ---------------------------------------------------------------------
  // recv_exact
  // ---------------------------------------------------------------------

  /** What `recv_exact(n)` yields on a running receiver, and the script it
      leaves: reads of `n - len(data)` bytes until `n` bytes are in, `None`
      as soon as a read is empty or raises. */
  function Take(inbox: seq<Arrival>, n: nat): (r: (Option<Bytes>, seq<Arrival>))
    ensures r.0.Some? ==> |r.0.value| == n
    decreases |inbox|
  {
    if n == 0 then (Some([]), inbox)
    else if inbox == [] then (None, [])
    else match inbox[0]
      case Fault => (None, inbox[1..])
      case Chunk(d) =>
        if d == [] then (None, inbox[1..])
        else if |d| < n then Prepend(d, Take(inbox[1..], n - |d|))
        else if |d| == n then (Some(d), inbox[1..])
        else (Some(d[..n]), [Chunk(d[n..])] + inbox[1..])
  }

  /** Bytes already accumulated in front of the outcome of the remaining
      reads. */
  function Prepend(d: Bytes, t: (Option<Bytes>, seq<Arrival>)): (Option<Bytes>, seq<Arrival>)
  {
    (if t.0.Some? then Some(d + t.0.value) else None, t.1)
  }

  lemma PrependTwice(a: Bytes, b: Bytes, t: (Option<Bytes>, seq<Arrival>))
    ensures Prepend(a, Prepend(b, t)) == Prepend(a + b, t)
  {
    if t.0.Some? {
      assert a + (b + t.0.value) == (a + b) + t.0.value;
    }
  }

  /** `recv_exact` returns `n` bytes exactly when the stream still holds
      `n` bytes before a close or a fault; they are the next `n` bytes of
      the stream in arrival order, and the stream that follows starts
      right after them. */
  lemma {:induction false} TakeAvail(inbox: seq<Arrival>, n: nat)
    ensures Take(inbox, n).0.Some? <==> (n == 0 || |Avail(inbox)| >= n)
    ensures Take(inbox, n).0.Some? ==>
              Take(inbox, n).0.value == Avail(inbox)[..n] &&
              Avail(Take(inbox, n).1) == Avail(inbox)[n..]
    decreases |inbox|
  {
    if n == 0 || inbox == [] || inbox[0].Fault? {
    } else {
      var d := inbox[0].data;
      var rest := inbox[1..];
      if d == [] {
      } else if |d| < n {
        TakeAvail(rest, n - |d|);
        var t := Take(rest, n - |d|);
        assert Avail(inbox) == d + Avail(rest);
        if t.0.Some? {
          assert Avail(inbox)[..n] == d + Avail(rest)[..n - |d|];
          assert Avail(inbox)[n..] == Avail(rest)[n - |d|..];
        }
      } else if |d| == n {
        assert Avail(inbox) == d + Avail(rest);
        assert Avail(inbox)[..n] == d;
        assert Avail(inbox)[n..] == Avail(rest);
      } else {
        var tail := [Chunk(d[n..])] + rest;
        assert tail[1..] == rest;
        assert Avail(tail) == d[n..] + Avail(rest);
        assert Avail(inbox) == d + Avail(rest);
        assert Avail(inbox)[..n] == d[..n];
        assert Avail(inbox)[n..] == d[n..] + Avail(rest);
      }
    }
  }

  /** A read of at least one byte always consumes part of the script, so
      a loop of successful reads ends. */
  lemma {:induction false} TakeShrinks(inbox: seq<Arrival>, n: nat)
    ensures Size(Take(inbox, n).1) <= Size(inbox)
    ensures n > 0 && inbox != [] ==> Size(Take(inbox, n).1) < Size(inbox)
    decreases |inbox|
  {
    if n == 0 || inbox == [] || inbox[0].Fault? {
    } else {
      var d := inbox[0].data;
      if d != [] && |d| < n {
        TakeShrinks(inbox[1..], n - |d|);
      } else if |d| > n {
        SizeAppend([Chunk(d[n..])], inbox[1..]);
      }
    }
  }

  /** `recv_exact(n)` on `sock` while `running` is the receiver's
      `is_running` flag: `None` at once when stopped (and more than zero
      bytes are wanted), otherwise the outcome `Take` describes. */
  method RecvExact(sock: Socket, running: bool, n: nat) returns (r: Option<Bytes>)
    modifies sock
    ensures sock.closed == old(sock.closed)
    ensures !running && n > 0 ==> r == None && sock.inbox == old(sock.inbox)
    ensures running || n == 0 ==> (r, sock.inbox) == Take(old(sock.inbox), n)
  {
    var data: Bytes := [];
    ghost var want := Take(sock.inbox, n);
    assert want.0.Some? ==> [] + want.0.value == want.0.value;
    while |data| < n
      invariant |data| <= n
      invariant sock.closed == old(sock.closed)
      invariant running || n == 0 ==> Prepend(data, Take(sock.inbox, n - |data|)) == want
      invariant !running ==> data == [] && sock.inbox == old(sock.inbox)
      decreases Size(sock.inbox), n - |data|
    {
      if !running {
        return None;
      }
      ghost var before := sock.inbox;
      var packet := sock.Recv(n - |data|);
      if packet.None? {
        return None;
      }
      if packet.value == [] {
        return None;
      }
      assert packet.value + [] == packet.value;
      assert Take(before, n - |data|) == Prepend(packet.value, Take(sock.inbox, n - |data| - |packet.value|));
      PrependTwice(data, packet.value, Take(sock.inbox, n - |data| - |packet.value|));
      data := data + packet.value;
    }
    assert Take(sock.inbox, 0) == (Some([]), sock.inbox);
    assert data + [] == data;
    return Some(data);
  }

  // ---------------------------------------------------------------------
  // Datagram sockets, sending sockets and audio device streams
  // ---------------------------------------------------------------------

  /** What one `recvfrom` call on a datagram socket with a timeout yields. */
  datatype Datagram = Delivered(data: Bytes) | Timeout | Failure

  /** The buffer size every UDP receiver passes to `recvfrom`. */
  const RECV_MAX: nat := 65536

  /** `recvfrom(65536)` keeps the first 65536 bytes of a longer datagram. */
  function Received(data: Bytes): (r: Bytes)
    ensures |r| <= RECV_MAX && |r| <= |data| && r == data[..|r|]
    ensures |data| <= RECV_MAX ==> r == data
  {
    if |data| <= RECV_MAX then data else data[..RECV_MAX]
  }

  /** The byte stream a run of `sendall` calls puts on a TCP connection. */
  function Joined(chunks: seq<Bytes>): (b: Bytes)
    decreases |chunks|
  {
    if chunks == [] then [] else Joined(chunks[..|chunks| - 1]) + chunks[|chunks| - 1]
  }

  lemma JoinedSnoc(chunks: seq<Bytes>, x: Bytes)
    ensures Joined(chunks + [x]) == Joined(chunks) + x
  {
    assert (chunks + [x])[..|chunks|] == chunks;
  }

  /** A socket as a sender uses it: what went out, and whether it is
      closed. Whether the network takes a write is an input. */
  class Sink {
    var sent: seq<Bytes>
    var closed: bool

    constructor ()
      ensures sent == [] && !closed
    {
      sent := [];
      closed := false;
    }

    /** `sendall(data)` or `send(data)`: it goes through when the network
        takes it and the socket is open, and otherwise raises having sent
        nothing. */
    method Send(data: Bytes, ok: bool) returns (done: bool)
      modifies this
      ensures done <==> ok && !closed
      ensures sent == if done then old(sent) + [data] else old(sent)
      ensures closed == old(closed)
    {
      done := ok && !closed;
      if done {
        sent := sent + [data];
      }
    }

    method Close()
      modifies this
      ensures closed && sent == old(sent)
    {
      closed := true;
    }
  }

  // ---------------------------------------------------------------------
  // The TCP senders' accept loop
  // ---------------------------------------------------------------------

  /** What one `accept()` on the listening socket (1 s timeout) does. */
  datatype AcceptOutcome = AcceptTimeout | Connection | AcceptFailure

  /** Whether the accept loop gets a client from a script of `accept()`
      outcomes: timeouts are retried, the first connection or failure ends
      the loop, and an exhausted script stands for the sender stopping. */
  predicate FirstConnection(accepts: seq<AcceptOutcome>)
    decreases |accepts|
  {
    accepts != [] &&
    (accepts[0] == Connection || (accepts[0] == AcceptTimeout && FirstConnection(accepts[1..])))
  }

  /** A client is accepted exactly when some `accept()` connects and every
      call before it timed out. */
  lemma {:induction false} FirstConnectionAt(accepts: seq<AcceptOutcome>)
    ensures FirstConnection(accepts) <==>
              exists k :: 0 <= k < |accepts| && accepts[k] == Connection &&
                          forall j :: 0 <= j < k ==> accepts[j] == AcceptTimeout
    decreases |accepts|
  {
    if accepts != [] {
      FirstConnectionAt(accepts[1..]);
      if FirstConnection(accepts) && accepts[0] != Connection {
        var k :| 0 <= k < |accepts[1..]| && accepts[1..][k] == Connection &&
                 forall j :: 0 <= j < k ==> accepts[1..][j] == AcceptTimeout;
        assert accepts[k + 1] == Connection;
        assert forall j :: 0 <= j < k + 1 ==> accepts[j] == AcceptTimeout by {
          forall j | 0 <= j < k + 1 ensures accepts[j] == AcceptTimeout {
            if j > 0 {
              assert accepts[j] == accepts[1..][j - 1];
            }
          }
        }
      }
      if !FirstConnection(accepts) {
        forall k | 0 <= k < |accepts| && accepts[k] == Connection
          ensures exists j :: 0 <= j < k && accepts[j] != AcceptTimeout
        {
          if accepts[0] == AcceptTimeout {
            assert k > 0 && accepts[1..][k - 1] == Connection;
            var j :| 0 <= j < k - 1 && accepts[1..][j] != AcceptTimeout;
            assert accepts[j + 1] != AcceptTimeout;
          } else {
            assert accepts[0] != AcceptTimeout;
          }
        }
      }
    }
  }

  /** `while self.is_running: accept()` of the TCP sender threads, the
      outcomes of the calls given as a script: true once a client is
      accepted. */
  method AcceptLoop(accepts: seq<AcceptOutcome>, running: bool) returns (connected: bool)
    ensures connected <==> running && FirstConnection(accepts)
  {
    var i := 0;
    while running && i < |accepts|
      invariant 0 <= i <= |accepts|
      invariant FirstConnection(accepts) <==> FirstConnection(accepts[i..])
      decreases |accepts| - i
    {
      assert accepts[i..][1..] == accepts[i + 1..];
      match accepts[i]
      case AcceptTimeout =>
        i := i + 1;
      case Connection =>
        return true;
      case AcceptFailure =>
        return false;
    }
    return false;
  }

  /** A `sounddevice` stream handle. */
  class DeviceStream {
    var active: bool
    var closed: bool

    constructor ()
      ensures active && !closed
    {
      active := true;
      closed := false;
    }

    /** `stream.stop()` followed by `stream.close()`. */
    method StopAndClose()
      modifies this
      ensures !active && closed
    {
      active := false;
      closed := true;
    }
  }
}
