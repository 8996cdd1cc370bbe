/** The original receiver: TCP frames of a 4-byte big-endian length and
    that many bytes of stereo int16 PCM, read with `recv_exact` inside a
    reconnect loop; UDP datagrams taken whole as PCM; a jitter buffer of
    50 blocks; the playback callback and `stop_receiver`. Threads, the GUI
    and the VU meters are left out: the network is given as socket
    scripts, one per connection attempt, and the receive loops run to the
    end of their script. */
module Receiver {
  import opened Common
  import opened Pcm
  import opened Transport
  import opened Wire
  import opened Jitter
  import opened Playback
  import ReceiverPro
  import Sender

  /** `deque(maxlen=50)`. */
  const CAPACITY: nat := 50

  // ---------------------------------------------------------------------
  // What one connection delivers
  // ---------------------------------------------------------------------

  /** One pass of the TCP read loop: the connection ends (a read came back
      empty, or numpy raised on a payload that is not whole stereo
      frames), or a block is read, with what is left to read. */
  datatype Pass = End | Block(rows: Rows<int>, rest: seq<Arrival>)

  function ReadBlock(inbox: seq<Arrival>): (r: Pass)
    ensures r.Block? ==> Size(r.rest) < Size(inbox) && HasWidth(r.rows, WIRE_CHANNELS) && RowsInt16(r.rows)
  {
    match NextLengthFrame(inbox)
    case None => End
    case Some((payload, rest)) =>
      match ParseBlock(payload, WIRE_CHANNELS)
      case None => End
      case Some(rows) => Block(rows, rest)
  }

  /** The blocks one TCP connection delivers to the buffer, in order. */
  function SessionBlocks(inbox: seq<Arrival>): (bs: seq<Rows<int>>)
    decreases Size(inbox)
  {
    match ReadBlock(inbox)
    case End => []
    case Block(rows, rest) => [rows] + SessionBlocks(rest)
  }

  /** The blocks a run of connection attempts delivers (a refused
      connection delivers none). */
  function AttemptsBlocks(attempts: seq<Option<seq<Arrival>>>): (bs: seq<Rows<int>>)
    decreases |attempts|
  {
    if attempts == [] then []
    else (if attempts[0].Some? then SessionBlocks(attempts[0].value) else []) + AttemptsBlocks(attempts[1..])
  }

  /** What one `recvfrom` puts in the buffer: the datagram's bytes as
      stereo frames, or nothing on a timeout, a failing read or a
      datagram numpy cannot reshape. */
  function DatagramBlock(d: Datagram): (bs: seq<Rows<int>>)
    ensures |bs| <= 1
  {
    if d.Delivered? then
      match ParseBlock(Received(d.data), WIRE_CHANNELS)
      case Some(rows) => [rows]
      case None => []
    else []
  }

  function DatagramsBlocks(ds: seq<Datagram>): (bs: seq<Rows<int>>)
    decreases |ds|
  {
    if ds == [] then [] else DatagramBlock(ds[0]) + DatagramsBlocks(ds[1..])
  }

  // ---------------------------------------------------------------------
  // What the original sender's packets read back as
  // ---------------------------------------------------------------------

  /** Over TCP: a connection that carries the original sender's packets
      for a run of non-empty stereo blocks and then closes delivers
      exactly those blocks, however the stream is segmented. */
  lemma {:induction false} SessionReadsLengthStream(inbox: seq<Arrival>, blocks: seq<Rows<int>>)
    requires Sender.Framable(blocks) && Avail(inbox) == Sender.LengthStream(blocks)
    ensures SessionBlocks(inbox) == blocks
    decreases |blocks|
  {
    if blocks == [] {
      TakeAvail(inbox, 4);
      assert NextLengthFrame(inbox).None?;
    } else {
      var b := blocks[0];
      var more := Sender.LengthStream(blocks[1..]);
      Sender.LengthStreamHead(blocks);
      Sender.SentBlockReadsBack(inbox, b, more);
      var rest := NextLengthFrame(inbox).value.1;
      assert ReadBlock(inbox) == Block(b, rest);
      SessionReadsLengthStream(rest, blocks[1..]);
    }
  }

  /** Over UDP: the original sender's datagram for a stereo block is read
      back as that block when it fits the 65536-byte `recvfrom`. */
  lemma DatagramReadsBack(rows: Rows<int>)
    requires HasWidth(rows, WIRE_CHANNELS) && RowsInt16(rows) && |ToBytes(rows)| <= RECV_MAX
    ensures DatagramBlock(Delivered(ToBytes(rows))) == [rows]
  {
    ParseToBytes(rows, WIRE_CHANNELS);
  }

  /** The length-prefixed read of `tcp_receiver_thread`: `recv_exact(4)`
      for the length, then `recv_exact(length)`; None where either comes
      back empty, a zero length included. */
  method RecvLengthFrame(sock: Socket, running: bool) returns (f: Option<Bytes>)
    requires running
    modifies sock
    ensures sock.closed == old(sock.closed)
    ensures NextLengthFrame(old(sock.inbox)).None? ==> f.None?
    ensures NextLengthFrame(old(sock.inbox)).Some? ==>
              f == Some(NextLengthFrame(old(sock.inbox)).value.0) && sock.inbox == NextLengthFrame(old(sock.inbox)).value.1
  {
    TakeAvail(sock.inbox, 4);
    var lengthData := RecvExact(sock, running, 4);
    if lengthData.None? {
      return None;
    }
    var length := UnpackU32(lengthData.value).value;
    var audioData := RecvExact(sock, running, length);
    if audioData.None? || audioData.value == [] {
      return None;
    }
    f := Some(audioData.value);
  }

  // ---------------------------------------------------------------------
  // The receiver
  // ---------------------------------------------------------------------

  class MpxReceiver {
    var isRunning: bool
    var reconnectEnabled: bool
    var stream: DeviceStream?
    var socket: Socket?
    const buffer: Deque<Rows<int>>

    ghost predicate Valid()
      reads this, buffer
    {
      buffer.maxlen == CAPACITY && buffer.Valid() && ReceiverPro.StereoBlocks(buffer.items)
    }

    /** `__init__`: stopped, no stream, no socket, an empty buffer of 50
        blocks. */
    constructor ()
      ensures Valid() && !isRunning && !reconnectEnabled
      ensures stream == null && socket == null && buffer.items == []
    {
      isRunning := false;
      reconnectEnabled := false;
      stream := null;
      socket := null;
      buffer := new Deque(CAPACITY);
    }

    /** `start_receiver`: both flags raised and a two-channel output
        stream opened and started. */
    method StartReceiver()
      requires Valid()
      modifies this
      ensures Valid() && isRunning && reconnectEnabled && fresh(stream) && socket == old(socket)
    {
      isRunning := true;
      reconnectEnabled := true;
      stream := new DeviceStream();
    }

    /** `self.audio_buffer.append(audio_array)`. */
    method BufferBlock(b: Rows<int>)
      requires Valid() && HasWidth(b, WIRE_CHANNELS) && RowsInt16(b)
      modifies buffer
      ensures Valid() && buffer.items == Append(old(buffer.items), b, CAPACITY)
    {
      ReceiverPro.BlocksAppend(buffer.items, b, CAPACITY);
      buffer.Append(b);
    }

    /** One pass of the inner `while self.is_running` loop: the frame is
        read and its block buffered; `more` is false where the pass leaves
        the loop. */
    method ReadPass(sock: Socket) returns (more: bool)
      requires Valid() && isRunning
      modifies buffer, sock
      ensures Valid() && sock.closed == old(sock.closed)
      ensures var r := ReadBlock(old(sock.inbox));
              (more <==> r.Block?) &&
              (r.Block? ==> sock.inbox == r.rest && buffer.items == Append(old(buffer.items), r.rows, CAPACITY)) &&
              (r.End? ==> buffer.items == old(buffer.items))
    {
      var frame := RecvLengthFrame(sock, isRunning);
      if frame.None? {
        return false;
      }
      var block := ParseBlock(frame.value, WIRE_CHANNELS);
      if block.None? {
        // numpy raises: the connection is dropped
        return false;
      }
      BufferBlock(block.value);
      more := true;
    }

    /** The inner loop of `tcp_receiver_thread` on one connection: the
        buffer ends as if every block the connection delivers had been
        appended in order. */
    method ReadConnection(sock: Socket)
      requires Valid()
      modifies buffer, sock
      ensures Valid() && sock.closed == old(sock.closed)
      ensures isRunning ==> buffer.items == Extend(old(buffer.items), SessionBlocks(old(sock.inbox)), CAPACITY)
      ensures !isRunning ==> buffer.items == old(buffer.items)
    {
      ghost var goal := Extend(buffer.items, SessionBlocks(sock.inbox), CAPACITY);
      while isRunning
        invariant Valid() && sock.closed == old(sock.closed)
        invariant Extend(buffer.items, SessionBlocks(sock.inbox), CAPACITY) == goal
        invariant !isRunning ==> buffer.items == old(buffer.items)
        decreases Size(sock.inbox)
      {
        ghost var r := ReadBlock(sock.inbox);
        ghost var q := buffer.items;
        var more := ReadPass(sock);
        if !more {
          assert Extend(q, [], CAPACITY) == q;
          break;
        }
        ExtendCons(q, r.rows, SessionBlocks(sock.inbox), CAPACITY);
      }
    }

    /** One attempt of the reconnect loop: a fresh socket, read until the
        connection ends (a refused connection reads nothing), then closed
        and dropped. */
    method ConnectAndRead(attempt: Option<seq<Arrival>>)
      requires Valid() && isRunning
      modifies this, buffer
      ensures Valid() && socket == null
      ensures isRunning == old(isRunning) && reconnectEnabled == old(reconnectEnabled) && stream == old(stream)
      ensures buffer.items ==
                Extend(old(buffer.items), if attempt.Some? then SessionBlocks(attempt.value) else [], CAPACITY)
    {
      var sock := new Socket(if attempt.Some? then attempt.value else []);
      socket := sock;
      if attempt.Some? {
        ReadConnection(sock);
      } else {
        assert Extend(buffer.items, [], CAPACITY) == buffer.items;
      }
      sock.Close();
      socket := null;
    }

    /** `tcp_receiver_thread`: while both flags are up, connect, read the
        connection, close and drop the socket, and wait 2 s before the next
        attempt. The buffer ends as if every block of every attempt had
        been appended in order. */
    method TcpReceiverThread(attempts: seq<Option<seq<Arrival>>>) returns (tries: nat, waits: nat)
      requires Valid()
      modifies this, buffer
      ensures Valid()
      ensures isRunning == old(isRunning) && reconnectEnabled == old(reconnectEnabled) && stream == old(stream)
      ensures !(isRunning && reconnectEnabled) ==>
                tries == 0 && waits == 0 && socket == old(socket) && buffer.items == old(buffer.items)
      ensures isRunning && reconnectEnabled ==>
                tries == |attempts| && waits == |attempts| && (tries > 0 ==> socket == null) &&
                buffer.items == Extend(old(buffer.items), AttemptsBlocks(attempts), CAPACITY)
    {
      tries, waits := 0, 0;
      if !(isRunning && reconnectEnabled) {
        return;
      }
      // only `stop_receiver` lowers the flags, so they stay up for the loop
      ghost var goal := Extend(buffer.items, AttemptsBlocks(attempts), CAPACITY);
      ghost var stream0 := stream;
      while tries < |attempts|
        invariant waits == tries && Reconnected(attempts, tries, goal, stream0)
        invariant tries == 0 ==> socket == old(socket)
        invariant tries > 0 ==> socket == null
      {
        ReconnectStep(attempts, tries, goal, stream0);
        waits := waits + 1;
        tries := tries + 1;
      }
      assert attempts[tries..] == [];
      assert Extend(buffer.items, [], CAPACITY) == buffer.items;
    }

    /** The reconnect loop after `tries` attempts: both flags up, the
        stream as it was, and the attempts still to come lead to `goal`. */
    ghost predicate Reconnected(attempts: seq<Option<seq<Arrival>>>, tries: nat, goal: seq<Rows<int>>,
                                stream0: DeviceStream?)
      reads this, buffer
    {
      tries <= |attempts| && Valid() && isRunning && reconnectEnabled && stream == stream0 &&
      Extend(buffer.items, AttemptsBlocks(attempts[tries..]), CAPACITY) == goal
    }

    /** One turn of the reconnect loop: the attempt made, then the wait. */
    method ReconnectStep(attempts: seq<Option<seq<Arrival>>>, tries: nat, ghost goal: seq<Rows<int>>,
                         ghost stream0: DeviceStream?)
      requires tries < |attempts| && Reconnected(attempts, tries, goal, stream0)
      modifies this, buffer
      ensures Reconnected(attempts, tries + 1, goal, stream0) && socket == null
    {
      var attempt := attempts[tries];
      ghost var got := if attempt.Some? then SessionBlocks(attempt.value) else [];
      ghost var later := AttemptsBlocks(attempts[tries + 1..]);
      assert attempts[tries..][1..] == attempts[tries + 1..];
      ghost var q := buffer.items;
      ConnectAndRead(attempt);
      ExtendTwice(q, got, later, CAPACITY);
    }

    /** One `recvfrom` of `udp_receiver_thread`: a datagram that reshapes
        to stereo frames is buffered; a timeout, a failing read or a
        datagram numpy rejects changes nothing. */
    method ReceiveDatagram(d: Datagram)
      requires Valid()
      modifies buffer
      ensures Valid() && buffer.items == Extend(old(buffer.items), DatagramBlock(d), CAPACITY)
    {
      if d.Delivered? {
        var block := ParseBlock(Received(d.data), WIRE_CHANNELS);
        if block.Some? {
          BufferBlock(block.value);
          return;
        }
      }
      assert Extend(buffer.items, [], CAPACITY) == buffer.items;
    }

    /** `udp_receiver_thread` over a run of datagrams, while the receiver
        runs. */
    method UdpReceiverThread(datagrams: seq<Datagram>)
      requires Valid()
      modifies buffer
      ensures Valid()
      ensures isRunning ==> buffer.items == Extend(old(buffer.items), DatagramsBlocks(datagrams), CAPACITY)
      ensures !isRunning ==> buffer.items == old(buffer.items)
    {
      if !isRunning {
        return;
      }
      // only `stop_receiver` lowers the flag, so it stays up for the loop
      var i := 0;
      ghost var goal := Extend(buffer.items, DatagramsBlocks(datagrams), CAPACITY);
      while i < |datagrams|
        invariant i <= |datagrams| && Valid()
        invariant Extend(buffer.items, DatagramsBlocks(datagrams[i..]), CAPACITY) == goal
      {
        ghost var q := buffer.items;
        assert datagrams[i..][1..] == datagrams[i + 1..];
        ReceiveDatagram(datagrams[i]);
        ExtendTwice(q, DatagramBlock(datagrams[i]), DatagramsBlocks(datagrams[i + 1..]), CAPACITY);
        i := i + 1;
      }
      assert datagrams[i..] == [];
      assert Extend(buffer.items, [], CAPACITY) == buffer.items;
    }

    /** `audio_output_callback` on the two-channel output: silence when
        stopped or when the buffer is empty; otherwise one block is popped
        and written to the front of `outdata`, cut to its frames or
        followed by zeros. */
    method AudioOutputCallback(outdata: array2<int>)
      requires Valid() && outdata.Length1 == WIRE_CHANNELS
      modifies outdata, buffer
      ensures Valid()
      ensures !isRunning || old(buffer.items) == [] ==>
                Grid(outdata) == Fit([], outdata.Length0, outdata.Length1, 0) && buffer.items == old(buffer.items)
      ensures isRunning && old(buffer.items) != [] ==>
                buffer.items == old(buffer.items)[1..] &&
                Grid(outdata) == Fit(old(buffer.items)[0], outdata.Length0, outdata.Length1, 0)
    {
      if !isRunning || buffer.items == [] {
        FillZeros(outdata, 0);
        return;
      }
      ReceiverPro.StereoBlocksSuffix(buffer.items, 1);
      var chunk := buffer.PopLeft();
      FillFrom(outdata, chunk, 0);
    }

    /** `stop_receiver`: both flags down, the output stream and the socket
        closed and dropped if present, the buffer emptied. */
    method StopReceiver()
      requires Valid()
      modifies this, buffer, stream, socket
      ensures Valid()
      ensures !isRunning && !reconnectEnabled && stream == null && socket == null && buffer.items == []
      ensures old(stream) != null ==> old(stream).closed && !old(stream).active
      ensures old(socket) != null ==> old(socket).closed
    {
      isRunning := false;
      reconnectEnabled := false;
      if stream != null {
        stream.StopAndClose();
        stream := null;
      }
      if socket != null {
        socket.Close();
        socket := null;
      }
      buffer.Clear();
    }
  }
}
