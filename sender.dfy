/** The original sender: stereo int16 blocks from the input device sent
    raw, over TCP behind a 4-byte big-endian length, over UDP as the bare
    PCM bytes. Sockets are `Transport` sinks, the outcome of each send is
    an input, and the threads run to the end of their script. */
module Sender {
  import opened Common
  import opened Pcm
  import opened Transport
  import opened Wire

  class MpxSender {
    var isRunning: bool
    var stream: DeviceStream?
    /** The listening socket (TCP) or the connected datagram socket (UDP). */
    var socketObj: Sink?
    var clientSocket: Sink?

    /** `__init__`: stopped, no stream and no sockets. */
    constructor ()
      ensures !isRunning && stream == null && socketObj == null && clientSocket == null
    {
      isRunning := false;
      stream := null;
      socketObj := null;
      clientSocket := null;
    }

    /** `start_sender`: raise the flag, then run the thread for the chosen
        protocol. */
    method StartSender(tcp: bool, accepts: seq<AcceptOutcome>)
      modifies this
      ensures isRunning && fresh(socketObj) && !socketObj.closed && socketObj.sent == []
      ensures tcp && FirstConnection(accepts) ==>
                fresh(clientSocket) && !clientSocket.closed && clientSocket.sent == [] && fresh(stream)
      ensures tcp && !FirstConnection(accepts) ==> stream == old(stream) && clientSocket == old(clientSocket)
      ensures !tcp ==> fresh(stream) && clientSocket == old(clientSocket)
    {
      isRunning := true;
      if tcp {
        TcpSenderThread(accepts);
      } else {
        UdpSenderThread();
      }
    }

    /** `tcp_sender_thread`: listen, accept until a client connects, then
        open the input stream; a failed accept ends the thread. */
    method TcpSenderThread(accepts: seq<AcceptOutcome>)
      modifies this
      ensures isRunning == old(isRunning) && fresh(socketObj) && !socketObj.closed && socketObj.sent == []
      ensures isRunning && FirstConnection(accepts) ==>
                fresh(clientSocket) && !clientSocket.closed && clientSocket.sent == [] && fresh(stream)
      ensures !(isRunning && FirstConnection(accepts)) ==> stream == old(stream) && clientSocket == old(clientSocket)
    {
      socketObj := new Sink();
      var connected := AcceptLoop(accepts, isRunning);
      if connected {
        clientSocket := new Sink();
        stream := new DeviceStream();
      }
    }

    /** `udp_sender_thread`: a connected datagram socket and the input
        stream. */
    method UdpSenderThread()
      modifies this
      ensures isRunning == old(isRunning) && clientSocket == old(clientSocket)
      ensures fresh(socketObj) && !socketObj.closed && socketObj.sent == [] && fresh(stream)
    {
      socketObj := new Sink();
      stream := new DeviceStream();
    }

    /** `tcp_audio_callback`: the block's bytes behind their 4-byte length,
        through `sendall`; nothing while stopped or unconnected, and a
        failing send is swallowed. */
    method TcpAudioCallback(indata: Rows<int>, ok: bool)
      requires RowsInt16(indata)
      modifies clientSocket
      ensures !isRunning && clientSocket != null ==> clientSocket.sent == old(clientSocket.sent)
      ensures isRunning && clientSocket != null ==>
                var p := LengthPacket(ToBytes(indata));
                clientSocket.sent == if p.Some? && ok && !clientSocket.closed then old(clientSocket.sent) + [p.value]
                                     else old(clientSocket.sent)
      ensures clientSocket != null ==> clientSocket.closed == old(clientSocket.closed)
    {
      if !isRunning || clientSocket == null {
        return;
      }
      var audioBytes := ToBytes(indata);
      var packet := LengthPacket(audioBytes);
      if packet.None? {
        // struct.pack raises
        return;
      }
      var _ := clientSocket.Send(packet.value, ok);
    }

    /** `udp_audio_callback`: the block's bytes as one datagram. */
    method UdpAudioCallback(indata: Rows<int>, ok: bool)
      requires RowsInt16(indata)
      modifies socketObj
      ensures !isRunning && socketObj != null ==> socketObj.sent == old(socketObj.sent)
      ensures isRunning && socketObj != null ==>
                socketObj.sent == if ok && !socketObj.closed then old(socketObj.sent) + [ToBytes(indata)]
                                  else old(socketObj.sent)
      ensures socketObj != null ==> socketObj.closed == old(socketObj.closed)
    {
      if !isRunning || socketObj == null {
        return;
      }
      var _ := socketObj.Send(ToBytes(indata), ok);
    }

    /** `stop_sender`: the flag down; the stream, the client socket and the
        socket each closed and dropped if present. Repeating it closes
        nothing more. */
    method StopSender()
      modifies this, stream, clientSocket, socketObj
      ensures !isRunning && stream == null && clientSocket == null && socketObj == null
      ensures old(stream) != null ==> old(stream).closed && !old(stream).active
      ensures old(clientSocket) != null ==> old(clientSocket).closed
      ensures old(socketObj) != null ==> old(socketObj).closed
    {
      isRunning := false;
      if stream != null {
        stream.StopAndClose();
        stream := null;
      }
      if clientSocket != null {
        clientSocket.Close();
        clientSocket := null;
      }
      if socketObj != null {
        socketObj.Close();
        socketObj := null;
      }
    }
  }

  /** Blocks this sender frames and its receiver reads back: non-empty
      stereo int16 blocks whose byte count fits the 32-bit length. */
  ghost predicate Framable(blocks: seq<Rows<int>>)
    decreases |blocks|
  {
    blocks == [] ||
    (blocks[0] != [] && HasWidth(blocks[0], WIRE_CHANNELS) && RowsInt16(blocks[0]) &&
     LengthPacket(ToBytes(blocks[0])).Some? && Framable(blocks[1..]))
  }

  /** The bytes one TCP callback adds to the connection: the length packet
      of the block, or nothing where `struct.pack` raised (and nothing for
      a block that is not int16, which the input stream never delivers). */
  ghost function FramedBlock(b: Rows<int>): Bytes
  {
    if !RowsInt16(b) then []
    else
      var p := LengthPacket(ToBytes(b));
      if p.Some? then p.value else []
  }

  /** The byte stream the TCP callbacks write for a run of blocks. */
  ghost function LengthStream(blocks: seq<Rows<int>>): Bytes
    decreases |blocks|
  {
    if blocks == [] then [] else FramedBlock(blocks[0]) + LengthStream(blocks[1..])
  }

  lemma LengthStreamHead(blocks: seq<Rows<int>>)
    requires Framable(blocks) && blocks != []
    ensures LengthStream(blocks) == LengthPacket(ToBytes(blocks[0])).value + LengthStream(blocks[1..])
  {
  }

  /** A connection that carries the stream for `blocks` and then takes one
      more callback's packet carries the stream for one block more. */
  lemma {:induction false} LengthStreamSnoc(blocks: seq<Rows<int>>, b: Rows<int>)
    ensures LengthStream(blocks + [b]) == LengthStream(blocks) + FramedBlock(b)
    decreases |blocks|
  {
    if blocks == [] {
      assert [b][1..] == [];
    } else {
      LengthStreamSnoc(blocks[1..], b);
      var bs := blocks + [b];
      assert bs[1..] == blocks[1..] + [b];
      var head, mid, tail := FramedBlock(blocks[0]), LengthStream(blocks[1..]), FramedBlock(b);
      assert LengthStream(bs) == head + (mid + tail);
      ConcatAssoc(head, mid, tail);
    }
  }

  /** So the `sendall`s of the TCP callbacks, in order, put on the
      connection the stream of the blocks they were handed. */
  lemma CallbackExtendsStream(sent: seq<Bytes>, blocks: seq<Rows<int>>, b: Rows<int>)
    requires Joined(sent) == LengthStream(blocks)
    ensures Joined(sent + [FramedBlock(b)]) == LengthStream(blocks + [b])
  {
    var p := FramedBlock(b);
    calc {
      Joined(sent + [p]);
    == { JoinedSnoc(sent, p); }
      Joined(sent) + p;
    == { ConcatLeft(Joined(sent), LengthStream(blocks), p); }
      LengthStream(blocks) + p;
    == { LengthStreamSnoc(blocks, b); }
      LengthStream(blocks + [b]);
    }
  }

  /** What the receiver of the same program reads back from one TCP
      packet of this sender: the block's bytes, whatever the split. */
  lemma SentBlockReadsBack(inbox: seq<Arrival>, indata: Rows<int>, more: Bytes)
    requires RowsInt16(indata) && indata != [] && HasWidth(indata, WIRE_CHANNELS)
    requires LengthPacket(ToBytes(indata)).Some?
    requires Avail(inbox) == LengthPacket(ToBytes(indata)).value + more
    ensures NextLengthFrame(inbox).Some?
    ensures ParseBlock(NextLengthFrame(inbox).value.0, WIRE_CHANNELS) == Some(indata)
    ensures Avail(NextLengthFrame(inbox).value.1) == more
  {
    FlattenInt16(indata);
    FlattenLength(indata, WIRE_CHANNELS);
    MulSign(WIRE_CHANNELS, |indata|);
    NextLengthFrameOfPacket(inbox, ToBytes(indata), more);
    ParseToBytes(indata, WIRE_CHANNELS);
  }
}
