/** The pro sender: each input block is run through the processing chain,
    serialised, FEC-encoded and encrypted as switched, and sent under the
    running sequence number, over TCP as `seq ++ len ++ payload` and over
    UDP as `seq ++ payload`. The random IV, the outcome of every send and
    `time.time()` are inputs; threads and the GUI are left out. */
module SenderPro {
  import opened Common
  import opened Pcm
  import opened Encryption
  import opened Monitoring
  import opened AudioProcessing
  import opened Transport
  import opened Wire
  import opened ReceiverPro

  /** The channels the input stream is opened with. */
  function InputChannels(mpx: bool): (n: nat)
    ensures n > 0
  {
    if mpx then 1 else 2
  }

  /** The sequence number after a callback has packed `n`: one more, but
      `struct.pack('!I', 2**32)` raises before the increment, so the
      counter stops there and never wraps. */
  function NextSequence(n: int): (r: int)
    requires 0 <= n <= U32_LIMIT
    ensures 0 <= r <= U32_LIMIT
    ensures n < U32_LIMIT ==> r == n + 1
    ensures n == U32_LIMIT ==> r == n
  {
    if n < U32_LIMIT then n + 1 else n
  }

  /** The packet a callback frames: `seq ++ len ++ payload` over TCP,
      `seq ++ payload` over UDP. */
  function Framed(tcp: bool, sequence: int, payload: Bytes): (p: Option<Bytes>)
    ensures p.Some? <==> 0 <= sequence < U32_LIMIT && (tcp ==> |payload| < U32_LIMIT)
    ensures p.Some? ==> |p.value| >= 4 + |payload| && UnpackU32(p.value[..4]) == Some(sequence)
    ensures p.Some? ==> p.value[|p.value| - |payload|..] == payload
  {
    if tcp then TcpPacket(sequence, payload) else UdpPacket(sequence, payload)
  }

  class MpxSenderPro {
    var isRunning: bool
    var isMpxMode: bool
    /** The encryption and FEC check boxes, read on every block. */
    var encryptOn: bool
    var fecOn: bool
    var fec: FecEncoder
    var sequenceNumber: int
    var stream: DeviceStream?
    /** The listening socket (TCP) or the connected datagram socket (UDP). */
    var socketObj: Sink?
    var clientSocket: Sink?
    var processor: AudioProcessor
    const encryption: AudioEncryption
    const monitor: StreamMonitor
    const fft: FFTAnalyzer

    ghost predicate Valid()
      reads this, encryption, monitor, fft, processor
    {
      encryption.Valid() && monitor.Valid() && fft.Valid() && processor.Valid() &&
      0 <= sequenceNumber <= U32_LIMIT
    }

    /** The fields the callbacks read but never write. */
    ghost function Settings(): (bool, bool, bool, bool, FecEncoder, DeviceStream?, Sink?, Sink?, AudioProcessor)
      reads this
    {
      (isRunning, isMpxMode, encryptOn, fecOn, fec, stream, socketObj, clientSocket, processor)
    }

    /** The monitor fields sending leaves alone. */
    ghost function ReceiveSide(): (nat, int, nat, seq<real>, seq<real>, Option<real>, int)
      reads monitor
    {
      (monitor.packetsReceived, monitor.bytesReceived, monitor.packetsLost, monitor.latencySamples,
       monitor.qualitySamples, monitor.startTime, monitor.lastSequence)
    }

    /** `__init__`: stopped, sequence 0, encryption off, the default FEC
        encoder (redundancy 2); the primitives and the AGC coefficients for
        the default sample rate are parameters. */
    constructor (aes: (Key, Block16) -> Block16, pbkdf2: (string, Bytes, nat, nat) -> Key,
                 md5: Bytes -> Block16, binDb: (seq<real>, nat) -> real, attack: real, release: real)
      requires Coefficients(attack, release)
      ensures Valid()
      ensures !isRunning && !isMpxMode && !encryptOn && !fecOn && sequenceNumber == 0
      ensures stream == null && socketObj == null && clientSocket == null
      ensures !encryption.enabled && fec == FecEncoder(FEC_REDUNDANCY, md5)
      ensures monitor.Initial() && fft.buffer == [] && fft.fftSize == FFT_SIZE
    {
      isRunning := false;
      isMpxMode := false;
      encryptOn := false;
      fecOn := false;
      fec := FecEncoder(FEC_REDUNDANCY, md5);
      sequenceNumber := 0;
      stream := null;
      socketObj := null;
      clientSocket := null;
      processor := new AudioProcessor(DEFAULT_SAMPLERATE, attack, release);
      encryption := new AudioEncryption(aes, pbkdf2, None);
      monitor := new StreamMonitor();
      fft := new FFTAnalyzer(DEFAULT_SAMPLERATE, FFT_SIZE, binDb);
    }

    /** `start_sender` up to the thread it launches: the key and the FEC
        encoder from the check boxes, the flag raised, the sequence reset
        to 0 and the monitor started at `now`. */
    method StartSender(encrypt: bool, password: string, useFec: bool, now: real)
      requires Valid()
      modifies this, encryption, monitor
      ensures Valid() && isRunning && sequenceNumber == 0
      ensures encryptOn == encrypt && fecOn == useFec
      ensures fec == if useFec then FecEncoder(FEC_REDUNDANCY, old(fec).md5) else old(fec)
      ensures encrypt && password != "" ==>
                encryption.enabled && encryption.key == Some(encryption.pbkdf2(password, SALT, KDF_ITERATIONS, KEY_LEN))
      ensures !(encrypt && password != "") ==>
                encryption.enabled == old(encryption.enabled) && encryption.key == old(encryption.key)
      ensures monitor.startTime == Some(now)
      ensures monitor.packetsSent == old(monitor.packetsSent) && monitor.bytesSent == old(monitor.bytesSent)
      ensures monitor.packetsReceived == old(monitor.packetsReceived) && monitor.bytesReceived == old(monitor.bytesReceived)
      ensures monitor.packetsLost == old(monitor.packetsLost) && monitor.lastSequence == old(monitor.lastSequence)
      ensures monitor.latencySamples == old(monitor.latencySamples) && monitor.qualitySamples == old(monitor.qualitySamples)
      ensures stream == old(stream) && socketObj == old(socketObj) && clientSocket == old(clientSocket)
      ensures processor == old(processor) && isMpxMode == old(isMpxMode)
    {
      if encrypt && password != "" {
        encryption.SetPassword(password);
      }
      if useFec {
        fec := FecEncoder(FEC_REDUNDANCY, fec.md5);
      }
      encryptOn := encrypt;
      fecOn := useFec;
      isRunning := true;
      sequenceNumber := 0;
      monitor.Start(now);
    }

    /** `tcp_sender_thread`: listen, accept until a client connects, then
        open the input stream; a failed accept ends the thread. */
    method TcpSenderThread(accepts: seq<AcceptOutcome>, mpx: bool, agc: bool, limiter: bool, samplerate: int,
                           attack: real, release: real)
      requires Valid() && Coefficients(attack, release)
      modifies this
      ensures Valid() && isRunning == old(isRunning) && fresh(socketObj)
      ensures !socketObj.closed && socketObj.sent == []
      ensures sequenceNumber == old(sequenceNumber)
      ensures encryptOn == old(encryptOn) && fecOn == old(fecOn) && fec == old(fec)
      ensures isRunning && FirstConnection(accepts) ==>
                fresh(clientSocket) && !clientSocket.closed && clientSocket.sent == [] && fresh(stream) && fresh(processor) && isMpxMode == mpx &&
                processor.agcEnabled == agc && processor.limiterEnabled == limiter && processor.currentGain == 1.0
      ensures !(isRunning && FirstConnection(accepts)) ==>
                stream == old(stream) && clientSocket == old(clientSocket) && processor == old(processor) &&
                isMpxMode == old(isMpxMode)
    {
      socketObj := new Sink();
      var connected := AcceptLoop(accepts, isRunning);
      if connected {
        clientSocket := new Sink();
        StartAudioStream(mpx, agc, limiter, samplerate, attack, release);
      }
    }

    /** `udp_sender_thread`: a connected datagram socket, then the input
        stream. */
    method UdpSenderThread(mpx: bool, agc: bool, limiter: bool, samplerate: int, attack: real, release: real)
      requires Valid() && Coefficients(attack, release)
      modifies this
      ensures Valid() && isRunning == old(isRunning) && sequenceNumber == old(sequenceNumber)
      ensures fresh(socketObj) && fresh(stream) && fresh(processor) && clientSocket == old(clientSocket)
      ensures !socketObj.closed && socketObj.sent == []
      ensures encryptOn == old(encryptOn) && fecOn == old(fecOn) && fec == old(fec)
      ensures isMpxMode == mpx && processor.agcEnabled == agc && processor.limiterEnabled == limiter
    {
      socketObj := new Sink();
      StartAudioStream(mpx, agc, limiter, samplerate, attack, release);
    }

    /** `start_audio_stream`: a fresh processor for `samplerate` with the
        two switches, the mode, and an input stream of one channel in MPX
        mode and two otherwise. */
    method StartAudioStream(mpx: bool, agc: bool, limiter: bool, samplerate: int, attack: real, release: real)
      requires Valid() && Coefficients(attack, release)
      modifies this
      ensures Valid() && fresh(processor) && fresh(stream) && isMpxMode == mpx
      ensures processor.agcEnabled == agc && processor.limiterEnabled == limiter
      ensures processor.currentGain == 1.0 && processor.samplerate == samplerate
      ensures isRunning == old(isRunning) && sequenceNumber == old(sequenceNumber)
      ensures socketObj == old(socketObj) && clientSocket == old(clientSocket)
      ensures encryptOn == old(encryptOn) && fecOn == old(fecOn) && fec == old(fec)
    {
      processor := NewProcessor(samplerate, attack, release, agc, limiter);
      isMpxMode := mpx;
      stream := new DeviceStream();
    }

    /** `tcp_audio_callback` on an input block: nothing while stopped or
        unconnected; otherwise the block is processed (the AGC gain moves
        on whatever follows), the sequence number is packed and advanced,
        and the `seq ++ len ++ payload` packet is sent. Packing and sending
        errors are swallowed; only a packet that went out is credited to
        the monitor (with the payload's length) and fed to the FFT. */
    method TcpAudioCallback(indata: Rows<int>, iv: Block16, ok: bool)
      requires Valid() && indata != [] && HasWidth(indata, InputChannels(isMpxMode))
      modifies this, processor, monitor, fft, clientSocket
      ensures Valid() && Settings() == old(Settings()) && ReceiveSide() == old(ReceiveSide())
      ensures !isRunning || clientSocket == null ==>
                sequenceNumber == old(sequenceNumber) && processor.currentGain == old(processor.currentGain) &&
                monitor.packetsSent == old(monitor.packetsSent) && fft.buffer == old(fft.buffer)
      ensures processor.agcEnabled == old(processor.agcEnabled) && processor.limiterEnabled == old(processor.limiterEnabled)
      ensures isRunning && clientSocket != null ==>
                processor.currentGain ==
                  if old(processor.agcEnabled)
                  then FinalGain(processor.attackCoef, processor.releaseCoef, old(processor.currentGain), ToReal(indata))
                  else old(processor.currentGain)
      ensures isRunning && clientSocket != null ==>
                var out := Processed(processor.agcEnabled, processor.limiterEnabled, processor.attackCoef,
                                     processor.releaseCoef, old(processor.currentGain), indata);
                Transmitted(old(clientSocket.sent), clientSocket.sent,
                            Framed(true, old(sequenceNumber), WirePayload(ToBytes(out), fecOn, fec, encryptOn, encryption, iv)),
                            out, old(sequenceNumber), old(monitor.packetsSent), old(monitor.bytesSent), old(fft.buffer),
                            WirePayload(ToBytes(out), fecOn, fec, encryptOn, encryption, iv))
    {
      if !isRunning || clientSocket == null {
        return;
      }
      var out := processor.Process(indata);
      var payload := WirePayload(ToBytes(out), fecOn, fec, encryptOn, encryption, iv);
      Transmit(clientSocket, true, out, payload, ok);
    }

    /** `udp_audio_callback` on an input block: as the TCP callback, with
        the `seq ++ payload` datagram sent on the datagram socket. */
    method UdpAudioCallback(indata: Rows<int>, iv: Block16, ok: bool)
      requires Valid() && indata != [] && HasWidth(indata, InputChannels(isMpxMode))
      modifies this, processor, monitor, fft, socketObj
      ensures Valid() && Settings() == old(Settings()) && ReceiveSide() == old(ReceiveSide())
      ensures !isRunning || socketObj == null ==>
                sequenceNumber == old(sequenceNumber) && processor.currentGain == old(processor.currentGain) &&
                monitor.packetsSent == old(monitor.packetsSent) && fft.buffer == old(fft.buffer)
      ensures processor.agcEnabled == old(processor.agcEnabled) && processor.limiterEnabled == old(processor.limiterEnabled)
      ensures isRunning && socketObj != null ==>
                processor.currentGain ==
                  if old(processor.agcEnabled)
                  then FinalGain(processor.attackCoef, processor.releaseCoef, old(processor.currentGain), ToReal(indata))
                  else old(processor.currentGain)
      ensures isRunning && socketObj != null ==>
                var out := Processed(processor.agcEnabled, processor.limiterEnabled, processor.attackCoef,
                                     processor.releaseCoef, old(processor.currentGain), indata);
                Transmitted(old(socketObj.sent), socketObj.sent,
                            Framed(false, old(sequenceNumber), WirePayload(ToBytes(out), fecOn, fec, encryptOn, encryption, iv)),
                            out, old(sequenceNumber), old(monitor.packetsSent), old(monitor.bytesSent), old(fft.buffer),
                            WirePayload(ToBytes(out), fecOn, fec, encryptOn, encryption, iv))
    {
      if !isRunning || socketObj == null {
        return;
      }
      var out := processor.Process(indata);
      var payload := WirePayload(ToBytes(out), fecOn, fec, encryptOn, encryption, iv);
      Transmit(socketObj, false, out, payload, ok);
    }

    /** The state a callback leaves once its packet `packet` is framed
        (None where `struct.pack` raised): the sequence number advanced
        unless it was already 2^32; the packet on the socket when it was
        framed and the send went through; then, and only then, the monitor
        credited with the payload and the block's channel 0 in the FFT
        window. */
    ghost predicate Transmitted(sent0: seq<Bytes>, sent: seq<Bytes>, packet: Option<Bytes>, out: Rows<int>,
                                seq0: int, packets0: nat, bytes0: int, window0: seq<real>, payload: Bytes)
      reads this, monitor, fft
      requires 0 <= seq0 <= U32_LIMIT
    {
      sequenceNumber == NextSequence(seq0) &&
      (packet.Some? && sent == sent0 + [packet.value] ==>
         monitor.packetsSent == packets0 + 1 && monitor.bytesSent == bytes0 + |payload| &&
         fft.buffer == LastN(window0 + Channel0(out), fft.fftSize)) &&
      (sent == sent0 ==>
         monitor.packetsSent == packets0 && monitor.bytesSent == bytes0 && fft.buffer == window0) &&
      (sent == sent0 || (packet.Some? && sent == sent0 + [packet.value]))
    }

    /** The end of both callbacks: advance the sequence number once the
        header is packed, send, and on success credit the monitor and feed
        the FFT. */
    method Transmit(sock: Sink, tcp: bool, out: Rows<int>, payload: Bytes, ok: bool)
      requires Valid() && HasWidth(out, InputChannels(isMpxMode))
      modifies this, monitor, fft, sock
      ensures Valid() && Settings() == old(Settings()) && ReceiveSide() == old(ReceiveSide())
      ensures Transmitted(old(sock.sent), sock.sent, Framed(tcp, old(sequenceNumber), payload), out,
                          old(sequenceNumber), old(monitor.packetsSent), old(monitor.bytesSent), old(fft.buffer),
                          payload)
      ensures sock.sent == old(sock.sent) + (var p := Framed(tcp, old(sequenceNumber), payload);
                                              if p.Some? && ok && !old(sock.closed) then [p.value] else [])
      ensures sock.closed == old(sock.closed)
    {
      var packet := Framed(tcp, sequenceNumber, payload);
      sequenceNumber := NextSequence(sequenceNumber);
      if packet.None? {
        // struct.pack raises (the sequence header at 2^32, or the length)
        return;
      }
      var done := sock.Send(packet.value, ok);
      if !done {
        return;
      }
      monitor.RecordPacketSent(|payload|);
      fft.AddSamples(AsAudio(out, InputChannels(isMpxMode)));
    }

    /** `stop_sender`: the flag down; the stream, the client socket and the
        socket each closed and dropped if present, the monitor reset.
        Repeating it closes nothing more. */
    method StopSender()
      modifies this, stream, clientSocket, socketObj, monitor
      ensures !isRunning && stream == null && clientSocket == null && socketObj == null
      ensures monitor.Valid() && monitor.Initial()
      ensures old(stream) != null ==> old(stream).closed && !old(stream).active
      ensures old(clientSocket) != null ==> old(clientSocket).closed
      ensures old(socketObj) != null ==> old(socketObj).closed
      ensures sequenceNumber == old(sequenceNumber) && processor == old(processor)
      ensures encryptOn == old(encryptOn) && fecOn == old(fecOn) && fec == old(fec) && isMpxMode == old(isMpxMode)
    {
      isRunning := false;
      if stream != null {
        stream.StopAndClose();
        stream := null;
      }
      if clientSocket != null {
        clientSocket.Close();
        clientSocket := null;
      }
      if socketObj != null {
        socketObj.Close();
        socketObj := null;
      }
      monitor.Reset();
    }
  }

  /** A TCP connection that carries the stream for `blocks` and then takes
      the next callback's packet carries the stream for one block more:
      what the callbacks write is what the pro receiver's end-to-end lemma
      reads. */
  lemma {:induction false} SentStreamSnoc(first: nat, blocks: seq<Rows<int>>, ivs: seq<Block16>, b: Rows<int>,
                                         iv: Block16, next: nat, fecOn: bool, fec: FecEncoder, encryptOn: bool,
                                         enc: AudioEncryption)
    requires |ivs| == |blocks| && next == first + |blocks|
    ensures SentStream(first, blocks + [b], ivs + [iv], fecOn, fec, encryptOn, enc) ==
              SentStream(first, blocks, ivs, fecOn, fec, encryptOn, enc) +
              PacketBytes(next, b, iv, fecOn, fec, encryptOn, enc)
    decreases |blocks|
  {
    if blocks == [] {
      assert [b][1..] == [] && [iv][1..] == [];
    } else {
      SentStreamSnoc(first + 1, blocks[1..], ivs[1..], b, iv, next, fecOn, fec, encryptOn, enc);
      SentStreamSnocStep(first, blocks, ivs, b, iv, next, fecOn, fec, encryptOn, enc);
    }
  }

  /** The inductive step of `SentStreamSnoc`. */
  lemma SentStreamSnocStep(first: nat, blocks: seq<Rows<int>>, ivs: seq<Block16>, b: Rows<int>,
                           iv: Block16, next: nat, fecOn: bool, fec: FecEncoder, encryptOn: bool,
                           enc: AudioEncryption)
    requires |ivs| == |blocks| > 0
    requires SentStream(first + 1, blocks[1..] + [b], ivs[1..] + [iv], fecOn, fec, encryptOn, enc) ==
               SentStream(first + 1, blocks[1..], ivs[1..], fecOn, fec, encryptOn, enc) +
               PacketBytes(next, b, iv, fecOn, fec, encryptOn, enc)
    ensures SentStream(first, blocks + [b], ivs + [iv], fecOn, fec, encryptOn, enc) ==
              SentStream(first, blocks, ivs, fecOn, fec, encryptOn, enc) +
              PacketBytes(next, b, iv, fecOn, fec, encryptOn, enc)
  {
    var bs, vs := blocks + [b], ivs + [iv];
    assert bs[1..] == blocks[1..] + [b] && vs[1..] == ivs[1..] + [iv];
    var head := PacketBytes(first, blocks[0], ivs[0], fecOn, fec, encryptOn, enc);
    var mid := SentStream(first + 1, blocks[1..], ivs[1..], fecOn, fec, encryptOn, enc);
    var tail := PacketBytes(next, b, iv, fecOn, fec, encryptOn, enc);
    assert SentStream(first, bs, vs, fecOn, fec, encryptOn, enc) == head + (mid + tail);
    assert SentStream(first, blocks, ivs, fecOn, fec, encryptOn, enc) == head + mid;
    ConcatAssoc(head, mid, tail);
  }

  /** What a TCP callback sends for block `b`, where `struct.pack`
      succeeds, is that block's part of the stream. */
  lemma PacketBytesOfCallback(sequence: nat, b: Rows<int>, iv: Block16, fecOn: bool, fec: FecEncoder,
                              encryptOn: bool, enc: AudioEncryption)
    requires enc.Valid() && RowsInt16(b)
    requires TcpPacket(sequence, WirePayload(ToBytes(b), fecOn, fec, encryptOn, enc, iv)).Some?
    ensures PacketBytes(sequence, b, iv, fecOn, fec, encryptOn, enc) ==
              TcpPacket(sequence, WirePayload(ToBytes(b), fecOn, fec, encryptOn, enc, iv)).value
  {
  }
}
