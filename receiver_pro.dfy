/** The pro receiver: the TCP reader (`seq ++ len ++ payload` frames read
    with `recv_exact`) inside its reconnect loop, the UDP reader, the
    decode path (decrypt, then FEC-validate, then reshape to stereo), the
    jitter buffer of 100 blocks, the playback callback that runs the
    processing chain, and `stop_receiver`. Threads and the GUI are left
    out: the network is given as socket scripts, one per connection
    attempt, and the receive loops run to the end of their script. */
module ReceiverPro {
  import opened Common
  import opened Pcm
  import opened Encryption
  import opened Monitoring
  import opened AudioUtils
  import opened AudioProcessing
  import opened Transport
  import opened Wire
  import opened Jitter
  import opened Playback

  const BUFFER_BLOCKS: nat := 100
  const DEFAULT_SAMPLERATE: int := 192000
  const FFT_SIZE: nat := 8192
  /** The FEC redundancy `start_receiver` installs when FEC is switched on. */
  const FEC_REDUNDANCY: int := 2

  // ---------------------------------------------------------------------
  // What delivering packets does to the receiver
  // ---------------------------------------------------------------------

  /** Stereo int16 blocks, as the jitter buffer holds them. */
  ghost predicate StereoBlocks(q: seq<Rows<int>>)
    decreases |q|
  {
    q == [] || (HasWidth(q[0], WIRE_CHANNELS) && RowsInt16(q[0]) && StereoBlocks(q[1..]))
  }

  lemma {:induction false} StereoBlocksSnoc(q: seq<Rows<int>>, b: Rows<int>)
    requires StereoBlocks(q) && HasWidth(b, WIRE_CHANNELS) && RowsInt16(b)
    ensures StereoBlocks(q + [b])
    decreases |q|
  {
    if q != [] {
      assert (q + [b])[1..] == q[1..] + [b];
      StereoBlocksSnoc(q[1..], b);
    }
  }

  lemma {:induction false} StereoBlocksSuffix(q: seq<Rows<int>>, k: nat)
    requires StereoBlocks(q) && k <= |q|
    ensures StereoBlocks(q[k..])
    decreases k
  {
    if k > 0 {
      assert q[k..] == q[1..][k - 1..];
      StereoBlocksSuffix(q[1..], k - 1);
    }
  }

  /** A deque of stereo blocks stays one when a stereo block is appended. */
  lemma BlocksAppend(q: seq<Rows<int>>, b: Rows<int>, maxlen: nat)
    requires StereoBlocks(q) && |q| <= maxlen && HasWidth(b, WIRE_CHANNELS) && RowsInt16(b)
    ensures StereoBlocks(Append(q, b, maxlen))
  {
    StereoBlocksSnoc(q, b);
    var s := q + [b];
    StereoBlocksSuffix(s, |s| - |Append(q, b, maxlen)|);
  }

  /** The part of the receiver a delivered packet changes: the jitter
      buffer, the monitor's receive counters and the FFT window. */
  datatype Intake = Intake(buffer: seq<Rows<int>>, received: nat, bytes: int, lost: nat,
                           lastSeq: int, window: seq<real>)

  /** Delivering one packet: the block joins the jitter buffer, the monitor
      counts it under its sequence number, its channel 0 joins the FFT
      window. */
  function Step(s: Intake, p: Packet, fftSize: nat): Intake
  {
    Intake(LastN(s.buffer + [p.block], BUFFER_BLOCKS), s.received + 1, s.bytes + |p.audio|,
           s.lost + GapLoss(s.lastSeq, p.sequence), p.sequence,
           LastN(s.window + Channel0(p.block), fftSize))
  }

  /** A state whose every field is what `Step` gives is that step. */
  lemma StepFields(s: Intake, p: Packet, fftSize: nat, t: Intake)
    requires t.buffer == LastN(s.buffer + [p.block], BUFFER_BLOCKS)
    requires t.received == s.received + 1 && t.bytes == s.bytes + |p.audio|
    requires t.lost == s.lost + GapLoss(s.lastSeq, p.sequence) && t.lastSeq == p.sequence
    requires t.window == LastN(s.window + Channel0(p.block), fftSize)
    ensures t == Step(s, p, fftSize)
  {
  }

  function Blocks(ps: seq<Packet>): (bs: seq<Rows<int>>)
    decreases |ps|
  {
    if ps == [] then [] else Blocks(ps[..|ps| - 1]) + [ps[|ps| - 1].block]
  }

  function Seqs(ps: seq<Packet>): (ns: seq<int>)
    decreases |ps|
  {
    if ps == [] then [] else Seqs(ps[..|ps| - 1]) + [ps[|ps| - 1].sequence]
  }

  function TotalBytes(ps: seq<Packet>): int
    decreases |ps|
  {
    if ps == [] then 0 else TotalBytes(ps[..|ps| - 1]) + |ps[|ps| - 1].audio|
  }

  function Channel0All(ps: seq<Packet>): seq<real>
    decreases |ps|
  {
    if ps == [] then [] else Channel0All(ps[..|ps| - 1]) + Channel0(ps[|ps| - 1].block)
  }

  /** Delivering a run of packets one at a time. */
  function Run(s: Intake, ps: seq<Packet>, fftSize: nat): Intake
    decreases |ps|
  {
    if ps == [] then s else Step(Run(s, ps[..|ps| - 1], fftSize), ps[|ps| - 1], fftSize)
  }

  /** Two runs delivered one after the other are one run. */
  lemma {:induction false} RunAppend(s: Intake, a: seq<Packet>, b: seq<Packet>, fftSize: nat)
    ensures Run(Run(s, a, fftSize), b, fftSize) == Run(s, a + b, fftSize)
    decreases |b|
  {
    if b == [] {
      assert a + b == a;
    } else {
      var b' := b[..|b| - 1];
      assert (a + b)[..|a + b| - 1] == a + b';
      assert (a + b)[|a + b| - 1] == b[|b| - 1];
      RunAppend(s, a, b', fftSize);
    }
  }

  lemma RunCons(s: Intake, p: Packet, ps: seq<Packet>, fftSize: nat)
    ensures Run(s, [p] + ps, fftSize) == Run(Step(s, p, fftSize), ps, fftSize)
  {
    RunAppend(s, [p], ps, fftSize);
    assert [p][..0] == [];
  }

  /** Delivering a run of packets, in closed form: the buffer keeps the
      last 100 blocks, the monitor counts every packet and the loss in its
      sequence numbers, the FFT window keeps the last samples. */
  function After(s: Intake, ps: seq<Packet>, fftSize: nat): Intake
  {
    Intake(LastN(s.buffer + Blocks(ps), BUFFER_BLOCKS), s.received + |ps|, s.bytes + TotalBytes(ps),
           s.lost + LossOver(s.lastSeq, Seqs(ps)), LastSeen(s.lastSeq, Seqs(ps)),
           LastN(s.window + Channel0All(ps), fftSize))
  }

  /** Keeping the last `n` of a growing sequence step by step. */
  lemma LastNSnoc<T>(base: seq<T>, xs: seq<T>, ys: seq<T>, n: nat)
    ensures LastN(base + (xs + ys), n) == LastN(LastN(base + xs, n) + ys, n)
  {
    LastNOfLastN(base + xs, ys, n);
    assert base + (xs + ys) == (base + xs) + ys;
  }

  lemma SeqsSnoc(last: int, ps: seq<Packet>, p: Packet)
    ensures Seqs(ps + [p]) == Seqs(ps) + [p.sequence]
    ensures LossOver(last, Seqs(ps + [p])) == LossOver(last, Seqs(ps)) + GapLoss(LastSeen(last, Seqs(ps)), p.sequence)
    ensures LastSeen(last, Seqs(ps + [p])) == p.sequence
  {
    assert (ps + [p])[..|ps|] == ps;
    LossOverAppend(last, Seqs(ps), [p.sequence]);
    assert [p.sequence][1..] == [];
  }

  lemma AfterSnoc(s: Intake, ps: seq<Packet>, p: Packet, fftSize: nat)
    ensures After(s, ps + [p], fftSize) == Step(After(s, ps, fftSize), p, fftSize)
  {
    var qs := ps + [p];
    assert qs[..|qs| - 1] == ps && qs[|qs| - 1] == p;
    LastNSnoc(s.buffer, Blocks(ps), [p.block], BUFFER_BLOCKS);
    LastNSnoc(s.window, Channel0All(ps), Channel0(p.block), fftSize);
    SeqsSnoc(s.lastSeq, ps, p);
  }

  /** Delivering packets one at a time from a state within the buffer and
      window bounds is the closed form. */
  lemma {:induction false} RunIsAfter(s: Intake, ps: seq<Packet>, fftSize: nat)
    requires |s.buffer| <= BUFFER_BLOCKS && |s.window| <= fftSize
    ensures Run(s, ps, fftSize) == After(s, ps, fftSize)
    decreases |ps|
  {
    if ps == [] {
      assert s.buffer + Blocks([]) == s.buffer;
      assert s.window + Channel0All([]) == s.window;
    } else {
      var ps' := ps[..|ps| - 1];
      RunIsAfter(s, ps', fftSize);
      assert ps == ps' + [ps[|ps| - 1]];
      AfterSnoc(s, ps', ps[|ps| - 1], fftSize);
    }
  }

  // ---------------------------------------------------------------------
  // What a connection and a run of datagrams deliver
  // ---------------------------------------------------------------------

  /** One pass of the TCP read loop: the connection ends (a read came
      back empty or an exception was raised), the frame is skipped (bad
      checksum), or a packet is decoded; with what is left to read. */
  datatype Read = Stop | Pass(rest: seq<Arrival>) | Got(packet: Packet, rest: seq<Arrival>)

  function ReadOne(inbox: seq<Arrival>, encryptOn: bool, enc: AudioEncryption,
                   fecOn: bool, fec: FecEncoder): (r: Read)
    reads enc
    requires enc.Valid()
    ensures !r.Stop? ==> Size(r.rest) < Size(inbox)
    ensures r.Got? ==> HasWidth(r.packet.block, WIRE_CHANNELS) && RowsInt16(r.packet.block)
    ensures r.Stop? <==> NextFrame(inbox).None? ||
                         DecodePayload(NextFrame(inbox).value.0.payload, encryptOn, enc, fecOn, fec).Raised?
  {
    match NextFrame(inbox)
    case None => Stop
    case Some((f, rest)) =>
      match DecodePayload(f.payload, encryptOn, enc, fecOn, fec)
      case Raised => Stop
      case Skipped => Pass(rest)
      case Accepted(audio, block) => Got(Packet(f.sequence, audio, block), rest)
  }

  /** The packets one TCP connection delivers: frames are read until a
      read comes back empty; a frame with a bad checksum is skipped; an
      exception (a payload shorter than the IV, a length that does not
      reshape to stereo) ends the connection. */
  function SessionPackets(inbox: seq<Arrival>, encryptOn: bool, enc: AudioEncryption,
                          fecOn: bool, fec: FecEncoder): (ps: seq<Packet>)
    reads enc
    requires enc.Valid()
    decreases Size(inbox)
  {
    match ReadOne(inbox, encryptOn, enc, fecOn, fec)
    case Stop => []
    case Pass(rest) => SessionPackets(rest, encryptOn, enc, fecOn, fec)
    case Got(p, rest) => [p] + SessionPackets(rest, encryptOn, enc, fecOn, fec)
  }

  /** The packets a run of connection attempts delivers, in order. */
  function AttemptsPackets(attempts: seq<Option<seq<Arrival>>>, encryptOn: bool, enc: AudioEncryption,
                           fecOn: bool, fec: FecEncoder): (ps: seq<Packet>)
    reads enc
    requires enc.Valid()
    decreases |attempts|
  {
    if attempts == [] then []
    else
      (if attempts[0].Some? then SessionPackets(attempts[0].value, encryptOn, enc, fecOn, fec) else []) +
      AttemptsPackets(attempts[1..], encryptOn, enc, fecOn, fec)
  }

  /** What one `recvfrom` yields to the buffer: the packet it decodes to,
      if any. */
  function DatagramDecoded(d: Datagram, encryptOn: bool, enc: AudioEncryption,
                           fecOn: bool, fec: FecEncoder): (ps: seq<Packet>)
    reads enc
    requires enc.Valid()
    ensures |ps| <= 1
    ensures forall k :: 0 <= k < |ps| ==> HasWidth(ps[k].block, WIRE_CHANNELS) && RowsInt16(ps[k].block)
    ensures !d.Delivered? ==> ps == []
  {
    if d.Delivered? then
      match DecodeDatagram(Received(d.data), encryptOn, enc, fecOn, fec)
      case Some(p) => [p]
      case None => []
    else []
  }

  /** The packets a run of datagrams delivers: timeouts and failing reads
      are passed over, and so is every datagram that does not decode. */
  function DatagramPackets(ds: seq<Datagram>, encryptOn: bool, enc: AudioEncryption,
                           fecOn: bool, fec: FecEncoder): (ps: seq<Packet>)
    reads enc
    requires enc.Valid()
    decreases |ds|
  {
    if ds == [] then []
    else DatagramDecoded(ds[0], encryptOn, enc, fecOn, fec) + DatagramPackets(ds[1..], encryptOn, enc, fecOn, fec)
  }

  /** A run of int16 blocks. */
  ghost predicate Int16Blocks(blocks: seq<Rows<int>>)
    decreases |blocks|
  {
    blocks == [] || (RowsInt16(blocks[0]) && Int16Blocks(blocks[1..]))
  }

  /** A run of blocks the pro sender frames without `struct.pack`
      raising: each block non-empty, stereo and int16, its payload within
      the 32-bit length field, every sequence number within 32 bits. */
  ghost predicate Sendable(first: nat, blocks: seq<Rows<int>>)
    decreases |blocks|
  {
    blocks == [] ||
    (first < U32_LIMIT && blocks[0] != [] && HasWidth(blocks[0], WIRE_CHANNELS) && RowsInt16(blocks[0]) &&
     2 * |Flatten(blocks[0])| + CHECKSUM_LEN + IV_LEN < U32_LIMIT && Sendable(first + 1, blocks[1..]))
  }

  lemma {:induction false} SendableInt16(first: nat, blocks: seq<Rows<int>>)
    requires Sendable(first, blocks)
    ensures Int16Blocks(blocks)
    decreases |blocks|
  {
    if blocks != [] {
      SendableInt16(first + 1, blocks[1..]);
    }
  }

  /** The bytes one block adds to a TCP connection: its packet, or nothing
      where `struct.pack` raised (and nothing for a block that is not
      int16 or an encryption object that is not set up, which the sender
      never hands over). */
  ghost function PacketBytes(sequence: nat, b: Rows<int>, iv: Block16, fecOn: bool, fec: FecEncoder, encryptOn: bool,
                             enc: AudioEncryption): Bytes
    reads enc
  {
    if !(enc.Valid() && RowsInt16(b)) then []
    else
      var p := TcpPacket(sequence, WirePayload(ToBytes(b), fecOn, fec, encryptOn, enc, iv));
      if p.Some? then p.value else []
  }

  /** The byte stream the pro sender writes for a run of blocks: one TCP
      packet per block, consecutive sequence numbers from `first`. */
  ghost function SentStream(first: nat, blocks: seq<Rows<int>>, ivs: seq<Block16>, fecOn: bool, fec: FecEncoder,
                      encryptOn: bool, enc: AudioEncryption): Bytes
    reads enc
    requires |ivs| == |blocks|
    decreases |blocks|
  {
    if blocks == [] then []
    else
      PacketBytes(first, blocks[0], ivs[0], fecOn, fec, encryptOn, enc) +
      SentStream(first + 1, blocks[1..], ivs[1..], fecOn, fec, encryptOn, enc)
  }

  lemma SentStreamHead(first: nat, blocks: seq<Rows<int>>, ivs: seq<Block16>, fecOn: bool, fec: FecEncoder,
                       encryptOn: bool, enc: AudioEncryption)
    requires enc.Valid() && |ivs| == |blocks| > 0 && Sendable(first, blocks)
    requires Int16Blocks(blocks)
    ensures TcpPacket(first, WirePayload(ToBytes(blocks[0]), fecOn, fec, encryptOn, enc, ivs[0])).Some?
    ensures SentStream(first, blocks, ivs, fecOn, fec, encryptOn, enc) ==
              TcpPacket(first, WirePayload(ToBytes(blocks[0]), fecOn, fec, encryptOn, enc, ivs[0])).value +
              SentStream(first + 1, blocks[1..], ivs[1..], fecOn, fec, encryptOn, enc)
  {
    FlattenInt16(blocks[0]);
  }

  /** One pass of the TCP read loop over a packet the pro sender built
      from a non-empty stereo block decodes that block under its sequence
      number and leaves the stream just past the packet. */
  lemma ReadOneOfSent(inbox: seq<Arrival>, sequence: nat, rows: Rows<int>, iv: Block16, fecOn: bool, fec: FecEncoder,
                      encryptOn: bool, enc: AudioEncryption, more: Bytes)
    requires enc.Valid() && sequence < U32_LIMIT
    requires rows != [] && HasWidth(rows, WIRE_CHANNELS) && RowsInt16(rows)
    requires 2 * |Flatten(rows)| + CHECKSUM_LEN + IV_LEN < U32_LIMIT
    requires TcpPacket(sequence, WirePayload(ToBytes(rows), fecOn, fec, encryptOn, enc, iv)).Some?
    requires Avail(inbox) == TcpPacket(sequence, WirePayload(ToBytes(rows), fecOn, fec, encryptOn, enc, iv)).value + more
    ensures ReadOne(inbox, encryptOn, enc, fecOn, fec).Got?
    ensures ReadOne(inbox, encryptOn, enc, fecOn, fec).packet == Packet(sequence, ToBytes(rows), rows)
    ensures Avail(ReadOne(inbox, encryptOn, enc, fecOn, fec).rest) == more
  {
    var pcm := ToBytes(rows);
    FlattenInt16(rows);
    FlattenLength(rows, WIRE_CHANNELS);
    MulSign(WIRE_CHANNELS, |rows|);
    var w := WirePayload(pcm, fecOn, fec, encryptOn, enc, iv);
    assert w != [];
    NextFrameOfPacket(inbox, sequence, w, more);
    DecodeWirePayload(rows, fecOn, fec, encryptOn, enc, iv);
  }

  /** The packets a run of blocks stands for when it is sent with
      consecutive sequence numbers from `first`. */
  function SentPackets(first: nat, blocks: seq<Rows<int>>): (ps: seq<Packet>)
    requires Int16Blocks(blocks)
    ensures |ps| == |blocks|
    decreases |blocks|
  {
    if blocks == [] then []
    else [Packet(first, ToBytes(blocks[0]), blocks[0])] + SentPackets(first + 1, blocks[1..])
  }

  /** End to end over TCP: when a connection carries what the pro sender
      wrote for a run of non-empty stereo blocks and then closes, however
      the stream is segmented, a receiver configured like the sender
      delivers exactly those blocks, in order, under consecutive sequence
      numbers. */
  lemma {:induction false} SessionReadsSentStream(inbox: seq<Arrival>, first: nat, blocks: seq<Rows<int>>,
                                                  ivs: seq<Block16>, fecOn: bool, fec: FecEncoder,
                                                  encryptOn: bool, enc: AudioEncryption)
    requires enc.Valid() && |ivs| == |blocks| && Sendable(first, blocks) && Int16Blocks(blocks)
    requires Avail(inbox) == SentStream(first, blocks, ivs, fecOn, fec, encryptOn, enc)
    ensures SessionPackets(inbox, encryptOn, enc, fecOn, fec) == SentPackets(first, blocks)
    decreases |blocks|
  {
    if blocks == [] {
      TakeAvail(inbox, 4);
      assert NextFrame(inbox).None?;
    } else {
      var more := SentStream(first + 1, blocks[1..], ivs[1..], fecOn, fec, encryptOn, enc);
      SentStreamHead(first, blocks, ivs, fecOn, fec, encryptOn, enc);
      ReadOneOfSent(inbox, first, blocks[0], ivs[0], fecOn, fec, encryptOn, enc, more);
      var rest := ReadOne(inbox, encryptOn, enc, fecOn, fec).rest;
      SessionReadsSentStream(rest, first + 1, blocks[1..], ivs[1..], fecOn, fec, encryptOn, enc);
    }
  }

  /** The three `recv_exact` calls of the pro TCP read loop: sequence,
      length, payload. On a running receiver they read the next frame of
      the stream, and `None` where the loop breaks. */
  method RecvFrame(sock: Socket, running: bool) returns (f: Option<Frame>)
    requires running
    modifies sock
    ensures sock.closed == old(sock.closed)
    ensures NextFrame(old(sock.inbox)).None? ==> f.None?
    ensures NextFrame(old(sock.inbox)).Some? ==>
              f == Some(NextFrame(old(sock.inbox)).value.0) && sock.inbox == NextFrame(old(sock.inbox)).value.1
  {
    ghost var before := sock.inbox;
    TakeAvail(before, 4);
    var seqData := RecvExact(sock, running, 4);
    if seqData.None? {
      return None;
    }
    var sequence := UnpackU32(seqData.value).value;
    ghost var mid := sock.inbox;
    TakeAvail(mid, 4);
    var lengthData := RecvExact(sock, running, 4);
    if lengthData.None? {
      return None;
    }
    var length := UnpackU32(lengthData.value).value;
    var audioData := RecvExact(sock, running, length);
    if audioData.None? || audioData.value == [] {
      return None;
    }
    f := Some(Frame(sequence, audioData.value));
  }

  // ---------------------------------------------------------------------
  // The receiver
  // ---------------------------------------------------------------------

  class MpxReceiverPro {
    var isRunning: bool
    var reconnectEnabled: bool
    var isMpxMode: bool
    /** The encryption and FEC check boxes, read on every packet. */
    var encryptOn: bool
    var fecOn: bool
    var fec: FecEncoder
    var expectedSequence: int
    var socket: Socket?
    var stream: DeviceStream?
    var processor: AudioProcessor
    const buffer: Deque<Rows<int>>
    const encryption: AudioEncryption
    const monitor: StreamMonitor
    const fft: FFTAnalyzer

    ghost predicate Valid()
      reads this, buffer, encryption, monitor, fft, processor
    {
      buffer.maxlen == BUFFER_BLOCKS && buffer.Valid() && StereoBlocks(buffer.items) &&
      encryption.Valid() && monitor.Valid() && fft.Valid() && processor.Valid()
    }

    /** The receiving state a delivered packet changes. */
    ghost function Snapshot(): Intake
      reads buffer, monitor, fft
    {
      Intake(buffer.items, monitor.packetsReceived, monitor.bytesReceived, monitor.packetsLost,
             monitor.lastSequence, fft.buffer)
    }

    /** The monitor fields receiving leaves alone. */
    ghost function MonitorRest(): (nat, int, seq<real>, seq<real>, Option<real>)
      reads monitor
    {
      (monitor.packetsSent, monitor.bytesSent, monitor.latencySamples, monitor.qualitySamples, monitor.startTime)
    }

    /** `__init__`: stopped, an empty buffer of 100 blocks, encryption
        off, FEC at redundancy 2; the primitives and the AGC coefficients
        for the default sample rate are parameters. */
    constructor (aes: (Key, Block16) -> Block16, pbkdf2: (string, Bytes, nat, nat) -> Key,
                 md5: Bytes -> Block16, binDb: (seq<real>, nat) -> real, attack: real, release: real)
      requires Coefficients(attack, release)
      ensures Valid()
      ensures !isRunning && !reconnectEnabled && !isMpxMode && !encryptOn && !fecOn
      ensures buffer.items == [] && socket == null && stream == null && expectedSequence == 0
      ensures !encryption.enabled && fec == FecEncoder(FEC_REDUNDANCY, md5)
      ensures monitor.Initial() && fft.buffer == [] && fft.fftSize == FFT_SIZE
    {
      isRunning := false;
      reconnectEnabled := false;
      isMpxMode := false;
      encryptOn := false;
      fecOn := false;
      fec := FecEncoder(FEC_REDUNDANCY, md5);
      expectedSequence := 0;
      socket := null;
      stream := null;
      processor := new AudioProcessor(DEFAULT_SAMPLERATE, attack, release);
      buffer := new Deque(BUFFER_BLOCKS);
      encryption := new AudioEncryption(aes, pbkdf2, None);
      monitor := new StreamMonitor();
      fft := new FFTAnalyzer(DEFAULT_SAMPLERATE, FFT_SIZE, binDb);
    }

    /** `start_receiver`: key and FEC set up from the check boxes, both
        flags raised (reconnecting only with auto-reconnect), the monitor
        started at `now`, a fresh processor for `samplerate` (its AGC
        coefficients given), the output stream opened with one channel in
        MPX mode and two otherwise. */
    method StartReceiver(encrypt: bool, password: string, useFec: bool, autoReconnect: bool,
                         mpx: bool, agc: bool, limiter: bool, samplerate: int,
                         attack: real, release: real, now: real)
      requires Valid() && Coefficients(attack, release)
      modifies this, encryption, monitor
      ensures Valid() && fresh(processor) && fresh(stream)
      ensures isRunning && reconnectEnabled == autoReconnect && expectedSequence == 0
      ensures encryptOn == encrypt && fecOn == useFec && isMpxMode == mpx
      ensures fec == if useFec then FecEncoder(FEC_REDUNDANCY, old(fec).md5) else old(fec)
      ensures encrypt && password != "" ==>
                encryption.enabled && encryption.key == Some(encryption.pbkdf2(password, SALT, KDF_ITERATIONS, KEY_LEN))
      ensures !(encrypt && password != "") ==>
                encryption.enabled == old(encryption.enabled) && encryption.key == old(encryption.key)
      ensures processor.agcEnabled == agc && processor.limiterEnabled == limiter
      ensures processor.currentGain == 1.0 && processor.samplerate == samplerate
      ensures monitor.startTime == Some(now) && Snapshot() == old(Snapshot())
      ensures monitor.packetsSent == old(monitor.packetsSent) && monitor.bytesSent == old(monitor.bytesSent)
      ensures monitor.latencySamples == old(monitor.latencySamples) && monitor.qualitySamples == old(monitor.qualitySamples)
      ensures socket == old(socket)
    {
      SetUpSecurity(encrypt, password, useFec);
      isRunning := true;
      reconnectEnabled := autoReconnect;
      expectedSequence := 0;
      monitor.Start(now);
      OpenOutput(mpx, agc, limiter, samplerate, attack, release);
    }

    /** The processor and the output stream `start_receiver` sets up. */
    method OpenOutput(mpx: bool, agc: bool, limiter: bool, samplerate: int, attack: real, release: real)
      requires Valid() && Coefficients(attack, release)
      modifies this
      ensures Valid() && fresh(processor) && fresh(stream)
      ensures isMpxMode == mpx
      ensures processor.agcEnabled == agc && processor.limiterEnabled == limiter
      ensures processor.currentGain == 1.0 && processor.samplerate == samplerate
      ensures isRunning == old(isRunning) && reconnectEnabled == old(reconnectEnabled)
      ensures expectedSequence == old(expectedSequence) && socket == old(socket) && fec == old(fec)
      ensures encryptOn == old(encryptOn) && fecOn == old(fecOn)
    {
      processor := NewProcessor(samplerate, attack, release, agc, limiter);
      isMpxMode := mpx;
      stream := new DeviceStream();
    }

    /** The key and the FEC encoder `start_receiver` sets up from the
        check boxes. */
    method SetUpSecurity(encrypt: bool, password: string, useFec: bool)
      requires Valid()
      modifies this, encryption
      ensures Valid()
      ensures encryptOn == encrypt && fecOn == useFec
      ensures fec == if useFec then FecEncoder(FEC_REDUNDANCY, old(fec).md5) else old(fec)
      ensures encrypt && password != "" ==>
                encryption.enabled && encryption.key == Some(encryption.pbkdf2(password, SALT, KDF_ITERATIONS, KEY_LEN))
      ensures !(encrypt && password != "") ==>
                encryption.enabled == old(encryption.enabled) && encryption.key == old(encryption.key)
      ensures isRunning == old(isRunning) && reconnectEnabled == old(reconnectEnabled)
      ensures isMpxMode == old(isMpxMode) && expectedSequence == old(expectedSequence)
      ensures socket == old(socket) && stream == old(stream) && processor == old(processor)
    {
      if encrypt && password != "" {
        encryption.SetPassword(password);
      }
      if useFec {
        fec := FecEncoder(FEC_REDUNDANCY, fec.md5);
      }
      encryptOn := encrypt;
      fecOn := useFec;
    }

    /** What the receive loops do with a decoded packet. */
    method Deliver(p: Packet)
      requires Valid() && HasWidth(p.block, WIRE_CHANNELS) && RowsInt16(p.block)
      modifies buffer, monitor, fft
      ensures Valid()
      ensures Snapshot() == Step(old(Snapshot()), p, fft.fftSize)
      ensures MonitorRest() == old(MonitorRest())
    {
      ghost var s := Snapshot();
      AnalyzeBlock(p.block);
      monitor.RecordPacketReceived(|p.audio|, Some(p.sequence));
      BufferBlock(p.block);
      StepFields(s, p, fft.fftSize, Snapshot());
    }

    /** `self.audio_buffer.append(audio_data)`. */
    method BufferBlock(b: Rows<int>)
      requires buffer.maxlen == BUFFER_BLOCKS && buffer.Valid() && StereoBlocks(buffer.items)
      requires HasWidth(b, WIRE_CHANNELS) && RowsInt16(b)
      modifies buffer
      ensures buffer.Valid() && StereoBlocks(buffer.items)
      ensures buffer.items == LastN(old(buffer.items) + [b], BUFFER_BLOCKS)
    {
      BlocksAppend(buffer.items, b, BUFFER_BLOCKS);
      buffer.Append(b);
    }

    /** `self.fft_analyzer.add_samples(audio_data)` on the block as floats. */
    method AnalyzeBlock(b: Rows<int>)
      requires fft.Valid() && HasWidth(b, WIRE_CHANNELS)
      modifies fft
      ensures fft.Valid()
      ensures fft.buffer == LastN(old(fft.buffer) + Channel0(b), fft.fftSize)
    {
      var a := AsAudio(b, WIRE_CHANNELS);
      fft.AddSamples(a);
    }

    /** One pass of the inner `while self.is_running` loop of
        `tcp_receiver_thread`: `recv_exact` for the sequence, the length
        and the payload, then decrypt, FEC-check, reshape and deliver.
        `more` is false where the pass leaves the loop. */
    method ReadFrame(sock: Socket) returns (more: bool)
      requires Valid() && isRunning
      modifies buffer, monitor, fft, sock
      ensures Valid()
      ensures var r := ReadOne(old(sock.inbox), encryptOn, encryption, fecOn, fec);
              (more <==> !r.Stop?) &&
              (r.Stop? ==> Snapshot() == old(Snapshot())) &&
              (r.Pass? ==> sock.inbox == r.rest && Snapshot() == old(Snapshot())) &&
              (r.Got? ==> sock.inbox == r.rest && Snapshot() == Step(old(Snapshot()), r.packet, fft.fftSize))
      ensures MonitorRest() == old(MonitorRest()) && sock.closed == old(sock.closed)
    {
      var frame := RecvFrame(sock, isRunning);
      if frame.None? {
        return false;
      }
      more := HandleFrame(frame.value);
    }

    /** The rest of a pass once a frame is in: decrypt, FEC-check, reshape
        and deliver. `more` is false where an exception drops the
        connection. */
    method HandleFrame(f: Frame) returns (more: bool)
      requires Valid()
      modifies buffer, monitor, fft
      ensures Valid()
      ensures var d := DecodePayload(f.payload, encryptOn, encryption, fecOn, fec);
              (more <==> !d.Raised?) &&
              (d.Accepted? ==> Snapshot() == Step(old(Snapshot()), Packet(f.sequence, d.audio, d.block), fft.fftSize)) &&
              (!d.Accepted? ==> Snapshot() == old(Snapshot()))
      ensures MonitorRest() == old(MonitorRest())
    {
      var decrypted := if encryptOn then encryption.Decrypt(f.payload) else Some(f.payload);
      if decrypted.None? {
        // the cipher raises: the connection is dropped
        return false;
      }
      var checked := if fecOn then fec.Decode(decrypted.value) else (decrypted.value, true);
      if !checked.1 {
        return true;
      }
      var block := ParseBlock(checked.0, WIRE_CHANNELS);
      if block.None? {
        // numpy raises: the connection is dropped
        return false;
      }
      Deliver(Packet(f.sequence, checked.0, block.value));
      more := true;
    }

    /** The inner `while self.is_running` loop of `tcp_receiver_thread`
        on one connection. */
    method ReadConnection(sock: Socket)
      requires Valid()
      modifies buffer, monitor, fft, sock
      ensures Valid()
      ensures isRunning ==>
                Snapshot() == Run(old(Snapshot()), SessionPackets(old(sock.inbox), encryptOn, encryption, fecOn, fec),
                                  fft.fftSize)
      ensures !isRunning ==> Snapshot() == old(Snapshot())
      ensures MonitorRest() == old(MonitorRest()) && sock.closed == old(sock.closed)
    {
      ghost var goal := Run(Snapshot(), SessionPackets(sock.inbox, encryptOn, encryption, fecOn, fec), fft.fftSize);
      while isRunning
        invariant Valid()
        invariant !isRunning ==> Snapshot() == old(Snapshot())
        invariant Run(Snapshot(), SessionPackets(sock.inbox, encryptOn, encryption, fecOn, fec), fft.fftSize) == goal
        invariant MonitorRest() == old(MonitorRest()) && sock.closed == old(sock.closed)
        decreases Size(sock.inbox)
      {
        ghost var before := sock.inbox;
        ghost var r := ReadOne(before, encryptOn, encryption, fecOn, fec);
        ghost var s := Snapshot();
        var more := ReadFrame(sock);
        if !more {
          assert Snapshot() == goal;
          break;
        }
        if r.Got? {
          RunCons(s, r.packet, SessionPackets(sock.inbox, encryptOn, encryption, fecOn, fec), fft.fftSize);
        }
      }
    }

    /** `tcp_receiver_thread`: while both flags are up, connect (an
        attempt is a refused connection or the script of a connection),
        read it, close and drop the socket, and wait 2 s before the next
        attempt if both flags are still up. Returns the attempts made and
        the waits. */
    method TcpReceiverThread(attempts: seq<Option<seq<Arrival>>>) returns (tries: nat, waits: nat)
      requires Valid()
      modifies this, buffer, monitor, fft
      ensures Valid()
      ensures isRunning == old(isRunning) && reconnectEnabled == old(reconnectEnabled)
      ensures processor == old(processor) && stream == old(stream) && fec == old(fec)
      ensures encryptOn == old(encryptOn) && fecOn == old(fecOn) && isMpxMode == old(isMpxMode)
      // the loop runs only while both flags are up
      ensures !(isRunning && reconnectEnabled) ==>
                tries == 0 && waits == 0 && socket == old(socket) && Snapshot() == old(Snapshot())
      ensures isRunning && reconnectEnabled ==>
                tries == |attempts| && waits == |attempts| && (tries > 0 ==> socket == null) &&
                Snapshot() == Run(old(Snapshot()), AttemptsPackets(attempts, encryptOn, encryption, fecOn, fec),
                                  fft.fftSize)
      ensures MonitorRest() == old(MonitorRest()) && expectedSequence == old(expectedSequence)
    {
      tries, waits := 0, 0;
      if !(isRunning && reconnectEnabled) {
        return;
      }
      // only `stop_receiver` lowers the flags, so they stay up for the loop
      ghost var goal := Run(Snapshot(), AttemptsPackets(attempts, encryptOn, encryption, fecOn, fec), fft.fftSize);
      ghost var settings, rest := Settings(), MonitorRest();
      while tries < |attempts|
        invariant waits == tries && Reconnected(attempts, tries, goal, settings, rest)
        invariant tries == 0 ==> socket == old(socket)
        invariant tries > 0 ==> socket == null
        invariant expectedSequence == old(expectedSequence)
      {
        ReconnectStep(attempts, tries, goal, settings, rest);
        waits := waits + 1;
        tries := tries + 1;
      }
      assert attempts[tries..] == [];
    }

    /** The fields the receiving threads read but never write. */
    ghost function Settings(): (bool, bool, AudioProcessor, DeviceStream?, FecEncoder, bool, bool, bool)
      reads this
    {
      (isRunning, reconnectEnabled, processor, stream, fec, encryptOn, fecOn, isMpxMode)
    }

    /** The reconnect loop after `tries` attempts: settings and the other
        monitor fields as they were, and the attempts still to come lead
        to `goal`. */
    ghost predicate Reconnected(attempts: seq<Option<seq<Arrival>>>, tries: nat, goal: Intake,
                                settings: (bool, bool, AudioProcessor, DeviceStream?, FecEncoder, bool, bool, bool),
                                rest: (nat, int, seq<real>, seq<real>, Option<real>))
      reads this, buffer, encryption, monitor, fft, processor
    {
      tries <= |attempts| && Valid() && Settings() == settings && MonitorRest() == rest &&
      Run(Snapshot(), AttemptsPackets(attempts[tries..], encryptOn, encryption, fecOn, fec), fft.fftSize) == goal
    }

    /** One turn of the reconnect loop: the attempt made, then the wait. */
    method ReconnectStep(attempts: seq<Option<seq<Arrival>>>, tries: nat, ghost goal: Intake,
                         ghost settings: (bool, bool, AudioProcessor, DeviceStream?, FecEncoder, bool, bool, bool),
                         ghost rest: (nat, int, seq<real>, seq<real>, Option<real>))
      requires tries < |attempts| && isRunning && Reconnected(attempts, tries, goal, settings, rest)
      modifies this, buffer, monitor, fft
      ensures Reconnected(attempts, tries + 1, goal, settings, rest) && socket == null
      ensures expectedSequence == old(expectedSequence)
    {
      var attempt := attempts[tries];
      ghost var got := if attempt.Some? then SessionPackets(attempt.value, encryptOn, encryption, fecOn, fec) else [];
      ghost var later := AttemptsPackets(attempts[tries + 1..], encryptOn, encryption, fecOn, fec);
      ghost var mid := Snapshot();
      assert attempts[tries..][1..] == attempts[tries + 1..];
      assert AttemptsPackets(attempts[tries..], encryptOn, encryption, fecOn, fec) == got + later;
      ConnectAndRead(attempt);
      RunAppend(mid, got, later, fft.fftSize);
    }

    /** One attempt of the reconnect loop: a fresh socket, read until the
        connection ends (a refused connection reads nothing), then closed
        and dropped. */
    method ConnectAndRead(attempt: Option<seq<Arrival>>)
      requires Valid() && isRunning
      modifies this, buffer, monitor, fft
      ensures Valid() && socket == null
      ensures isRunning == old(isRunning) && reconnectEnabled == old(reconnectEnabled)
      ensures processor == old(processor) && stream == old(stream) && fec == old(fec)
      ensures encryptOn == old(encryptOn) && fecOn == old(fecOn) && isMpxMode == old(isMpxMode)
      ensures attempt.Some? ==>
                Snapshot() == Run(old(Snapshot()), SessionPackets(attempt.value, encryptOn, encryption, fecOn, fec),
                                  fft.fftSize)
      ensures attempt.None? ==> Snapshot() == old(Snapshot())
      ensures MonitorRest() == old(MonitorRest()) && expectedSequence == old(expectedSequence)
    {
      var sock := new Socket(if attempt.Some? then attempt.value else []);
      socket := sock;
      if attempt.Some? {
        ReadConnection(sock);
      }
      sock.Close();
      socket := null;
    }

    /** One `recvfrom` of `udp_receiver_thread`: a datagram that decodes
        is delivered; a timeout, a failing read or a packet that does not
        decode changes nothing. */
    method ReceiveDatagram(d: Datagram)
      requires Valid()
      modifies buffer, monitor, fft
      ensures Valid()
      ensures Snapshot() == Run(old(Snapshot()), DatagramDecoded(d, encryptOn, encryption, fecOn, fec), fft.fftSize)
      ensures MonitorRest() == old(MonitorRest())
    {
      if d.Delivered? {
        var data := Received(d.data);
        var p := DecodeDatagram(data, encryptOn, encryption, fecOn, fec);
        if p.Some? {
          Deliver(p.value);
          assert [p.value][..0] == [];
        }
      }
    }

    /** `udp_receiver_thread` over a run of datagrams, while the receiver
        runs. */
    method UdpReceiverThread(datagrams: seq<Datagram>)
      requires Valid()
      modifies buffer, monitor, fft
      ensures Valid()
      ensures isRunning ==>
                Snapshot() == Run(old(Snapshot()), DatagramPackets(datagrams, encryptOn, encryption, fecOn, fec),
                                  fft.fftSize)
      ensures !isRunning ==> Snapshot() == old(Snapshot())
      ensures MonitorRest() == old(MonitorRest())
    {
      if !isRunning {
        return;
      }
      // only `stop_receiver` lowers the flag, so it stays up for the loop
      var i := 0;
      ghost var goal := Run(Snapshot(), DatagramPackets(datagrams, encryptOn, encryption, fecOn, fec), fft.fftSize);
      ghost var rest := MonitorRest();
      while i < |datagrams|
        invariant Listened(datagrams, i, goal, rest)
      {
        ListenStep(datagrams, i, goal, rest);
        i := i + 1;
      }
      assert datagrams[i..] == [];
    }

    /** The UDP loop after `i` datagrams: the ones still to come lead to
        `goal`, and the other monitor fields are as they were. */
    ghost predicate Listened(datagrams: seq<Datagram>, i: nat, goal: Intake,
                             rest: (nat, int, seq<real>, seq<real>, Option<real>))
      reads this, buffer, encryption, monitor, fft, processor
    {
      i <= |datagrams| && Valid() && MonitorRest() == rest &&
      Run(Snapshot(), DatagramPackets(datagrams[i..], encryptOn, encryption, fecOn, fec), fft.fftSize) == goal
    }

    /** One turn of the UDP loop. */
    method ListenStep(datagrams: seq<Datagram>, i: nat, ghost goal: Intake,
                      ghost rest: (nat, int, seq<real>, seq<real>, Option<real>))
      requires i < |datagrams| && Listened(datagrams, i, goal, rest)
      modifies buffer, monitor, fft
      ensures Listened(datagrams, i + 1, goal, rest)
    {
      ghost var one := DatagramDecoded(datagrams[i], encryptOn, encryption, fecOn, fec);
      ghost var later := DatagramPackets(datagrams[i + 1..], encryptOn, encryption, fecOn, fec);
      ghost var mid := Snapshot();
      assert datagrams[i..][1..] == datagrams[i + 1..];
      ReceiveDatagram(datagrams[i]);
      RunAppend(mid, one, later, fft.fftSize);
    }

    /** `audio_output_callback`: silence when stopped or when the buffer
        is empty; otherwise one block is popped, reduced to channel 0 in
        MPX mode, cut to `frames`, run through the processor and written
        to the front of `outdata`, the rest of which is zeroed. */
    method AudioOutputCallback(outdata: array2<int>)
      requires Valid()
      requires outdata.Length1 == if isMpxMode then 1 else WIRE_CHANNELS
      modifies outdata, buffer, processor
      ensures Valid()
      ensures processor.agcEnabled == old(processor.agcEnabled) && processor.limiterEnabled == old(processor.limiterEnabled)
      ensures !isRunning || old(buffer.items) == [] ==>
                Grid(outdata) == Fit([], outdata.Length0, outdata.Length1, 0) &&
                buffer.items == old(buffer.items) && processor.currentGain == old(processor.currentGain)
      ensures isRunning && old(buffer.items) != [] ==>
                buffer.items == old(buffer.items)[1..] &&
                var chunk := Trim(Shape(old(buffer.items)[0], isMpxMode), outdata.Length0);
                processor.currentGain ==
                  (if old(processor.agcEnabled)
                   then FinalGain(processor.attackCoef, processor.releaseCoef, old(processor.currentGain), ToReal(chunk))
                   else old(processor.currentGain)) &&
                Grid(outdata) == Fit(Processed(processor.agcEnabled, processor.limiterEnabled, processor.attackCoef,
                                               processor.releaseCoef, old(processor.currentGain), chunk),
                                     outdata.Length0, outdata.Length1, 0)
    {
      if !isRunning || buffer.items == [] {
        FillZeros(outdata, 0);
        return;
      }
      var chunk := buffer.PopLeft();
      chunk := Shape(chunk, isMpxMode);
      chunk := Trim(chunk, outdata.Length0);
      var processed := processor.Process(chunk);
      FillFrom(outdata, processed, 0);
    }

    /** `stop_receiver`: both flags down, the output stream and the socket
        closed and dropped if present, the buffer emptied, the monitor
        reset. Repeating it closes nothing more. */
    method StopReceiver()
      requires Valid()
      modifies this, buffer, stream, socket, monitor
      ensures Valid() && monitor.Initial()
      ensures !isRunning && !reconnectEnabled && stream == null && socket == null && buffer.items == []
      ensures old(stream) != null ==> old(stream).closed && !old(stream).active
      ensures old(socket) != null ==> old(socket).closed
      ensures processor == old(processor) && fec == old(fec) && isMpxMode == old(isMpxMode)
      ensures encryptOn == old(encryptOn) && fecOn == old(fecOn) && expectedSequence == old(expectedSequence)
    {
      isRunning := false;
      reconnectEnabled := false;
      if stream != null {
        stream.StopAndClose();
        stream := null;
      }
      if socket != null {
        socket.Close();
        socket := null;
      }
      buffer.Clear();
      monitor.Reset();
    }
  }

  /** In MPX mode a stereo block keeps channel 0 only. */
  function Shape(chunk: Rows<int>, mpx: bool): (r: Rows<int>)
    requires HasWidth(chunk, WIRE_CHANNELS) && RowsInt16(chunk)
    ensures |r| == |chunk| && HasWidth(r, if mpx then 1 else WIRE_CHANNELS) && RowsInt16(r)
    ensures mpx ==> forall i :: 0 <= i < |chunk| ==> r[i] == [chunk[i][0]]
    ensures !mpx ==> r == chunk
  {
    if mpx then FirstColumn(chunk) else chunk
  }

  /** `chunk[:frames]` when the chunk has at least `frames` frames, the
      chunk itself otherwise. */
  function Trim<T>(chunk: Rows<T>, frames: nat): (r: Rows<T>)
    ensures |r| == if |chunk| >= frames then frames else |chunk|
    ensures r == chunk[..|r|]
  {
    if |chunk| >= frames then chunk[..frames] else chunk
  }
}
