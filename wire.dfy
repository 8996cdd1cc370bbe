/** The link's packet formats, shared by the senders and the receivers:
    the pro TCP frame `seq ++ len ++ payload`, the pro UDP datagram
    `seq ++ payload`, the original length-only TCP frame `len ++ pcm`,
    and the pro payload pipeline (FEC then encryption on the way out,
    decryption then FEC validation on the way in). The readers are
    specified over the socket scripts of `Transport`, and each format is
    proved to read back what was written, however TCP splits it. */
module Wire {
  import opened Common
  import opened Pcm
  import opened Encryption
  import opened Transport

  const HEADER_LEN: nat := 4
  /** Channels of every PCM block on the wire (`reshape(-1, 2)`). */
  const WIRE_CHANNELS: nat := 2

  // ---------------------------------------------------------------------
  // Sender side
  // ---------------------------------------------------------------------

  /** The payload a pro sender puts on the wire: FEC encoding first, then
      encryption, each only when its toggle is on. `iv` is the random IV
      the cipher would draw. */
  function WirePayload(pcm: Bytes, fecOn: bool, fec: FecEncoder,
                       encryptOn: bool, enc: AudioEncryption, iv: Block16): (w: Bytes)
    reads enc
    requires enc.Valid()
    ensures |w| == |pcm| + (if fecOn && fec.Enabled() then CHECKSUM_LEN else 0)
                         + (if encryptOn && enc.enabled then IV_LEN else 0)
  {
    var f := if fecOn then fec.Encode(pcm) else pcm;
    if encryptOn then enc.Encrypt(f, iv) else f
  }

  /** A pro TCP packet: 4-byte big-endian sequence, 4-byte big-endian
      payload length, payload. None where `struct.pack` raises. */
  function TcpPacket(sequence: int, payload: Bytes): (p: Option<Bytes>)
    ensures p.Some? <==> 0 <= sequence < U32_LIMIT && |payload| < U32_LIMIT
    ensures p.Some? ==> |p.value| == 2 * HEADER_LEN + |payload|
    ensures p.Some? ==> UnpackU32(p.value[..4]) == Some(sequence)
    ensures p.Some? ==> UnpackU32(p.value[4..8]) == Some(|payload|)
    ensures p.Some? ==> p.value[8..] == payload
  {
    var s := PackU32(sequence);
    var l := PackU32(|payload|);
    if s.None? || l.None? then None
    else
      UnpackPack(sequence);
      UnpackPack(|payload|);
      var p := s.value + l.value + payload;
      assert p[..4] == s.value && p[4..8] == l.value && p[8..] == payload;
      Some(p)
  }

  /** A pro UDP datagram: 4-byte big-endian sequence, then the payload. */
  function UdpPacket(sequence: int, payload: Bytes): (p: Option<Bytes>)
    ensures p.Some? <==> 0 <= sequence < U32_LIMIT
    ensures p.Some? ==> |p.value| == HEADER_LEN + |payload|
    ensures p.Some? ==> UnpackU32(p.value[..4]) == Some(sequence) && p.value[4..] == payload
  {
    var s := PackU32(sequence);
    if s.None? then None
    else
      UnpackPack(sequence);
      var p := s.value + payload;
      assert p[..4] == s.value && p[4..] == payload;
      Some(p)
  }

  /** The original sender's TCP packet: 4-byte big-endian length, then
      the raw PCM bytes. */
  function LengthPacket(payload: Bytes): (p: Option<Bytes>)
    ensures p.Some? <==> |payload| < U32_LIMIT
    ensures p.Some? ==> |p.value| == HEADER_LEN + |payload|
    ensures p.Some? ==> UnpackU32(p.value[..4]) == Some(|payload|) && p.value[4..] == payload
  {
    var l := PackU32(|payload|);
    if l.None? then None
    else
      UnpackPack(|payload|);
      var p := l.value + payload;
      assert p[..4] == l.value && p[4..] == payload;
      Some(p)
  }

  // ---------------------------------------------------------------------
  // TCP readers
  // ---------------------------------------------------------------------

  datatype Frame = Frame(sequence: nat, payload: Bytes)

  /** One pass of the pro TCP reader: `recv_exact(4)` for the sequence,
      `recv_exact(4)` for the length, `recv_exact(length)` for the
      payload; None when any of them comes back empty (a zero length
      included), which ends the connection's read loop. */
  function NextFrame(inbox: seq<Arrival>): (r: Option<(Frame, seq<Arrival>)>)
    ensures r.Some? ==> Size(r.value.1) < Size(inbox) && r.value.0.payload != []
  {
    TakeAvail(inbox, 4);
    TakeShrinks(inbox, 4);
    var t1 := Take(inbox, 4);
    if t1.0.None? then None
    else
      TakeAvail(t1.1, 4);
      TakeShrinks(t1.1, 4);
      var t2 := Take(t1.1, 4);
      if t2.0.None? then None
      else
        var len := UnpackU32(t2.0.value).value;
        TakeShrinks(t2.1, len);
        var t3 := Take(t2.1, len);
        if t3.0.None? || t3.0.value == [] then None
        else Some((Frame(UnpackU32(t1.0.value).value, t3.0.value), t3.1))
  }

  /** The pro TCP reader recovers every packet whatever the segmentation:
      when the stream holds a packet with a non-empty payload, one pass
      yields its sequence and payload and leaves the stream just past
      it. */
  lemma NextFrameOfPacket(inbox: seq<Arrival>, sequence: int, payload: Bytes, more: Bytes)
    requires payload != [] && TcpPacket(sequence, payload).Some?
    requires Avail(inbox) == TcpPacket(sequence, payload).value + more
    ensures NextFrame(inbox).Some?
    ensures NextFrame(inbox).value.0 == Frame(sequence, payload)
    ensures Avail(NextFrame(inbox).value.1) == more
  {
    var p := TcpPacket(sequence, payload).value;
    var s := Avail(inbox);
    TakeAvail(inbox, 4);
    var t1 := Take(inbox, 4);
    assert t1.0.value == s[..4] == p[..4];
    assert Avail(t1.1) == s[4..];
    TakeAvail(t1.1, 4);
    var t2 := Take(t1.1, 4);
    assert t2.0.value == s[4..][..4] == p[4..8];
    assert Avail(t2.1) == s[8..];
    TakeAvail(t2.1, |payload|);
    var t3 := Take(t2.1, |payload|);
    assert s[8..] == payload + more;
    assert t3.0.value == payload;
    assert Avail(t3.1) == more;
  }

  /** One pass of the original TCP reader: `recv_exact(4)` for the
      length, then `recv_exact(length)`; None when either is empty. */
  function NextLengthFrame(inbox: seq<Arrival>): (r: Option<(Bytes, seq<Arrival>)>)
    ensures r.Some? ==> Size(r.value.1) < Size(inbox) && r.value.0 != []
  {
    TakeAvail(inbox, 4);
    TakeShrinks(inbox, 4);
    var t1 := Take(inbox, 4);
    if t1.0.None? then None
    else
      var len := UnpackU32(t1.0.value).value;
      TakeShrinks(t1.1, len);
      var t2 := Take(t1.1, len);
      if t2.0.None? || t2.0.value == [] then None
      else Some((t2.0.value, t2.1))
  }

  lemma NextLengthFrameOfPacket(inbox: seq<Arrival>, payload: Bytes, more: Bytes)
    requires payload != [] && LengthPacket(payload).Some?
    requires Avail(inbox) == LengthPacket(payload).value + more
    ensures NextLengthFrame(inbox).Some? && NextLengthFrame(inbox).value.0 == payload
    ensures Avail(NextLengthFrame(inbox).value.1) == more
  {
    var p := LengthPacket(payload).value;
    var s := Avail(inbox);
    TakeAvail(inbox, 4);
    var t1 := Take(inbox, 4);
    assert t1.0.value == s[..4] == p[..4];
    assert Avail(t1.1) == s[4..] == payload + more;
    TakeAvail(t1.1, |payload|);
    var t2 := Take(t1.1, |payload|);
    assert t2.0.value == payload;
  }

  // ---------------------------------------------------------------------
  // Receiver-side decoding
  // ---------------------------------------------------------------------

  /** What the pro receive loops make of one payload: an accepted block
      (with the bytes the monitor is credited with), a packet skipped for
      a bad checksum, or an exception (from the cipher on a payload
      shorter than its IV, or from numpy on an odd or misaligned length). */
  datatype Outcome = Accepted(audio: Bytes, block: Rows<int>) | Skipped | Raised

  /** Decryption first, FEC validation second, then
      `np.frombuffer(audio, np.int16).reshape(-1, 2)`. */
  function DecodePayload(payload: Bytes, encryptOn: bool, enc: AudioEncryption,
                         fecOn: bool, fec: FecEncoder): (r: Outcome)
    reads enc
    requires enc.Valid()
    ensures r.Accepted? ==> HasWidth(r.block, WIRE_CHANNELS) && RowsInt16(r.block)
    ensures r.Accepted? ==> 2 * |Flatten(r.block)| == |r.audio|
    // the cipher runs before the checksum is looked at
    ensures encryptOn && enc.enabled && |payload| < IV_LEN ==> r.Raised?
    // only the FEC stage skips packets
    ensures r.Skipped? ==> fecOn && fec.Enabled()
    // with both stages off the payload is the PCM itself
    ensures !encryptOn && !fecOn ==>
              (r.Accepted? <==> ParseBlock(payload, WIRE_CHANNELS).Some?) &&
              (r.Accepted? ==> r.audio == payload)
  {
    var d := if encryptOn then enc.Decrypt(payload) else Some(payload);
    if d.None? then Raised
    else
      var checked := if fecOn then fec.Decode(d.value) else (d.value, true);
      if !checked.1 then Skipped
      else
        match ParseBlock(checked.0, WIRE_CHANNELS)
        case None => Raised
        case Some(rows) =>
          FlattenLength(rows, WIRE_CHANNELS);
          ReshapeOfParse(checked.0, rows);
          Accepted(checked.0, rows)
  }

  /** The sample count of a parsed block matches the bytes it came from. */
  lemma ReshapeOfParse(b: Bytes, rows: Rows<int>)
    requires ParseBlock(b, WIRE_CHANNELS) == Some(rows)
    ensures 2 * |Flatten(rows)| == |b|
  {
    var xs := BytesToSamples(b).value;
    assert Reshape(xs, WIRE_CHANNELS) == Some(rows);
  }

  /** The end-to-end property of the pro pipeline: whatever the toggles,
      IV and key, a receiver configured like the sender accepts what the
      sender encoded and recovers the block it serialised. */
  lemma DecodeWirePayload(rows: Rows<int>, fecOn: bool, fec: FecEncoder,
                          encryptOn: bool, enc: AudioEncryption, iv: Block16)
    requires HasWidth(rows, WIRE_CHANNELS) && RowsInt16(rows) && enc.Valid()
    ensures DecodePayload(WirePayload(ToBytes(rows), fecOn, fec, encryptOn, enc, iv), encryptOn, enc, fecOn, fec)
              == Accepted(ToBytes(rows), rows)
  {
    var pcm := ToBytes(rows);
    var f := if fecOn then fec.Encode(pcm) else pcm;
    if encryptOn {
      enc.DecryptEncrypt(f, iv);
    }
    if fecOn {
      fec.DecodeEncode(pcm);
    }
    ParseToBytes(rows, WIRE_CHANNELS);
  }

  /** A decoded packet: its sequence number, the decoded bytes and the
      block parsed from them. */
  datatype Packet = Packet(sequence: nat, audio: Bytes, block: Rows<int>)

  /** The pro UDP path for one datagram: the first 4 bytes are the
      sequence (fewer make `struct.unpack` raise), the rest is decoded
      like a TCP payload. Anything but an accepted block is dropped. */
  function DecodeDatagram(data: Bytes, encryptOn: bool, enc: AudioEncryption,
                          fecOn: bool, fec: FecEncoder): (r: Option<Packet>)
    reads enc
    requires enc.Valid()
    ensures |data| < HEADER_LEN ==> r.None?
    ensures r.Some? ==> HasWidth(r.value.block, WIRE_CHANNELS) && RowsInt16(r.value.block)
    ensures r.Some? ==> Some(r.value.sequence) == UnpackU32(data[..HEADER_LEN])
  {
    if |data| < HEADER_LEN then None
    else
      match DecodePayload(data[HEADER_LEN..], encryptOn, enc, fecOn, fec)
      case Accepted(audio, block) => Some(Packet(UnpackU32(data[..HEADER_LEN]).value, audio, block))
      case _ => None
  }

  /** A datagram built by the pro sender is accepted with its sequence
      number and block. */
  lemma DecodeSentDatagram(sequence: int, rows: Rows<int>, fecOn: bool, fec: FecEncoder,
                           encryptOn: bool, enc: AudioEncryption, iv: Block16)
    requires 0 <= sequence < U32_LIMIT
    requires HasWidth(rows, WIRE_CHANNELS) && RowsInt16(rows) && enc.Valid()
    ensures var d := UdpPacket(sequence, WirePayload(ToBytes(rows), fecOn, fec, encryptOn, enc, iv)).value;
            DecodeDatagram(d, encryptOn, enc, fecOn, fec) == Some(Packet(sequence, ToBytes(rows), rows))
  {
    DecodeWirePayload(rows, fecOn, fec, encryptOn, enc, iv);
  }
}
