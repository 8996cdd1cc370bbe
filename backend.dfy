/** The desktop app's audio backend: a TCP sender whose packets are a
    4-byte big-endian sequence number followed by the raw float32 samples,
    a receiver that takes each `recv` as one packet and buffers up to 100
    blocks, the playback callback (with numpy's broadcasting rules written
    out), the start/stop guards, and the netmask arithmetic of the network
    settings. float32 samples are carried as their 4-byte patterns: the
    backend never computes with them, it only copies, slices and
    reinterprets them (the mono mix is an input function). */
module Backend {
  import opened Common
  import opened Pcm
  import opened Transport
  import opened Jitter
  import opened Playback

  // ---------------------------------------------------------------------
  // Netmask arithmetic (section 3.1 of RFC 4632: a prefix length names the
  // mask whose leading bits are set)
  // ---------------------------------------------------------------------

  lemma {:induction false} Pow2Add(a: nat, b: nat)
    ensures Pow2(a + b) == Pow2(a) * Pow2(b)
    decreases a
  {
    if a > 0 {
      Pow2Add(a - 1, b);
    }
  }

  lemma Pow2Values()
    ensures Pow2(8) == 256 && Pow2(32) == U32_LIMIT
  {
    assert Pow2(8) == 256;
    Pow2Add(8, 8);
    Pow2Add(16, 16);
  }

  lemma MulPred(p: int, q: int)
    ensures (p - 1) * q == p * q - q && p * q == q * p
  {
  }

  /** Euclidean division has a unique quotient. */
  lemma DivOf(x: int, d: int, q: int, r: int)
    requires d > 0 && 0 <= r < d && x == q * d + r
    ensures x / d == q
  {
    var q0, r0 := x / d, x % d;
    assert d * (q - q0) == r0 - r;
    MulSign(d, q - q0);
  }

  /** `(0xffffffff >> (32 - cidr)) << (32 - cidr)`: Python raises on the
      negative shift count a prefix above 32 makes. */
  function MaskValue(cidr: int): (m: Option<nat>)
    ensures m.Some? <==> cidr <= 32
  {
    if cidr > 32 then None
    else
      var k: nat := 32 - cidr;
      Some(0xffff_ffff / Pow2(k) * Pow2(k))
  }

  /** A prefix length of 0 to 32 gives the 32-bit value whose top `cidr`
      bits are set and whose other bits are clear. */
  lemma MaskTopBits(cidr: int)
    requires 0 <= cidr <= 32
    ensures MaskValue(cidr) == Some(U32_LIMIT - Pow2(32 - cidr))
  {
    var k: nat := 32 - cidr;
    var c: nat := cidr;
    Pow2Values();
    Pow2Add(c, k);
    assert 0xffff_ffff == (Pow2(c) - 1) * Pow2(k) + (Pow2(k) - 1);
    DivOf(0xffff_ffff, Pow2(k), Pow2(c) - 1, Pow2(k) - 1);
  }

  /** A negative prefix length shifts every bit out: the mask is 0. */
  lemma MaskOfNegative(cidr: int)
    requires cidr < 0
    ensures MaskValue(cidr) == Some(0)
  {
    var k: nat := 32 - cidr;
    Pow2Values();
    Pow2Add(32, k - 32);
    assert Pow2(k) >= Pow2(32);
    DivOf(0xffff_ffff, Pow2(k), 0, 0xffff_ffff);
  }

  /** `(mask >> 24) & 0xff`, `(mask >> 16) & 0xff`, `(mask >> 8) & 0xff`,
      `mask & 0xff`. */
  function Octets(mask: nat): (o: seq<nat>)
    ensures |o| == 4 && forall i :: 0 <= i < 4 ==> o[i] < 256
  {
    [mask / 0x100_0000 % 256, mask / 0x1_0000 % 256, mask / 0x100 % 256, mask % 256]
  }

  function DigitChar(d: nat): (c: char)
    requires d < 10
    ensures '0' <= c <= '9'
  {
    ('0' as int + d) as char
  }

  /** Python's decimal text of a non-negative integer. */
  function Decimal(n: nat): (s: string)
    ensures |s| >= 1 && AllDigits(s)
    decreases n
  {
    if n < 10 then [DigitChar(n)] else Decimal(n / 10) + [DigitChar(n % 10)]
  }

  predicate AllDigits(s: string)
  {
    forall i :: 0 <= i < |s| ==> '0' <= s[i] <= '9'
  }

  /** The four octets as dotted-quad text. */
  function Dotted(o: seq<nat>): string
    requires |o| == 4
  {
    Decimal(o[0]) + "." + Decimal(o[1]) + "." + Decimal(o[2]) + "." + Decimal(o[3])
  }

  /** `_cidr_to_netmask`. */
  function CidrToNetmask(cidr: int): (r: Option<string>)
    ensures r.Some? <==> cidr <= 32
  {
    match MaskValue(cidr)
    case None => None
    case Some(mask) => Some(Dotted(Octets(mask)))
  }

  /** A prefix length of 0 to 32 yields four octets, each below 256, that
      read as one big-endian 32-bit word have exactly the top `cidr` bits
      set; a negative one yields `0.0.0.0`. */
  lemma NetmaskOctets(cidr: int)
    requires cidr <= 32
    ensures var o := Octets(MaskValue(cidr).value);
            CidrToNetmask(cidr) == Some(Dotted(o)) &&
            o[0] * 0x100_0000 + o[1] * 0x1_0000 + o[2] * 0x100 + o[3] ==
              if cidr < 0 then 0 else U32_LIMIT - Pow2(32 - cidr)
  {
    if cidr < 0 {
      MaskOfNegative(cidr);
    } else {
      MaskTopBits(cidr);
    }
    var mask := MaskValue(cidr).value;
    assert Octets(mask) == PackU32(mask).value;
    UnpackPack(mask);
  }

  // `_netmask_to_cidr`: the set bits of every dotted part, counted

  /** The number of set bits, `bin(n).count('1')` for `n >= 0`. */
  function Popcount(n: nat): nat
  {
    if n == 0 then 0 else n % 2 + Popcount(n / 2)
  }

  /** A number has no set bits exactly when it is 0, and never more set
      bits than its value. */
  lemma {:induction false} PopcountBounds(n: nat)
    ensures Popcount(n) == 0 <==> n == 0
    ensures Popcount(n) <= n
    decreases n
  {
    if n > 0 {
      PopcountBounds(n / 2);
    }
  }

  /** Setting the low `k` bits of a shifted value adds their count. */
  lemma {:induction false} PopcountSplit(x: nat, y: nat, k: nat)
    requires y < Pow2(k)
    ensures Popcount(x * Pow2(k) + y) == Popcount(x) + Popcount(y)
    decreases k
  {
    if k > 0 {
      var z := x * Pow2(k) + y;
      var x2 := x * Pow2(k - 1);
      assert z == 2 * (x2 + y / 2) + y % 2;
      DivOf(z, 2, x2 + y / 2, y % 2);
      PopcountSplit(x, y / 2, k - 1);
      if y > 0 {
        assert Popcount(y) == y % 2 + Popcount(y / 2);
      }
    }
  }

  /** `2^m - 1` has its `m` low bits set. */
  lemma {:induction false} PopcountOnes(m: nat)
    ensures Popcount(Pow2(m) - 1) == m
    decreases m
  {
    if m > 0 {
      var n := Pow2(m) - 1;
      DivOf(n, 2, Pow2(m - 1) - 1, 1);
      PopcountOnes(m - 1);
    }
  }

  /** `str.split(sep)`: the pieces between separators, empty ones kept. */
  function SplitOn(s: string, sep: char): (parts: seq<string>)
    ensures |parts| >= 1
    decreases |s|
  {
    if s == [] then [[]]
    else if s[0] == sep then [[]] + SplitOn(s[1..], sep)
    else
      var t := SplitOn(s[1..], sep);
      [[s[0]] + t[0]] + t[1..]
  }

  /** The value of a run of decimal digits. */
  function DigitsValue(s: string): nat
    requires AllDigits(s)
    decreases |s|
  {
    if s == [] then 0 else DigitsValue(s[..|s| - 1]) * 10 + (s[|s| - 1] as int - '0' as int)
  }

  /** `int(x)` on an optional sign followed by decimal digits; anything
      else raises. */
  function ParseInt(p: string): (r: Option<int>)
    ensures r.Some? ==> |p| >= 1
  {
    if |p| >= 2 && (p[0] == '-' || p[0] == '+') && AllDigits(p[1..]) then
      Some(if p[0] == '-' then 0 - DigitsValue(p[1..]) else DigitsValue(p[1..]))
    else if |p| >= 1 && AllDigits(p) then Some(DigitsValue(p))
    else None
  }

  function Magnitude(v: int): nat
  {
    if v < 0 then -v else v
  }

  /** Every part is text `int()` accepts. */
  predicate AllIntegers(parts: seq<string>)
  {
    forall i :: 0 <= i < |parts| ==> ParseInt(parts[i]).Some?
  }

  /** The total of `bin(int(x)).count('1')` over the parts; `None` when a
      part is not an integer. `bin` of a negative number is `-0b…`, so its
      bits are those of the magnitude. */
  function CountBits(parts: seq<string>): (r: Option<nat>)
    ensures r.Some? <==> AllIntegers(parts)
    decreases |parts|
  {
    if parts == [] then Some(0)
    else
      var v, rest := ParseInt(parts[0]), CountBits(parts[1..]);
      if v.Some? && rest.Some? then Some(Popcount(Magnitude(v.value)) + rest.value) else None
  }

  /** `_netmask_to_cidr`. */
  function NetmaskToCidr(netmask: string): (r: Option<nat>)
    ensures r.Some? <==> AllIntegers(SplitOn(netmask, '.'))
  {
    CountBits(SplitOn(netmask, '.'))
  }

  lemma {:induction false} SplitWithout(s: string, sep: char)
    requires AllDigits(s) && !('0' <= sep <= '9')
    ensures SplitOn(s, sep) == [s]
    decreases |s|
  {
    if s != [] {
      SplitWithout(s[1..], sep);
      assert [s[0]] + s[1..] == s;
    }
  }

  lemma {:induction false} SplitBefore(s: string, sep: char, rest: string)
    requires AllDigits(s) && !('0' <= sep <= '9')
    ensures SplitOn(s + [sep] + rest, sep) == [s] + SplitOn(rest, sep)
    decreases |s|
  {
    if s == [] {
      assert s + [sep] + rest == [sep] + rest;
    } else {
      assert (s + [sep] + rest)[1..] == s[1..] + [sep] + rest;
      SplitBefore(s[1..], sep, rest);
      assert [s[0]] + s[1..] == s;
    }
  }

  /** Python's `int` reads its own decimal text back. */
  lemma {:induction false} ParseDecimal(n: nat)
    ensures ParseInt(Decimal(n)) == Some(n)
  {
    DigitsDecimal(n);
  }

  lemma {:induction false} DigitsDecimal(n: nat)
    ensures DigitsValue(Decimal(n)) == n
    decreases n
  {
    var s := Decimal(n);
    if n >= 10 {
      assert s[..|s| - 1] == Decimal(n / 10);
      DigitsDecimal(n / 10);
    }
  }

  lemma SplitDotted(o: seq<nat>)
    requires |o| == 4
    ensures SplitOn(Dotted(o), '.') == [Decimal(o[0]), Decimal(o[1]), Decimal(o[2]), Decimal(o[3])]
  {
    var a, b, c, d := Decimal(o[0]), Decimal(o[1]), Decimal(o[2]), Decimal(o[3]);
    assert Dotted(o) == a + ['.'] + (b + ['.'] + (c + ['.'] + d));
    SplitBefore(a, '.', b + ['.'] + (c + ['.'] + d));
    SplitBefore(b, '.', c + ['.'] + d);
    SplitBefore(c, '.', d);
    SplitWithout(d, '.');
  }

  /** The dotted text of four octets counts the set bits of the 32-bit
      word they make. */
  lemma CountDotted(o: seq<nat>)
    requires |o| == 4 && forall i :: 0 <= i < 4 ==> o[i] < 256
    ensures NetmaskToCidr(Dotted(o)) ==
              Some(Popcount(o[0] * 0x100_0000 + o[1] * 0x1_0000 + o[2] * 0x100 + o[3]))
  {
    var parts := [Decimal(o[0]), Decimal(o[1]), Decimal(o[2]), Decimal(o[3])];
    var bits := Popcount(o[0]) + Popcount(o[1]) + Popcount(o[2]) + Popcount(o[3]);
    assert NetmaskToCidr(Dotted(o)) == CountBits(parts) by {
      SplitDotted(o);
    }
    assert CountBits(parts) == Some(bits) by {
      CountOctetTexts(o);
    }
    var b, c, d := o[1], o[2], o[3];
    assert b < 256 && c < 256 && d < 256;
    assert bits == Popcount(o[0] * 0x100_0000 + b * 0x1_0000 + c * 0x100 + d) by {
      PopcountOctets(o[0], b, c, d);
    }
  }

  lemma CountOctetTexts(o: seq<nat>)
    requires |o| == 4
    ensures CountBits([Decimal(o[0]), Decimal(o[1]), Decimal(o[2]), Decimal(o[3])]) ==
            Some(Popcount(o[0]) + Popcount(o[1]) + Popcount(o[2]) + Popcount(o[3]))
  {
    var p3 := [Decimal(o[3])];
    var p2 := [Decimal(o[2])] + p3;
    var p1 := [Decimal(o[1])] + p2;
    var p0 := [Decimal(o[0])] + p1;
    assert p0 == [Decimal(o[0]), Decimal(o[1]), Decimal(o[2]), Decimal(o[3])];
    assert p3 == [Decimal(o[3])] + [];
    CountDecimal(o[3], []);
    CountDecimal(o[2], p3);
    CountDecimal(o[1], p2);
    CountDecimal(o[0], p1);
  }

  lemma CountDecimal(n: nat, rest: seq<string>)
    requires CountBits(rest).Some?
    ensures CountBits([Decimal(n)] + rest) == Some(Popcount(n) + CountBits(rest).value)
  {
    ParseDecimal(n);
    CountCons(Decimal(n), rest, n);
  }

  lemma CountCons(p: string, rest: seq<string>, v: nat)
    requires ParseInt(p) == Some(v) && CountBits(rest).Some?
    ensures CountBits([p] + rest) == Some(Popcount(v) + CountBits(rest).value)
  {
    var t := [p] + rest;
    assert t[0] == p && t[1..] == rest;
    assert Magnitude(v) == v;
  }

  /** The set bits of a big-endian word are those of its four octets. */
  lemma PopcountOctets(a: nat, b: nat, c: nat, d: nat)
    requires b < 256 && c < 256 && d < 256
    ensures Popcount(a) + Popcount(b) + Popcount(c) + Popcount(d) ==
            Popcount(a * 0x100_0000 + b * 0x1_0000 + c * 0x100 + d)
  {
    var ab := a * 256 + b;
    var abc := ab * 256 + c;
    OctetsHorner(a, b, c, d);
    PopcountByte(a, b);
    PopcountByte(ab, c);
    PopcountByte(abc, d);
  }

  /** The big-endian weighting of four octets, one byte at a time. */
  lemma OctetsHorner(a: int, b: int, c: int, d: int)
    ensures ((a * 256 + b) * 256 + c) * 256 + d == a * 0x100_0000 + b * 0x1_0000 + c * 0x100 + d
  {
  }

  /** Appending a byte adds its set bits. */
  lemma PopcountByte(x: nat, y: nat)
    requires y < 256
    ensures Popcount(x * 256 + y) == Popcount(x) + Popcount(y)
  {
    Pow2Values();
    PopcountSplit(x, y, 8);
  }

  /** Round trip: for every prefix length from 0 to 32, counting the bits
      of its dotted netmask gives the prefix length back. */
  lemma NetmaskRoundTrip(cidr: int)
    requires 0 <= cidr <= 32
    ensures NetmaskToCidr(CidrToNetmask(cidr).value) == Some(cidr)
  {
    var o := Octets(MaskValue(cidr).value);
    var w := o[0] * 0x100_0000 + o[1] * 0x1_0000 + o[2] * 0x100 + o[3];
    assert CidrToNetmask(cidr) == Some(Dotted(o)) && w == U32_LIMIT - Pow2(32 - cidr) by {
      NetmaskOctets(cidr);
    }
    assert NetmaskToCidr(Dotted(o)) == Some(Popcount(w)) by {
      CountDotted(o);
    }
    MaskPopcount(cidr);
  }

  /** The mask with the top `cidr` bits set has `cidr` set bits. */
  lemma MaskPopcount(cidr: int)
    requires 0 <= cidr <= 32
    ensures Pow2(32 - cidr) <= U32_LIMIT && Popcount(U32_LIMIT - Pow2(32 - cidr)) == cidr
  {
    var k: nat := 32 - cidr;
    var c: nat := cidr;
    MaskFactor(c, k);
    PopcountSplit(Pow2(c) - 1, 0, k);
    PopcountOnes(c);
  }

  lemma MaskFactor(c: nat, k: nat)
    requires c + k == 32
    ensures Pow2(k) <= U32_LIMIT && U32_LIMIT - Pow2(k) == (Pow2(c) - 1) * Pow2(k) + 0
  {
    var p, q := Pow2(c), Pow2(k);
    assert p * q == U32_LIMIT by {
      Pow2Add(c, k);
      Pow2Values();
    }
    MulPred(p, q);
    MulSign(q, p);
  }

  // ---------------------------------------------------------------------
  // float32 samples as 4-byte patterns
  // ---------------------------------------------------------------------

  /** One float32 sample, as the four bytes `tobytes` writes for it. */
  type Word = w: Bytes | |w| == 4 witness [0, 0, 0, 0]

  /** `0.0` as a float32. */
  const SILENCE: Word := [0, 0, 0, 0]

  /** `tobytes`: the samples' bytes one after the other. */
  function WordsBytes(ws: seq<Word>): (b: Bytes)
    ensures |b| == 4 * |ws|
    decreases |ws|
  {
    if ws == [] then [] else ws[0] + WordsBytes(ws[1..])
  }

  /** Consecutive groups of four bytes. */
  function Group(b: Bytes): (ws: seq<Word>)
    requires |b| % 4 == 0
    ensures 4 * |ws| == |b| && WordsBytes(ws) == b
    decreases |b|
  {
    if b == [] then []
    else
      var ws := [b[..4]] + Group(b[4..]);
      assert ws[1..] == Group(b[4..]);
      ws
  }

  /** `np.frombuffer(b, dtype=np.float32)`, which raises unless the length
      is a whole number of samples. */
  function BytesWords(b: Bytes): (r: Option<seq<Word>>)
    ensures r.Some? <==> |b| % 4 == 0
    ensures r.Some? ==> WordsBytes(r.value) == b
  {
    if |b| % 4 == 0 then Some(Group(b)) else None
  }

  /** Reading the bytes of some samples gives those samples back. */
  lemma {:induction false} WordsRoundTrip(ws: seq<Word>)
    ensures BytesWords(WordsBytes(ws)) == Some(ws)
    decreases |ws|
  {
    if ws != [] {
      WordsRoundTrip(ws[1..]);
      var b := WordsBytes(ws);
      assert b[..4] == ws[0];
      assert b[4..] == WordsBytes(ws[1..]);
      assert [ws[0]] + ws[1..] == ws;
    }
  }

  /** A numpy 2-D array: every frame has as many samples as the first. */
  predicate Uniform<T>(rows: Rows<T>)
  {
    forall i :: 0 <= i < |rows| ==> |rows[i]| == |rows[0]|
  }

  // ---------------------------------------------------------------------
  // The wire format
  // ---------------------------------------------------------------------

  /** `struct.pack('!I', sequence_number)` followed by the block's samples;
      `struct.pack` raises outside 0 .. 2^32-1. */
  function SenderPacket(sequence: int, block: Rows<Word>): (p: Option<Bytes>)
    ensures p.Some? <==> 0 <= sequence < U32_LIMIT
  {
    match PackU32(sequence)
    case None => None
    case Some(header) => Some(header + WordsBytes(Flatten(block)))
  }

  /** What `receive_thread` makes of one read: too short for a header, a
      payload numpy rejects (not whole float32 samples, or not whole frames
      of `channels` samples), or a sequence number and a block. */
  datatype Parsed = TooShort | Raised | Packet(sequence: nat, block: Rows<Word>)

  function ParsePacket(packet: Bytes, channels: int): (r: Parsed)
    ensures r.TooShort? <==> |packet| < 4
    ensures r.Packet? ==> channels > 0 && HasWidth(r.block, channels) &&
                          4 + 4 * |Flatten(r.block)| == |packet|
  {
    if |packet| < 4 then TooShort
    else
      match BytesWords(packet[4..])
      case None => Raised
      case Some(ws) =>
        match Reshape(ws, channels)
        case None => Raised
        case Some(rows) => Packet(UnpackU32(packet[..4]).value, rows)
  }

  lemma MulLe(a: int, b: int, c: int)
    requires 0 <= a <= b && c >= 0
    ensures c * a <= c * b
  {
  }

  /** A sender packet is read back as its sequence number and block by a
      receiver expecting frames of the block's width, and it is
      `4 + 4 * width * frames` bytes long. */
  lemma ParseSenderPacket(sequence: int, block: Rows<Word>, width: nat)
    requires 0 <= sequence < U32_LIMIT && width > 0 && HasWidth(block, width)
    ensures |SenderPacket(sequence, block).value| == 4 + 4 * |Flatten(block)|
    ensures |Flatten(block)| == width * |block|
    ensures ParsePacket(SenderPacket(sequence, block).value, width) == Packet(sequence, block)
  {
    var header := PackU32(sequence).value;
    var p := header + WordsBytes(Flatten(block));
    assert p[..4] == header && p[4..] == WordsBytes(Flatten(block));
    assert ParsePacket(p, width) == Packet(sequence, block) by {
      UnpackPack(sequence);
      WordsRoundTrip(Flatten(block));
      ReshapeFlatten(block, width);
    }
    FlattenLength(block, width);
  }

  // ---------------------------------------------------------------------
  // The receive loop's reads
  // ---------------------------------------------------------------------

  /** `recv(max)` on the connection, as `Socket.Recv` performs it: the data
      (None where the call raises) and what is left to read. */
  function RecvNext(inbox: seq<Arrival>, max: nat): (r: (Option<Bytes>, seq<Arrival>))
    requires max > 0
    ensures inbox == [] ==> r == (Some([]), [])
    ensures inbox != [] ==> Size(r.1) < Size(inbox)
  {
    if inbox == [] then (Some([]), [])
    else
      match inbox[0]
      case Fault => (None, inbox[1..])
      case Chunk(d) =>
        if |d| <= max then (Some(d), inbox[1..])
        else
          SizeAppend([Chunk(d[max..])], inbox[1..]);
          (Some(d[..max]), [Chunk(d[max..])] + inbox[1..])
  }

  /** `buffer_size * channels * 4 + 4`, the most one read takes. */
  function ExpectedSize(bufferSize: int, channels: int): (n: int)
    ensures n % 4 == 0
    ensures bufferSize >= 0 && channels >= 0 ==> n >= 4
  {
    bufferSize * channels * 4 + 4
  }

  /** The blocks `receive_thread` appends, in order, while running on a
      connection: each read of at most `expected` bytes is taken as one
      packet; a read that is empty or raises, or a payload numpy rejects,
      ends the loop; a read shorter than a header is skipped. `recv(0)`
      reads nothing and `recv` of a negative size raises, so a size that
      is not positive ends the loop at once. */
  function StreamBlocks(inbox: seq<Arrival>, expected: int, channels: int): (bs: seq<Rows<Word>>)
    ensures forall k :: 0 <= k < |bs| ==> channels > 0 && HasWidth(bs[k], channels)
    decreases Size(inbox)
  {
    if expected <= 0 then []
    else
      var r := RecvNext(inbox, expected);
      if r.0.None? || r.0.value == [] then []
      else
        match ParsePacket(r.0.value, channels)
        case TooShort => StreamBlocks(r.1, expected, channels)
        case Raised => []
        case Packet(_, block) => [block] + StreamBlocks(r.1, expected, channels)
  }

  /** One read of the loop, unfolded. */
  lemma StreamUnfold(inbox: seq<Arrival>, expected: int, channels: int)
    requires expected > 0
    ensures var r := RecvNext(inbox, expected);
            StreamBlocks(inbox, expected, channels) ==
              if r.0.None? || r.0.value == [] then []
              else match ParsePacket(r.0.value, channels)
                case TooShort => StreamBlocks(r.1, expected, channels)
                case Raised => []
                case Packet(_, block) => [block] + StreamBlocks(r.1, expected, channels)
  {
  }

  /** The sender's packets for a run of blocks numbered from `first`, each
      arriving in one piece. */
  function PacketArrivals(first: nat, blocks: seq<Rows<Word>>): seq<Arrival>
    requires first + |blocks| <= U32_LIMIT
    decreases |blocks|
  {
    if blocks == [] then []
    else [Chunk(SenderPacket(first, blocks[0]).value)] + PacketArrivals(first + 1, blocks[1..])
  }

  /** A connection carrying the sender's packets for blocks of at most
      `bufferSize` frames of `channels` samples, one packet per read and
      then closed, delivers exactly those blocks. */
  lemma StreamReadsPackets(first: nat, blocks: seq<Rows<Word>>, bufferSize: nat, channels: nat)
    requires channels > 0 && first + |blocks| <= U32_LIMIT
    requires forall k :: 0 <= k < |blocks| ==> HasWidth(blocks[k], channels) && |blocks[k]| <= bufferSize
    ensures StreamBlocks(PacketArrivals(first, blocks), ExpectedSize(bufferSize, channels), channels) == blocks
  {
    forall k | 0 <= k < |blocks|
      ensures 4 + 4 * |Flatten(blocks[k])| <= ExpectedSize(bufferSize, channels)
    {
      BlockFits(blocks[k], bufferSize, channels);
    }
    StreamReadsWithin(first, blocks, ExpectedSize(bufferSize, channels), channels);
  }

  /** The same for any read size that every packet fits. */
  lemma {:induction false} StreamReadsWithin(first: nat, blocks: seq<Rows<Word>>, expected: int, channels: nat)
    requires channels > 0 && first + |blocks| <= U32_LIMIT
    requires forall k :: 0 <= k < |blocks| ==> HasWidth(blocks[k], channels) && 4 + 4 * |Flatten(blocks[k])| <= expected
    ensures StreamBlocks(PacketArrivals(first, blocks), expected, channels) == blocks
    decreases |blocks|
  {
    if blocks != [] {
      StreamCons(first, blocks, expected, channels);
      StreamReadsWithin(first + 1, blocks[1..], expected, channels);
      HeadTail(blocks);
    }
  }

  lemma HeadTail<T>(s: seq<T>)
    requires s != []
    ensures [s[0]] + s[1..] == s
  {
  }

  /** The first packet of the run is read as its block. */
  lemma StreamCons(first: nat, blocks: seq<Rows<Word>>, expected: int, channels: nat)
    requires channels > 0 && first + |blocks| <= U32_LIMIT && blocks != []
    requires HasWidth(blocks[0], channels) && 4 + 4 * |Flatten(blocks[0])| <= expected
    ensures StreamBlocks(PacketArrivals(first, blocks), expected, channels) ==
            [blocks[0]] + StreamBlocks(PacketArrivals(first + 1, blocks[1..]), expected, channels)
  {
    var b := blocks[0];
    ParseSenderPacket(first, b, channels);
    StreamHead(PacketArrivals(first, blocks), PacketArrivals(first + 1, blocks[1..]), SenderPacket(first, b).value,
               b, first, expected, channels);
  }

  /** The payload of a block of at most `bufferSize` frames fits one read. */
  lemma BlockFits(block: Rows<Word>, bufferSize: nat, channels: nat)
    requires HasWidth(block, channels) && |block| <= bufferSize
    ensures 4 + 4 * |Flatten(block)| <= ExpectedSize(bufferSize, channels)
  {
    FlattenLength(block, channels);
    MulLe(|block|, bufferSize, channels);
    assert |Flatten(block)| == channels * |block|;
    assert ExpectedSize(bufferSize, channels) == 4 + 4 * (channels * bufferSize);
  }

  /** A whole packet read at the head of the connection is one block. */
  lemma StreamHead(inbox: seq<Arrival>, rest: seq<Arrival>, p: Bytes, block: Rows<Word>,
                   sequence: nat, expected: int, channels: int)
    requires inbox == [Chunk(p)] + rest && 0 < |p| <= expected
    requires ParsePacket(p, channels) == Packet(sequence, block)
    ensures StreamBlocks(inbox, expected, channels) == [block] + StreamBlocks(rest, expected, channels)
  {
    assert inbox[1..] == rest;
  }

  // ---------------------------------------------------------------------
  // Channel modes
  // ---------------------------------------------------------------------

  /** The channel count `start_stream` sets for a channel mode. */
  function ChannelCount(channelMode: string): (n: nat)
    ensures n == 1 || n == 2 || n == 8
    ensures n == 1 <==> channelMode == "mono"
    ensures n == 2 <==> channelMode == "stereo"
  {
    if channelMode == "mono" then 1 else if channelMode == "stereo" then 2 else 8
  }

  /** The block the sender callback sends for a block of input: in mono
      the mean of each frame (float32 arithmetic, an input here) as a
      one-sample frame; in stereo the first two samples of each frame when
      the input has more than two channels; otherwise the input itself. */
  function SendBlock(indata: Rows<Word>, channelMode: string, mean: seq<Word> -> Word): (out: Rows<Word>)
    requires Uniform(indata)
    ensures |out| == |indata|
    ensures channelMode == "mono" ==> forall i :: 0 <= i < |out| ==> out[i] == [mean(indata[i])]
    ensures channelMode == "stereo" ==>
              forall i :: 0 <= i < |out| ==> out[i] == indata[i][..if |indata[i]| < 2 then |indata[i]| else 2]
    ensures channelMode != "mono" && channelMode != "stereo" ==> out == indata
  {
    if channelMode == "mono" then
      seq(|indata|, i requires 0 <= i < |indata| => [mean(indata[i])])
    else if channelMode == "stereo" && |indata| > 0 && |indata[0]| > 2 then
      seq(|indata|, i requires 0 <= i < |indata| => indata[i][..2])
    else
      indata
  }

  /** What the receiver reads back from one sender packet, when both ends
      run with the same channel mode and the input device delivers the
      channel count that mode opens it with: the sequence number and the
      block as sent. */
  lemma SentBlockReadsBack(sequence: int, indata: Rows<Word>, channelMode: string, mean: seq<Word> -> Word)
    requires 0 <= sequence < U32_LIMIT && HasWidth(indata, ChannelCount(channelMode))
    ensures var block := SendBlock(indata, channelMode, mean);
            HasWidth(block, ChannelCount(channelMode)) &&
            ParsePacket(SenderPacket(sequence, block).value, ChannelCount(channelMode)) == Packet(sequence, block)
  {
    var block := SendBlock(indata, channelMode, mean);
    var n := ChannelCount(channelMode);
    if channelMode == "stereo" {
      forall i | 0 <= i < |block| ensures |block[i]| == n {
        assert block[i] == indata[i][..2];
      }
    }
    ParseSenderPacket(sequence, block, n);
  }

  // ---------------------------------------------------------------------
  // The playback callback's copy
  // ---------------------------------------------------------------------

  /** `outdata[:] = block[:frames]` on a frames × width output. numpy
      broadcasts a block of one frame over every frame and a block of one
      sample per frame over every channel, and raises (None) on any other
      shape that differs from the output's. With no frames to fill, the
      output is empty whichever way numpy decides. */
  function Broadcast(block: Rows<Word>, frames: nat, width: nat): (r: Option<Rows<Word>>)
    requires Uniform(block)
    ensures r.Some? <==> frames == 0 ||
                         (block != [] && (|block| >= frames || |block| == 1) &&
                          (|block[0]| == width || |block[0]| == 1))
    ensures r.Some? ==> |r.value| == frames && HasWidth(r.value, width)
  {
    if frames == 0 then Some([])
    else if block != [] && (|block| >= frames || |block| == 1) && (|block[0]| == width || |block[0]| == 1) then
      Some(seq(frames, i requires 0 <= i < frames =>
        seq(width, j requires 0 <= j < width =>
          block[if |block| == 1 then 0 else i][if |block[0]| == 1 then 0 else j])))
    else None
  }

  /** A block with at least as many frames as the output, of the output's
      width, fills it with its first frames. */
  lemma BroadcastExact(block: Rows<Word>, frames: nat, width: nat)
    requires HasWidth(block, width) && |block| >= frames
    ensures Uniform(block) && Broadcast(block, frames, width) == Some(block[..frames])
  {
    if frames > 0 {
      var o := Broadcast(block, frames, width).value;
      forall i | 0 <= i < frames ensures o[i] == block[i] {
        forall j | 0 <= j < width ensures o[i][j] == block[i][j] {
          if |block| == 1 {
            assert i == 0;
          }
        }
      }
      assert o == block[..frames];
    }
  }

  /** A block of a single frame is repeated in every frame. */
  lemma BroadcastOneFrame(row: seq<Word>, frames: nat, width: nat)
    requires |row| == width
    ensures Uniform([row]) && Broadcast([row], frames, width) == Some(seq(frames, _ => row))
  {
    if frames > 0 {
      var o := Broadcast([row], frames, width).value;
      forall i | 0 <= i < frames ensures o[i] == row {
        forall j | 0 <= j < width ensures o[i][j] == row[j] {
          if width == 1 {
            assert j == 0;
          }
        }
      }
      assert o == seq(frames, _ => row);
    } else {
      assert seq(frames, _ => row) == [];
    }
  }

  /** A block with more than one frame but fewer than the output raises. */
  lemma BroadcastShort(block: Rows<Word>, frames: nat, width: nat)
    requires Uniform(block) && 1 < |block| < frames
    ensures Broadcast(block, frames, width).None?
  {
  }

  /** A frames × width output filled with a whole frames × width grid is
      that grid. */
  lemma FitWhole(grid: Rows<Word>, frames: nat, width: nat)
    requires |grid| == frames && HasWidth(grid, width)
    ensures Fit(grid, frames, width, SILENCE) == grid
  {
  }

  /** What the receiver callback leaves in a frames × width output for the
      block it popped: the broadcast block, or silence where numpy raised. */
  function Played(block: Rows<Word>, frames: nat, width: nat): (out: Rows<Word>)
    requires Uniform(block)
    ensures |out| == frames && HasWidth(out, width)
  {
    match Broadcast(block, frames, width)
    case Some(o) => o
    case None => Fit([], frames, width, SILENCE)
  }

  // ---------------------------------------------------------------------
  // The backend
  // ---------------------------------------------------------------------

  /** `deque(maxlen=100)`. */
  const CAPACITY: nat := 100

  predicate AllUniform(q: seq<Rows<Word>>)
  {
    forall k :: 0 <= k < |q| ==> Uniform(q[k])
  }

  lemma UniformAppend(q: seq<Rows<Word>>, b: Rows<Word>, maxlen: nat)
    requires AllUniform(q) && Uniform(b) && |q| <= maxlen
    ensures AllUniform(Append(q, b, maxlen))
  {
    var s := q + [b];
    var r := Append(q, b, maxlen);
    LastNSuffix(s, maxlen);
    assert r == s[|s| - |r|..];
    forall k | 0 <= k < |r| ensures Uniform(r[k]) {
      var i := |s| - |r| + k;
      assert r[k] == s[i];
      if i < |q| {
        assert s[i] == q[i];
      } else {
        assert s[i] == b;
      }
    }
  }

  /** The settings `start_stream` keeps in `self.config`, under the keys
      `sample_rate`, `buffer_size`, `channels`, `remote_host`,
      `remote_port` and `local_port`. */
  datatype Config = Config(sampleRate: int, bufferSize: int, channels: int,
                           remoteHost: string, remotePort: int, localPort: int)

  const DEFAULT_CONFIG: Config := Config(48000, 512, 2, "127.0.0.1", 5000, 5000)

  /** The keys a `start_stream` request may carry; an absent key is None.
      The settings are read under their snake_case dictionary keys
      (`sample_rate`, `buffer_size`, `channels`, `remote_host`,
      `remote_port`, `local_port`), since `self.config.update(config)`
      merges the request as given: a camelCase `sampleRate` or
      `bufferSize` is a different key and changes no setting. Only `mode`
      and `channelMode` are read under these spellings. */
  datatype Request = Request(sampleRate: Option<int>, bufferSize: Option<int>, channels: Option<int>,
                             remoteHost: Option<string>, remotePort: Option<int>, localPort: Option<int>,
                             mode: Option<string>, channelMode: Option<string>)

  /** `dict.get(key, default)`. */
  function Get<T>(o: Option<T>, default: T): (r: T)
    ensures o.Some? ==> r == o.value
    ensures o.None? ==> r == default
  {
    if o.Some? then o.value else default
  }

  /** `self.config.update(config)`, then the channel count the channel mode
      fixes, whatever the request said. */
  function Configured(c: Config, r: Request, channelMode: string): (n: Config)
    ensures n.channels == ChannelCount(channelMode)
    ensures n.bufferSize == Get(r.bufferSize, c.bufferSize) && n.localPort == Get(r.localPort, c.localPort)
  {
    Config(Get(r.sampleRate, c.sampleRate), Get(r.bufferSize, c.bufferSize), ChannelCount(channelMode),
           Get(r.remoteHost, c.remoteHost), Get(r.remotePort, c.remotePort), Get(r.localPort, c.localPort))
  }

  class AudioBackend {
    var isRunning: bool
    var stream: DeviceStream?
    /** The socket the sender connects, or the receiver listens on. */
    var socketObj: Sink?
    var clientSocket: Sink?
    var mode: string
    var channelMode: string
    const audioBuffer: Deque<Rows<Word>>
    var sequenceNumber: int
    var config: Config

    ghost predicate Valid()
      reads this, audioBuffer
    {
      audioBuffer.maxlen == CAPACITY && audioBuffer.Valid() && AllUniform(audioBuffer.items)
    }

    /** `__init__`: stopped, in sender mode, stereo, with an empty buffer,
        sequence number 0 and the default settings. */
    constructor ()
      ensures Valid() && fresh(audioBuffer)
      ensures !isRunning && stream == null && socketObj == null && clientSocket == null
      ensures mode == "sender" && channelMode == "stereo" && audioBuffer.items == []
      ensures sequenceNumber == 0 && config == DEFAULT_CONFIG
    {
      isRunning := false;
      stream := null;
      socketObj := null;
      clientSocket := null;
      mode := "sender";
      channelMode := "stereo";
      audioBuffer := new Deque(CAPACITY);
      sequenceNumber := 0;
      config := DEFAULT_CONFIG;
    }

    /** `audio_callback_sender`: the sequence number and the block's bytes
        through `sendall` when there is a client socket; the sequence
        number moves on only when the send went through. A failing pack or
        send is logged and swallowed. */
    method AudioCallbackSender(indata: Rows<Word>, ok: bool, mean: seq<Word> -> Word)
      requires Uniform(indata)
      modifies this`sequenceNumber, clientSocket
      ensures clientSocket == null ==> sequenceNumber == old(sequenceNumber)
      ensures clientSocket != null ==>
                var p := SenderPacket(old(sequenceNumber), SendBlock(indata, channelMode, mean));
                var done := p.Some? && ok && !old(clientSocket.closed);
                clientSocket.sent == (if done then old(clientSocket.sent) + [p.value] else old(clientSocket.sent)) &&
                sequenceNumber == (if done then old(sequenceNumber) + 1 else old(sequenceNumber)) &&
                clientSocket.closed == old(clientSocket.closed)
    {
      var audioData := SendBlock(indata, channelMode, mean);
      var packet := SenderPacket(sequenceNumber, audioData);
      if packet.None? {
        // struct.pack raises
        return;
      }
      if clientSocket != null {
        var done := clientSocket.Send(packet.value, ok);
        if done {
          sequenceNumber := sequenceNumber + 1;
        }
      }
    }

    /** `audio_callback_receiver`: pop the oldest block into the output, or
        fill it with silence when the buffer is empty. A block numpy cannot
        copy into the output has still been popped, and the output is
        silenced. */
    method AudioCallbackReceiver(outdata: array2<Word>)
      requires Valid()
      modifies outdata, audioBuffer
      ensures Valid()
      ensures old(audioBuffer.items) == [] ==>
                audioBuffer.items == [] && Grid(outdata) == Fit([], outdata.Length0, outdata.Length1, SILENCE)
      ensures old(audioBuffer.items) != [] ==>
                audioBuffer.items == old(audioBuffer.items)[1..] &&
                Grid(outdata) == Played(old(audioBuffer.items)[0], outdata.Length0, outdata.Length1)
    {
      if audioBuffer.items == [] {
        FillZeros(outdata, SILENCE);
        return;
      }
      var block := audioBuffer.PopLeft();
      var copied := Broadcast(block, outdata.Length0, outdata.Length1);
      if copied.Some? {
        FitWhole(copied.value, outdata.Length0, outdata.Length1);
        FillFrom(outdata, copied.value, SILENCE);
      } else {
        FillZeros(outdata, SILENCE);
      }
    }

    /** One pass of `receive_thread`'s loop: read at most `expected` bytes;
        false where the loop breaks (an empty or failing read, a payload
        numpy rejects); a read too short for a header is skipped, and a
        packet's block is appended to the buffer. */
    method ReceivePass(conn: Socket, expected: int, channels: int) returns (more: bool)
      requires Valid() && expected > 0
      modifies audioBuffer, conn
      ensures Valid() && conn.closed == old(conn.closed)
      ensures var r := RecvNext(old(conn.inbox), expected);
              conn.inbox == r.1 &&
              (more <==> r.0.Some? && r.0.value != [] && !ParsePacket(r.0.value, channels).Raised?) &&
              audioBuffer.items ==
                if more && ParsePacket(r.0.value, channels).Packet? then
                  Append(old(audioBuffer.items), ParsePacket(r.0.value, channels).block, CAPACITY)
                else old(audioBuffer.items)
    {
      var packet := conn.Recv(expected);
      if packet.None? || packet.value == [] {
        return false;
      }
      var parsed := ParsePacket(packet.value, channels);
      match parsed
      case TooShort =>
        more := true;
      case Raised =>
        more := false;
      case Packet(_, block) =>
        UniformAppend(audioBuffer.items, block, CAPACITY);
        audioBuffer.Append(block);
        more := true;
    }

    /** The read loop of `receive_thread` on the accepted connection: the
        buffer ends as if every block the connection delivers had been
        appended in order. */
    method ReceiveLoop(conn: Socket, expected: int, channels: int)
      requires Valid()
      modifies audioBuffer, conn
      ensures Valid() && conn.closed == old(conn.closed)
      ensures isRunning ==>
                audioBuffer.items == Extend(old(audioBuffer.items), StreamBlocks(old(conn.inbox), expected, channels), CAPACITY)
      ensures !isRunning ==> audioBuffer.items == old(audioBuffer.items)
    {
      if !isRunning {
        return;
      }
      // only `stop_stream` lowers the flag, so it stays up for the loop
      ghost var goal := Extend(audioBuffer.items, StreamBlocks(conn.inbox, expected, channels), CAPACITY);
      while true
        invariant Valid() && conn.closed == old(conn.closed)
        invariant Extend(audioBuffer.items, StreamBlocks(conn.inbox, expected, channels), CAPACITY) == goal
        decreases Size(conn.inbox)
      {
        if expected <= 0 {
          // `recv(0)` reads nothing and a negative size raises
          assert Extend(audioBuffer.items, [], CAPACITY) == audioBuffer.items;
          break;
        }
        var more := ReceiveStep(conn, expected, channels, goal);
        if !more {
          break;
        }
      }
    }

    /** A pass of the read loop keeps the buffer on its way to `goal`: the
        blocks still to come, appended to the buffer, give the same result,
        and the buffer is there once the loop breaks. */
    method ReceiveStep(conn: Socket, expected: int, channels: int, ghost goal: seq<Rows<Word>>) returns (more: bool)
      requires Valid() && expected > 0
      requires Extend(audioBuffer.items, StreamBlocks(conn.inbox, expected, channels), CAPACITY) == goal
      modifies audioBuffer, conn
      ensures Valid() && conn.closed == old(conn.closed)
      ensures more ==> Extend(audioBuffer.items, StreamBlocks(conn.inbox, expected, channels), CAPACITY) == goal
      ensures more ==> Size(conn.inbox) < Size(old(conn.inbox))
      ensures !more ==> audioBuffer.items == goal
    {
      ghost var q := audioBuffer.items;
      ghost var inbox := conn.inbox;
      StreamUnfold(inbox, expected, channels);
      ghost var r := RecvNext(inbox, expected);
      more := ReceivePass(conn, expected, channels);
      if !more {
        assert StreamBlocks(inbox, expected, channels) == [];
        assert Extend(q, [], CAPACITY) == q;
      } else {
        ghost var parsed := ParsePacket(r.0.value, channels);
        ghost var later := StreamBlocks(r.1, expected, channels);
        if parsed.Packet? {
          assert StreamBlocks(inbox, expected, channels) == [parsed.block] + later;
          ExtendCons(q, parsed.block, later, CAPACITY);
        } else {
          assert StreamBlocks(inbox, expected, channels) == later;
        }
      }
    }
  
    /** `receive_thread`: listen, take the connection (None where binding,
        listening or accepting raises), read it with at most
        `buffer_size * channels * 4 + 4` bytes per read, close it, and
        close the listening socket in any case. */
    method ReceiveThread(connection: Option<seq<Arrival>>)
      requires Valid()
      modifies this, audioBuffer
      ensures Valid() && fresh(socketObj) && socketObj.closed
      ensures isRunning == old(isRunning) && config == old(config) && stream == old(stream) &&
              clientSocket == old(clientSocket) && sequenceNumber == old(sequenceNumber) &&
              mode == old(mode) && channelMode == old(channelMode)
      ensures audioBuffer.items ==
                Extend(old(audioBuffer.items),
                       if isRunning && connection.Some? then
                         StreamBlocks(connection.value, ExpectedSize(config.bufferSize, config.channels), config.channels)
                       else [],
                       CAPACITY)
    {
      var listener := new Sink();
      socketObj := listener;
      if connection.Some? {
        var conn := new Socket(connection.value);
        var expected := ExpectedSize(config.bufferSize, config.channels);
        ReceiveLoop(conn, expected, config.channels);
        conn.Close();
      }
      if !(isRunning && connection.Some?) {
        assert Extend(audioBuffer.items, [], CAPACITY) == audioBuffer.items;
      }
      listener.Close();
    }

    /** `start_stream`: nothing while running. Otherwise merge the request
        into the settings, take the mode and channel mode (defaults
        "sender" and "stereo"), fix the channel count, raise the flag, and
        open the sender's connection (`connects`: whether `connect`
        succeeds) and the audio stream (`opens`: whether the device stream
        opens and starts). A failure stops everything again. The receive
        thread it launches in receiver mode is `ReceiveThread`. */
    method StartStream(r: Request, connects: bool, opens: bool)
      requires Valid()
      modifies this, stream, clientSocket, socketObj
      ensures Valid() && audioBuffer.items == old(audioBuffer.items) && sequenceNumber == old(sequenceNumber)
      ensures old(isRunning) ==>
                isRunning && config == old(config) && mode == old(mode) && channelMode == old(channelMode) &&
                stream == old(stream) && socketObj == old(socketObj) && clientSocket == old(clientSocket)
      ensures !old(isRunning) ==>
                mode == Get(r.mode, "sender") && channelMode == Get(r.channelMode, "stereo") &&
                config == Configured(old(config), r, channelMode)
      ensures !old(isRunning) ==> (isRunning <==> opens && (mode == "sender" ==> connects))
      ensures !old(isRunning) && isRunning ==> fresh(stream) && stream.active
      ensures !old(isRunning) && isRunning && mode == "sender" ==>
                fresh(socketObj) && clientSocket == socketObj && !socketObj.closed
      ensures !old(isRunning) && isRunning && mode != "sender" ==>
                socketObj == old(socketObj) && clientSocket == old(clientSocket)
      ensures !old(isRunning) && !isRunning ==> stream == null && socketObj == null && clientSocket == null
    {
      if isRunning {
        return;
      }
      mode := Get(r.mode, "sender");
      channelMode := Get(r.channelMode, "stereo");
      config := Configured(config, r, channelMode);
      isRunning := true;
      if mode == "sender" {
        var sock := new Sink();
        socketObj := sock;
        if !connects {
          StopStream();
          return;
        }
        clientSocket := sock;
      }
      if !opens {
        StopStream();
        return;
      }
      stream := new DeviceStream();
    }

    /** `stop_stream`: the flag down; the stream, the client socket and the
        socket each closed and dropped if present. The buffer, the settings
        and the sequence number are kept. */
    method StopStream()
      requires Valid()
      modifies this, stream, clientSocket, socketObj
      ensures Valid() && audioBuffer.items == old(audioBuffer.items)
      ensures !isRunning && stream == null && clientSocket == null && socketObj == null
      ensures old(stream) != null ==> old(stream).closed && !old(stream).active
      ensures old(clientSocket) != null ==> old(clientSocket).closed
      ensures old(socketObj) != null ==> old(socketObj).closed
      ensures config == old(config) && mode == old(mode) && channelMode == old(channelMode) &&
              sequenceNumber == old(sequenceNumber)
    {
      isRunning := false;
      if stream != null {
        stream.StopAndClose();
        stream := null;
      }
      if clientSocket != null {
        clientSocket.Close();
        clientSocket := null;
      }
      if socketObj != null {
        socketObj.Close();
        socketObj := null;
      }
    }
  }
}
