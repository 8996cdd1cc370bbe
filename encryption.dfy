/** The secure framing codec: the detection-only "FEC" checksum stage, the
    AES-CFB cipher stage with its password-derived key, and the time-boxed
    token authenticator.

    The cryptographic primitives themselves (MD5 of RFC 1321, the AES-256
    block function, PBKDF2-HMAC-SHA256 of RFC 8018 section 5.2, SHA-256 of
    FIPS 180-4) are not modelled: each is a function-valued parameter of the
    object that uses it, typed with the output length the code relies on.
    The CFB mode of operation (section 6.3 of NIST SP 800-38A, with 128-bit
    segments, as the `cryptography` package's `modes.CFB` uses) is modelled
    over the abstract block function, so that decryption inverting
    encryption is proved rather than assumed. */
module Encryption {
  import opened Common

  const CHECKSUM_LEN: nat := 16
  const IV_LEN: nat := 16

  type Block16 = s: Bytes | |s| == 16
    witness [0, 0, 0, 0, 0, 0, 0, 0, 0, 0, 0, 0, 0, 0, 0, 0]

  type Key = s: Bytes | |s| == 32
    witness [0, 0, 0, 0, 0, 0, 0, 0, 0, 0, 0, 0, 0, 0, 0, 0,
             0, 0, 0, 0, 0, 0, 0, 0, 0, 0, 0, 0, 0, 0, 0, 0]

  /** A SHA-256 hex digest: 64 characters. */
  type HexDigest = s: string | |s| == 64
    witness "0000000000000000000000000000000000000000000000000000000000000000"

  // ---------------------------------------------------------------------
  // FECEncoder: append an MD5 checksum, split and compare it on decode
  // ---------------------------------------------------------------------

  /** `FECEncoder(redundancy)`; `md5` is the digest function. */
  datatype FecEncoder = FecEncoder(redundancy: int, md5: Bytes -> Block16)
  {
    predicate Enabled()
    {
      redundancy > 0
    }

    /** `encode`: the data followed by its 16-byte checksum. */
    function Encode(data: Bytes): (r: Bytes)
      ensures !Enabled() ==> r == data
      ensures Enabled() ==> |r| == |data| + CHECKSUM_LEN && r[..|data|] == data
      ensures Enabled() ==> r[|data|..] == md5(data)
    {
      if !Enabled() then data else data + md5(data)
    }

    /** `decode`: the payload and whether its checksum matched. */
    function Decode(data: Bytes): (r: (Bytes, bool))
      ensures !Enabled() ==> r == (data, true)
      ensures Enabled() && |data| < CHECKSUM_LEN ==> r == (data, false)
      ensures Enabled() && |data| >= CHECKSUM_LEN ==>
                |r.0| == |data| - CHECKSUM_LEN && r.0 + data[|r.0|..] == data
      ensures Enabled() && |data| >= CHECKSUM_LEN ==>
                (r.1 <==> data[|data| - CHECKSUM_LEN..] == md5(r.0))
    {
      if !Enabled() then (data, true)
      else if |data| < CHECKSUM_LEN then (data, false)
      else
        var payload := data[..|data| - CHECKSUM_LEN];
        var received := data[|data| - CHECKSUM_LEN..];
        assert payload + received == data;
        (payload, received == md5(payload))
    }

    /** Round trip: decoding an encoding gives the data back, marked valid. */
    lemma DecodeEncode(data: Bytes)
      ensures Decode(Encode(data)) == (data, true)
    {
      if Enabled() {
        var e := Encode(data);
        assert e[..|e| - CHECKSUM_LEN] == data;
      }
    }

    /** Decode accepts exactly the encodings of the payload it returns:
        a packet is reported valid iff it is `Encode` of that payload. */
    lemma ValidIffEncoding(data: Bytes)
      requires Enabled()
      ensures Decode(data).1 <==> Encode(Decode(data).0) == data
    {
      var (p, ok) := Decode(data);
      if |data| >= CHECKSUM_LEN {
        if Encode(p) == data {
          assert data[|p|..] == md5(p);
        }
        if ok {
          assert Encode(p) == p + data[|p|..];
        }
      }
    }
  }

  // ---------------------------------------------------------------------
  // CFB-128 over an abstract block cipher
  // ---------------------------------------------------------------------

  /** Bitwise exclusive or of the low `k` bits of `a` and `b`. */
  function XorBits(a: nat, b: nat, k: nat): (r: nat)
    ensures r < Pow2(k)
    decreases k
  {
    if k == 0 then 0 else (a % 2 + b % 2) % 2 + 2 * XorBits(a / 2, b / 2, k - 1)
  }

  /** The low bit of `XorBits` and what it leaves above that bit. */
  lemma XorBitsLow(a: nat, b: nat, k: nat)
    requires k > 0
    ensures XorBits(a, b, k) % 2 == (a % 2 + b % 2) % 2
    ensures XorBits(a, b, k) / 2 == XorBits(a / 2, b / 2, k - 1)
  {
  }

  /** XOR with the same value twice is the identity on `k`-bit numbers. */
  lemma {:induction false} XorBitsCancel(a: nat, b: nat, k: nat)
    requires a < Pow2(k)
    ensures XorBits(XorBits(a, b, k), b, k) == a
    decreases k
  {
    if k > 0 {
      var x := XorBits(a, b, k);
      XorBitsLow(a, b, k);
      assert a / 2 < Pow2(k - 1);
      XorBitsCancel(a / 2, b / 2, k - 1);
      assert XorBits(x, b, k) == (x % 2 + b % 2) % 2 + 2 * XorBits(x / 2, b / 2, k - 1);
      BitCancel(a % 2, b % 2);
    }
  }

  lemma BitCancel(p: nat, q: nat)
    requires p < 2 && q < 2
    ensures ((p + q) % 2 + q) % 2 == p
  {
    if p == 1 && q == 1 {
      assert (p + q) % 2 == 0;
    }
  }

  function XorByte(a: Byte, b: Byte): Byte
  {
    assert Pow2(8) == 256;
    XorBits(a, b, 8)
  }

  lemma XorByteCancel(a: Byte, b: Byte)
    ensures XorByte(XorByte(a, b), b) == a
  {
    assert Pow2(8) == 256;
    XorBitsCancel(a, b, 8);
  }

  /** XOR of a segment of at most 16 bytes with the leading keystream bytes. */
  function XorSegment(p: Bytes, ks: Block16): (c: Bytes)
    requires |p| <= 16
    ensures |c| == |p|
  {
    seq(|p|, i requires 0 <= i < |p| => XorByte(p[i], ks[i]))
  }

  lemma XorSegmentCancel(p: Bytes, ks: Block16)
    requires |p| <= 16
    ensures XorSegment(XorSegment(p, ks), ks) == p
  {
    forall i | 0 <= i < |p| ensures XorSegment(XorSegment(p, ks), ks)[i] == p[i] {
      XorByteCancel(p[i], ks[i]);
    }
  }

  /** CFB-128 encryption: each segment is the plaintext XOR the block
      function of the previous ciphertext segment (the IV first); a final
      short segment uses a prefix of the keystream block. */
  function CfbEncrypt(aes: (Key, Block16) -> Block16, key: Key, iv: Block16, p: Bytes): (c: Bytes)
    ensures |c| == |p|
    decreases |p|
  {
    if |p| == 0 then []
    else if |p| < 16 then XorSegment(p, aes(key, iv))
    else
      var c0: Block16 := XorSegment(p[..16], aes(key, iv));
      c0 + CfbEncrypt(aes, key, c0, p[16..])
  }

  /** CFB-128 decryption: the same keystream, fed back from the ciphertext. */
  function CfbDecrypt(aes: (Key, Block16) -> Block16, key: Key, iv: Block16, c: Bytes): (p: Bytes)
    ensures |p| == |c|
    decreases |c|
  {
    if |c| == 0 then []
    else if |c| < 16 then XorSegment(c, aes(key, iv))
    else
      var c0: Block16 := c[..16];
      XorSegment(c0, aes(key, iv)) + CfbDecrypt(aes, key, c0, c[16..])
  }

  /** CFB decryption inverts CFB encryption for the same key and IV, for any
      block function: the mode only ever runs the cipher forward. */
  lemma {:induction false} CfbRoundTrip(aes: (Key, Block16) -> Block16, key: Key, iv: Block16, p: Bytes)
    ensures CfbDecrypt(aes, key, iv, CfbEncrypt(aes, key, iv, p)) == p
    decreases |p|
  {
    if |p| == 0 {
    } else if |p| < 16 {
      XorSegmentCancel(p, aes(key, iv));
    } else {
      var c0: Block16 := XorSegment(p[..16], aes(key, iv));
      var rest := CfbEncrypt(aes, key, c0, p[16..]);
      var c := c0 + rest;
      assert c[..16] == c0 && c[16..] == rest;
      XorSegmentCancel(p[..16], aes(key, iv));
      CfbRoundTrip(aes, key, c0, p[16..]);
      assert p[..16] + p[16..] == p;
    }
  }

  // ---------------------------------------------------------------------
  // AudioEncryption
  // ---------------------------------------------------------------------

  /** The key-derivation salt `b'mpx_audio_salt_v1'`, as bytes. */
  const SALT: Bytes := [109, 112, 120, 95, 97, 117, 100, 105, 111, 95, 115, 97, 108, 116, 95, 118, 49]
  const KDF_ITERATIONS: nat := 100000
  const KEY_LEN: nat := 32

  class AudioEncryption {
    /** The AES-256 block function, keyed. */
    const aes: (Key, Block16) -> Block16
    /** PBKDF2-HMAC-SHA256 over (password, salt, iterations, length). */
    const pbkdf2: (string, Bytes, nat, nat) -> Key

    var enabled: bool
    var key: Option<Key>

    ghost predicate Valid()
      reads this
    {
      enabled <==> key.Some?
    }

    /** `AudioEncryption(password)`: a non-empty password enables the
        cipher at once; `None` or `""` leaves it disabled. */
    constructor (aes: (Key, Block16) -> Block16, pbkdf2: (string, Bytes, nat, nat) -> Key,
                 password: Option<string>)
      ensures Valid() && this.aes == aes && this.pbkdf2 == pbkdf2
      ensures enabled <==> password.Some? && password.value != ""
      ensures enabled ==> key == Some(pbkdf2(password.value, SALT, KDF_ITERATIONS, KEY_LEN))
    {
      this.aes := aes;
      this.pbkdf2 := pbkdf2;
      enabled := false;
      key := None;
      new;
      if password.Some? && password.value != "" {
        SetPassword(password.value);
      }
    }

    /** `set_password`: derive the key from the password and enable. */
    method SetPassword(password: string)
      modifies this
      ensures Valid() && enabled
      ensures key == Some(pbkdf2(password, SALT, KDF_ITERATIONS, KEY_LEN))
    {
      key := Some(pbkdf2(password, SALT, KDF_ITERATIONS, KEY_LEN));
      enabled := true;
    }

    /** `encrypt(data)` with the random IV given as `iv`: the IV followed by
        a ciphertext as long as the data; the identity while disabled. */
    function Encrypt(data: Bytes, iv: Block16): (r: Bytes)
      reads this
      requires Valid()
      ensures !enabled ==> r == data
      ensures enabled ==> |r| == IV_LEN + |data| && r[..IV_LEN] == iv
    {
      if !enabled then data else iv + CfbEncrypt(aes, key.value, iv, data)
    }

    /** `decrypt(data)`: the first 16 bytes are the IV. With fewer than 16
        bytes the cipher constructor raises (invalid IV size): None. */
    function Decrypt(data: Bytes): (r: Option<Bytes>)
      reads this
      requires Valid()
      ensures !enabled ==> r == Some(data)
      ensures enabled ==> (r.Some? <==> |data| >= IV_LEN)
      ensures enabled && r.Some? ==> |r.value| == |data| - IV_LEN
    {
      if !enabled then Some(data)
      else if |data| < IV_LEN then None
      else Some(CfbDecrypt(aes, key.value, data[..IV_LEN], data[IV_LEN..]))
    }

    /** `decrypt(encrypt(d)) == d` whatever the IV, enabled or not. */
    lemma DecryptEncrypt(data: Bytes, iv: Block16)
      requires Valid()
      ensures Decrypt(Encrypt(data, iv)) == Some(data)
    {
      if enabled {
        var e := Encrypt(data, iv);
        assert e[..IV_LEN] == iv;
        assert e[IV_LEN..] == CfbEncrypt(aes, key.value, iv, data);
        CfbRoundTrip(aes, key.value, iv, data);
      }
    }
  }

  // ---------------------------------------------------------------------
  // AuthenticationManager
  // ---------------------------------------------------------------------

  const TOKEN_TOLERANCE: real := 5.0

  /** `AuthenticationManager(shared_secret)`; `sha256Hex` is
      `hashlib.sha256(message.encode()).hexdigest()` and `showTime` the
      `str()` of a float timestamp. */
  datatype AuthenticationManager = AuthenticationManager(
    sharedSecret: Option<string>,
    sha256Hex: string -> HexDigest,
    showTime: real -> string)
  {
    /** Enabled whenever a secret was given, even an empty one. */
    predicate Enabled()
    {
      sharedSecret.Some?
    }

    /** `generate_token`: empty exactly when disabled. */
    function GenerateToken(timestamp: real): (t: string)
      ensures t == "" <==> !Enabled()
      ensures Enabled() ==> t == sha256Hex(showTime(timestamp) + ":" + sharedSecret.value)
    {
      if !Enabled() then "" else sha256Hex(showTime(timestamp) + ":" + sharedSecret.value)
    }

    /** `verify_token`, with the wall-clock time given as `now`. */
    function VerifyToken(token: string, timestamp: real, now: real, tolerance: real): (ok: bool)
      ensures !Enabled() ==> ok
      ensures Enabled() && Abs(now - timestamp) > tolerance ==> !ok
      ensures Enabled() && ok ==> token == GenerateToken(timestamp)
    {
      if !Enabled() then true
      else if Abs(now - timestamp) > tolerance then false
      else token == GenerateToken(timestamp)
    }

    /** Completeness: a token generated for a timestamp verifies while the
        clock is within the tolerance of it. Soundness is the last ensures
        of VerifyToken. */
    lemma GeneratedTokenVerifies(timestamp: real, now: real, tolerance: real)
      requires Abs(now - timestamp) <= tolerance
      ensures VerifyToken(GenerateToken(timestamp), timestamp, now, tolerance)
    {
    }
  }
}
