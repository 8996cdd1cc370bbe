/** PCM blocks as numpy holds them: a block is a sequence of frames (rows),
    each frame one sample per channel. This module gives the byte layout of
    `ndarray.tobytes()` / `np.frombuffer(..., dtype=np.int16)`, the
    `reshape(-1, width)` that turns samples back into frames, the float to
    int16 cast, and the copy-or-zero-fill of an output buffer. */
module Pcm {
  import opened Common

  type Rows<T> = seq<seq<T>>

  /** Every frame of the block has exactly `width` samples. */
  predicate HasWidth<T>(rows: Rows<T>, width: nat)
  {
    forall i :: 0 <= i < |rows| ==> |rows[i]| == width
  }

  predicate IsInt16(x: int)
  {
    -32768 <= x < 32768
  }

  predicate AllInt16(xs: seq<int>)
  {
    forall i :: 0 <= i < |xs| ==> IsInt16(xs[i])
  }

  predicate RowsInt16(rows: Rows<int>)
  {
    forall i :: 0 <= i < |rows| ==> AllInt16(rows[i])
  }

  // ---------------------------------------------------------------------
  // Interleaving: row-major flattening and reshape(-1, width)
  // ---------------------------------------------------------------------

  /** Row-major (C order) flattening, the order `tobytes()` writes. */
  function Flatten<T>(rows: Rows<T>): seq<T>
  {
    if rows == [] then [] else rows[0] + Flatten(rows[1..])
  }

  lemma {:induction false} FlattenLength<T>(rows: Rows<T>, width: nat)
    requires HasWidth(rows, width)
    ensures |Flatten(rows)| == |rows| * width
  {
    if rows != [] {
      FlattenLength(rows[1..], width);
      assert |Flatten(rows)| == width + (|rows| - 1) * width;
    }
  }

  /** Removing one full group keeps a count that groups evenly. */
  lemma DropGroup(n: nat, width: nat)
    requires width > 0 && n > 0 && n % width == 0
    ensures n >= width && (n - width) % width == 0
  {
    var q := n / width;
    assert n == width * q;
    MulSign(width, q);
    ExactDiv(n - width, width, q - 1);
  }

  /** Consecutive groups of `width` samples. */
  function Chunks<T>(xs: seq<T>, width: nat): (rows: Rows<T>)
    requires width > 0 && |xs| % width == 0
    ensures HasWidth(rows, width)
    decreases |xs|
  {
    if |xs| == 0 then []
    else
      DropGroup(|xs|, width);
      [xs[..width]] + Chunks(xs[width..], width)
  }

  /** `xs.reshape(-1, width)`: numpy raises unless `width` is positive and
      divides the sample count. */
  function Reshape<T>(xs: seq<T>, width: int): (r: Option<Rows<T>>)
    ensures r.Some? <==> width > 0 && |xs| % width == 0
    ensures r.Some? ==> HasWidth(r.value, width) && Flatten(r.value) == xs
  {
    if width > 0 && |xs| % width == 0 then
      FlattenChunks(xs, width);
      Some(Chunks(xs, width))
    else None
  }

  lemma {:induction false} FlattenChunks<T>(xs: seq<T>, width: nat)
    requires width > 0 && |xs| % width == 0
    ensures Flatten(Chunks(xs, width)) == xs
    decreases |xs|
  {
    if |xs| > 0 {
      DropGroup(|xs|, width);
      FlattenChunks(xs[width..], width);
      assert xs[..width] + xs[width..] == xs;
    }
  }

  /** Reshaping a flattened block by its own width gives the block back. */
  lemma {:induction false} ReshapeFlatten<T>(rows: Rows<T>, width: nat)
    requires width > 0 && HasWidth(rows, width)
    ensures Reshape(Flatten(rows), width) == Some(rows)
  {
    ChunksFlatten(rows, width);
  }

  lemma {:induction false} ChunksFlatten<T>(rows: Rows<T>, width: nat)
    requires width > 0 && HasWidth(rows, width)
    ensures |Flatten(rows)| % width == 0 && Chunks(Flatten(rows), width) == rows
  {
    FlattenLength(rows, width);
    ExactDiv(|Flatten(rows)|, width, |rows|);
    if rows != [] {
      ChunksFlatten(rows[1..], width);
      var xs := Flatten(rows);
      assert xs == rows[0] + Flatten(rows[1..]);
      assert |xs| == width + |Flatten(rows[1..])|;
      assert xs[..width] == rows[0];
      assert xs[width..] == Flatten(rows[1..]);
    }
  }

  // ---------------------------------------------------------------------
  // Little-endian int16 bytes
  // ---------------------------------------------------------------------

  /** Two's complement little-endian encoding of one int16 sample. */
  function Int16Bytes(x: int): (b: Bytes)
    requires IsInt16(x)
    ensures |b| == 2
  {
    var u := if x < 0 then x + 0x1_0000 else x;
    [u % 256, u / 256]
  }

  function DecodeInt16(lo: Byte, hi: Byte): (x: int)
    ensures IsInt16(x)
  {
    var u := lo as int + 256 * hi as int;
    if u >= 0x8000 then u - 0x1_0000 else u
  }

  lemma DecodeInt16Bytes(x: int)
    requires IsInt16(x)
    ensures DecodeInt16(Int16Bytes(x)[0], Int16Bytes(x)[1]) == x
  {
  }

  /** `ndarray.tobytes()` of an int16 sample sequence. */
  function SamplesToBytes(xs: seq<int>): (b: Bytes)
    requires AllInt16(xs)
    ensures |b| == 2 * |xs|
  {
    if xs == [] then [] else Int16Bytes(xs[0]) + SamplesToBytes(xs[1..])
  }

  function DecodeAll(b: Bytes): (xs: seq<int>)
    requires |b| % 2 == 0
    ensures |xs| * 2 == |b| && AllInt16(xs)
    decreases |b|
  {
    if b == [] then [] else [DecodeInt16(b[0], b[1])] + DecodeAll(b[2..])
  }

  /** `np.frombuffer(b, dtype=np.int16)`, which raises when the byte count
      is not a multiple of the sample width. */
  function BytesToSamples(b: Bytes): (r: Option<seq<int>>)
    ensures r.Some? <==> |b| % 2 == 0
    ensures r.Some? ==> 2 * |r.value| == |b| && AllInt16(r.value)
  {
    if |b| % 2 == 0 then Some(DecodeAll(b)) else None
  }

  lemma {:induction false} BytesToSamplesRoundTrip(xs: seq<int>)
    requires AllInt16(xs)
    ensures BytesToSamples(SamplesToBytes(xs)) == Some(xs)
  {
    DecodeAllRoundTrip(xs);
  }

  lemma {:induction false} DecodeAllRoundTrip(xs: seq<int>)
    requires AllInt16(xs)
    ensures DecodeAll(SamplesToBytes(xs)) == xs
  {
    if xs != [] {
      var b := SamplesToBytes(xs);
      assert b == Int16Bytes(xs[0]) + SamplesToBytes(xs[1..]);
      assert b[2..] == SamplesToBytes(xs[1..]);
      DecodeAllRoundTrip(xs[1..]);
      DecodeInt16Bytes(xs[0]);
    }
  }

  lemma {:induction false} FlattenInt16(rows: Rows<int>)
    requires RowsInt16(rows)
    ensures AllInt16(Flatten(rows))
  {
    if rows != [] {
      FlattenInt16(rows[1..]);
    }
  }

  /** `block.tobytes()` for an int16 block. */
  function ToBytes(rows: Rows<int>): (b: Bytes)
    requires RowsInt16(rows)
    ensures |b| == 2 * |Flatten(rows)|
    ensures DecodeAll(b) == Flatten(rows)
  {
    FlattenInt16(rows);
    DecodeAllRoundTrip(Flatten(rows));
    SamplesToBytes(Flatten(rows))
  }

  /** `np.frombuffer(b, dtype=np.int16).reshape(-1, width)`: None where
      numpy raises. */
  function ParseBlock(b: Bytes, width: int): (r: Option<Rows<int>>)
    ensures r.Some? <==> width > 0 && |b| % 2 == 0 && (|b| / 2) % width == 0
    ensures r.Some? ==> HasWidth(r.value, width) && RowsInt16(r.value)
  {
    match BytesToSamples(b)
    case None => None
    case Some(xs) =>
      match Reshape(xs, width)
      case None => None
      case Some(rows) =>
        assert forall i :: 0 <= i < |rows| ==> AllInt16(rows[i]) by {
          ChunkedInt16(rows, xs, width);
        }
        Some(rows)
  }

  lemma ChunkedInt16(rows: Rows<int>, xs: seq<int>, width: nat)
    requires AllInt16(xs) && Flatten(rows) == xs
    ensures RowsInt16(rows)
  {
    forall i | 0 <= i < |rows| ensures AllInt16(rows[i]) {
      FlattenRowIn(rows, i);
    }
  }

  lemma {:induction false} FlattenRowIn<T>(rows: Rows<T>, i: nat)
    requires i < |rows|
    ensures forall j :: 0 <= j < |rows[i]| ==> rows[i][j] in Flatten(rows)
  {
    if i > 0 {
      FlattenRowIn(rows[1..], i - 1);
    }
  }

  /** Serialising an int16 block and parsing it back with the same width
      is the identity: the wire carries the block unchanged. */
  lemma ParseToBytes(rows: Rows<int>, width: nat)
    requires width > 0 && HasWidth(rows, width) && RowsInt16(rows)
    ensures ParseBlock(ToBytes(rows), width) == Some(rows)
  {
    FlattenInt16(rows);
    BytesToSamplesRoundTrip(Flatten(rows));
    ReshapeFlatten(rows, width);
  }

  // ---------------------------------------------------------------------
  // Casts
  // ---------------------------------------------------------------------

  /** Conversion of a real to an integer, truncating toward zero as C and
      numpy do. */
  function Trunc(x: real): (n: int)
    ensures x >= 0.0 ==> n as real <= x < n as real + 1.0
    ensures x < 0.0 ==> n as real - 1.0 < x <= n as real
  {
    if x >= 0.0 then x.Floor else -((-x).Floor)
  }

  /** Reduction modulo 2^16 into the int16 range. */
  function Wrap16(n: int): (r: int)
    ensures IsInt16(r) && (r - n) % 0x1_0000 == 0
    ensures IsInt16(n) ==> r == n
  {
    (n + 0x8000) % 0x1_0000 - 0x8000
  }

  /** `astype(np.int16)` of a float sample: truncation toward zero, then
      the 16-bit wrap of the common platforms. */
  function ToInt16(x: real): (r: int)
    ensures IsInt16(r)
    ensures -32768.0 <= x < 32768.0 ==> r == Trunc(x)
  {
    Wrap16(Trunc(x))
  }

  // ---------------------------------------------------------------------
  // Output buffers
  // ---------------------------------------------------------------------

  function Zeros<T>(width: nat, zero: T): (r: seq<T>)
    ensures |r| == width && forall j :: 0 <= j < width ==> r[j] == zero
  {
    seq(width, _ => zero)
  }

  /** Frame `i` of a chunk copied into an output buffer: the chunk's own
      frame when it has one, silence otherwise. */
  function OutputFrame<T>(chunk: Rows<T>, i: nat, width: nat, zero: T): (r: seq<T>)
    requires HasWidth(chunk, width)
    ensures |r| == width
  {
    if i < |chunk| then chunk[i] else Zeros(width, zero)
  }

  /** The output buffer after `outdata[:] = chunk[:frames]` (a chunk with at
      least `frames` frames) or `outdata[:len(chunk)] = chunk` followed by
      zero-filling the rest (a shorter chunk). */
  function Fit<T>(chunk: Rows<T>, frames: nat, width: nat, zero: T): (out: Rows<T>)
    requires HasWidth(chunk, width)
    ensures |out| == frames && HasWidth(out, width)
    ensures forall i :: 0 <= i < frames && i < |chunk| ==> out[i] == chunk[i]
    ensures forall i :: |chunk| <= i < frames ==> out[i] == Zeros(width, zero)
  {
    seq(frames, i requires 0 <= i < frames => OutputFrame(chunk, i, width, zero))
  }

  /** `chunk[:, 0].reshape(-1, 1)`: keep the first channel only. */
  function FirstColumn<T>(rows: Rows<T>): (r: Rows<T>)
    requires forall i :: 0 <= i < |rows| ==> |rows[i]| > 0
    ensures |r| == |rows| && HasWidth(r, 1)
    ensures forall i :: 0 <= i < |rows| ==> r[i] == [rows[i][0]]
  {
    seq(|rows|, i requires 0 <= i < |rows| => [rows[i][0]])
  }

  /** Every sample of a row multiplied by `g`. */
  function Scale(row: seq<real>, g: real): (r: seq<real>)
    ensures |r| == |row|
  {
    seq(|row|, i requires 0 <= i < |row| => row[i] * g)
  }

  /** Every sample of a block multiplied by `k`. */
  function ScaleAll(rows: Rows<real>, k: real): (out: Rows<real>)
    ensures |out| == |rows|
    ensures forall i :: 0 <= i < |rows| ==> out[i] == Scale(rows[i], k)
  {
    seq(|rows|, i requires 0 <= i < |rows| => Scale(rows[i], k))
  }
}
