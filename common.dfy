/** Shared vocabulary: optional values, bytes, bounded deques and the
    big-endian 32-bit packing that `struct.pack('!I', n)` performs. */
module Common {

  datatype Option<T> = None | Some(value: T)

  type Byte = x: int | 0 <= x < 256
  type Bytes = seq<Byte>

  const U32_LIMIT: int := 0x1_0000_0000

  // ---------------------------------------------------------------------
  // Bounded deque (`collections.deque(maxlen=n)`)
  // ---------------------------------------------------------------------

  /** The last `n` elements of `s` (all of them when `s` is shorter). */
  function LastN<T>(s: seq<T>, n: nat): (r: seq<T>)
    ensures |r| == if |s| < n then |s| else n
  {
    if |s| <= n then s else s[|s| - n..]
  }

  /** The window `LastN` keeps is a suffix of its input. */
  lemma LastNSuffix<T>(s: seq<T>, n: nat)
    ensures LastN(s, n) == s[|s| - |LastN(s, n)|..]
  {
  }

  /** `q.append(x)` on a deque with `maxlen`: the oldest entry is evicted
      when the deque is full. */
  function Append<T>(q: seq<T>, x: T, maxlen: nat): (r: seq<T>)
    requires |q| <= maxlen
    ensures |r| <= maxlen
    ensures |q| < maxlen ==> r == q + [x]
    ensures |q| == maxlen > 0 ==> r == q[1..] + [x]
    ensures maxlen == 0 ==> r == []
  {
    LastN(q + [x], maxlen)
  }

  /** `q.extend(xs)` on a deque with `maxlen`. */
  function Extend<T>(q: seq<T>, xs: seq<T>, maxlen: nat): (r: seq<T>)
  {
    LastN(q + xs, maxlen)
  }

  /** Appending the elements one at a time, as `extend` does, is the same
      as keeping the last `maxlen` elements of the concatenation. */
  function AppendAll<T>(q: seq<T>, xs: seq<T>, maxlen: nat): seq<T>
    requires |q| <= maxlen
    decreases |xs|
  {
    if xs == [] then q else AppendAll(Append(q, xs[0], maxlen), xs[1..], maxlen)
  }

  lemma {:induction false} AppendAllIsExtend<T>(q: seq<T>, xs: seq<T>, maxlen: nat)
    requires |q| <= maxlen
    ensures AppendAll(q, xs, maxlen) == Extend(q, xs, maxlen)
    decreases |xs|
  {
    if xs == [] {
      assert q + xs == q;
    } else {
      var q' := Append(q, xs[0], maxlen);
      AppendAllIsExtend(q', xs[1..], maxlen);
      LastNOfLastN(q + [xs[0]], xs[1..], maxlen);
      assert q + [xs[0]] + xs[1..] == q + xs;
    }
  }

  /** Trimming before appending more does not change the final window. */
  lemma LastNOfLastN<T>(s: seq<T>, t: seq<T>, n: nat)
    ensures LastN(LastN(s, n) + t, n) == LastN(s + t, n)
  {
    var a := LastN(s, n);
    var l := LastN(a + t, n);
    var r := LastN(s + t, n);
    assert |l| == |r|;
    forall i | 0 <= i < |l| ensures l[i] == r[i] {
      var k := |a + t| - |l| + i;
      var k' := |s + t| - |r| + i;
      if k < |a| {
        assert l[i] == a[k] == s[|s| - |a| + k];
      } else {
        assert l[i] == t[k - |a|];
      }
    }
  }

  /** Appending one item and then extending is extending by both. */
  lemma ExtendCons<T>(q: seq<T>, x: T, xs: seq<T>, maxlen: nat)
    requires |q| <= maxlen
    ensures Extend(Append(q, x, maxlen), xs, maxlen) == Extend(q, [x] + xs, maxlen)
  {
    LastNOfLastN(q + [x], xs, maxlen);
    assert q + [x] + xs == q + ([x] + xs);
  }

  /** Extending by two runs one after the other is extending by both. */
  lemma ExtendTwice<T>(q: seq<T>, xs: seq<T>, ys: seq<T>, maxlen: nat)
    ensures Extend(Extend(q, xs, maxlen), ys, maxlen) == Extend(q, xs + ys, maxlen)
  {
    LastNOfLastN(q + xs, ys, maxlen);
    assert q + xs + ys == q + (xs + ys);
  }

  /** The deque invariant: a window never holds more than `maxlen` items. */
  lemma {:induction false} AppendAllBounded<T>(q: seq<T>, xs: seq<T>, maxlen: nat)
    requires |q| <= maxlen
    ensures |AppendAll(q, xs, maxlen)| <= maxlen
    ensures |AppendAll(q, xs, maxlen)| == if |q| + |xs| < maxlen then |q| + |xs| else maxlen
  {
    AppendAllIsExtend(q, xs, maxlen);
  }

  // ---------------------------------------------------------------------
  // struct.pack('!I', n) / struct.unpack('!I', b)
  // ---------------------------------------------------------------------

  /** Big-endian unsigned 32-bit packing; `struct.pack` raises
      `struct.error` outside 0 .. 2^32-1, modelled as None. */
  function PackU32(n: int): (r: Option<Bytes>)
    ensures r.Some? <==> 0 <= n < U32_LIMIT
    ensures r.Some? ==> |r.value| == 4
  {
    if 0 <= n < U32_LIMIT then
      Some([n / 0x100_0000 % 256, n / 0x1_0000 % 256, n / 0x100 % 256, n % 256])
    else
      None
  }

  /** `struct.unpack('!I', b)`, which raises unless `b` has exactly 4 bytes. */
  function UnpackU32(b: Bytes): (r: Option<nat>)
    ensures r.Some? <==> |b| == 4
    ensures r.Some? ==> r.value < U32_LIMIT
  {
    if |b| == 4 then Some(b[0] as int * 0x100_0000 + b[1] as int * 0x1_0000 + b[2] as int * 0x100 + b[3] as int)
    else None
  }

  lemma UnpackPack(n: int)
    requires 0 <= n < U32_LIMIT
    ensures UnpackU32(PackU32(n).value) == Some(n)
  {
    var a1, r0 := n / 0x100, n % 0x100;
    var a2, r1 := a1 / 0x100, a1 % 0x100;
    var a3, r2 := a2 / 0x100, a2 % 0x100;
    assert n == a2 * 0x1_0000 + (r1 * 0x100 + r0);
    assert n / 0x1_0000 == a2;
    assert n == a3 * 0x100_0000 + (r2 * 0x1_0000 + r1 * 0x100 + r0);
    assert n / 0x100_0000 == a3;
    assert PackU32(n).value == [a3, r2, r1, r0];
  }

  lemma PackUnpack(b: Bytes)
    requires |b| == 4
    ensures PackU32(UnpackU32(b).value) == Some(b)
  {
    var n := UnpackU32(b).value;
    var b0, b1, b2, b3 := b[0] as int, b[1] as int, b[2] as int, b[3] as int;
    assert n == ((b0 * 0x100 + b1) * 0x100 + b2) * 0x100 + b3;
    assert n / 0x100 == (b0 * 0x100 + b1) * 0x100 + b2 && n % 256 == b3;
    assert n / 0x1_0000 == (n / 0x100) / 0x100 == b0 * 0x100 + b1;
    assert (n / 0x100) % 256 == b2;
    assert n / 0x100_0000 == (n / 0x1_0000) / 0x100 == b0;
    assert (n / 0x1_0000) % 256 == b1;
    assert PackU32(n).value == [b0, b1, b2, b3] == b;
  }

  // ---------------------------------------------------------------------
  // Small numeric helpers
  // ---------------------------------------------------------------------

  /** Sign bounds of a product, the step linear arithmetic cannot take. */
  lemma MulSign(w: int, k: int)
    requires w > 0
    ensures k >= 1 ==> w * k >= w
    ensures k <= -1 ==> w * k <= -w
  {
  }

  lemma PrefixSnoc<T>(s: seq<T>, i: nat)
    requires i < |s|
    ensures s[..i + 1] == s[..i] + [s[i]]
  {
  }

  lemma ConcatLeft<T>(a: seq<T>, b: seq<T>, c: seq<T>)
    requires a == b
    ensures a + c == b + c
  {
  }

  lemma ConcatAssoc<T>(a: seq<T>, b: seq<T>, c: seq<T>)
    ensures a + (b + c) == (a + b) + c
  {
  }

  /** A multiple of `w` leaves no remainder and has the expected quotient. */
  lemma ExactDiv(m: int, w: int, q: int)
    requires w > 0 && m == w * q
    ensures m % w == 0 && m / w == q
  {
    var d, r := m / w, m % w;
    assert m == w * d + r && 0 <= r < w;
    assert w * (q - d) == r;
    MulSign(w, q - d);
  }

  function Abs(x: real): (r: real)
    ensures r >= 0.0 && (r == x || r == -x)
  {
    if x < 0.0 then -x else x
  }

  /** `max(lo, min(hi, x))` as written in the source. */
  function ClampReal(x: real, lo: real, hi: real): (r: real)
    requires lo <= hi
    ensures lo <= r <= hi
    ensures lo <= x <= hi ==> r == x
  {
    if x < lo then lo else if x > hi then hi else x
  }

  // ---------------------------------------------------------------------
  // Sums, extrema and means of real sequences
  // ---------------------------------------------------------------------

  function Sum(s: seq<real>): real
  {
    if s == [] then 0.0 else s[0] + Sum(s[1..])
  }

  function MaxOf(s: seq<real>): (m: real)
    requires s != []
    ensures m in s && forall x :: x in s ==> x <= m
  {
    if |s| == 1 then s[0]
    else
      var m := MaxOf(s[1..]);
      assert forall x :: x in s ==> x == s[0] || x in s[1..];
      if s[0] >= m then s[0] else m
  }

  function MinOf(s: seq<real>): (m: real)
    requires s != []
    ensures m in s && forall x :: x in s ==> m <= x
  {
    if |s| == 1 then s[0]
    else
      var m := MinOf(s[1..]);
      assert forall x :: x in s ==> x == s[0] || x in s[1..];
      if s[0] <= m then s[0] else m
  }

  /** A sum of values bounded by `lo` and `hi` lies between `|s|·lo`
      and `|s|·hi`. */
  lemma {:induction false} SumBounds(s: seq<real>, lo: real, hi: real)
    requires forall i :: 0 <= i < |s| ==> lo <= s[i] <= hi
    ensures |s| as real * lo <= Sum(s) <= |s| as real * hi
    decreases |s|
  {
    if s != [] {
      var t := s[1..];
      assert forall i :: 0 <= i < |t| ==> t[i] == s[i + 1];
      SumBounds(t, lo, hi);
      OneMore(|t| as real, |s| as real, Sum(t), s[0], lo, hi);
    }
  }

  /** The inductive step of `SumBounds`: one more term within the bounds. */
  lemma OneMore(n: real, m: real, rest: real, x: real, lo: real, hi: real)
    requires m == n + 1.0 && n * lo <= rest <= n * hi && lo <= x <= hi
    ensures m * lo <= x + rest <= m * hi
  {
    assert m * lo == n * lo + lo;
    assert m * hi == n * hi + hi;
  }
  /** The quotient of a value between `n·lo` and `n·hi` by `n > 0`. */
  lemma DivBounds(a: real, n: real, lo: real, hi: real)
    requires n > 0.0 && n * lo <= a <= n * hi
    ensures lo <= a / n <= hi
  {
    assert a / n - lo == (a - n * lo) / n;
    assert hi - a / n == (n * hi - a) / n;
  }

  /** `sum(s) / len(s)`, or `empty` for an empty window. */
  function Mean(s: seq<real>, empty: real): (m: real)
    ensures s == [] ==> m == empty
    ensures s != [] ==> MinOf(s) <= m <= MaxOf(s)
  {
    if s == [] then empty
    else
      MeanBounds(s);
      Sum(s) / |s| as real
  }

  lemma MeanBounds(s: seq<real>)
    requires s != []
    ensures MinOf(s) <= Sum(s) / |s| as real <= MaxOf(s)
  {
    WithinMinMax(s);
    AverageWithin(s, MinOf(s), MaxOf(s));
  }

  /** The mean of terms within bounds is within them. */
  lemma AverageWithin(s: seq<real>, lo: real, hi: real)
    requires s != [] && forall i :: 0 <= i < |s| ==> lo <= s[i] <= hi
    ensures lo <= Sum(s) / |s| as real <= hi
  {
    SumBounds(s, lo, hi);
    DivBounds(Sum(s), |s| as real, lo, hi);
  }

  lemma WithinMinMax(s: seq<real>)
    requires s != []
    ensures forall i :: 0 <= i < |s| ==> MinOf(s) <= s[i] <= MaxOf(s)
  {
    forall i | 0 <= i < |s| ensures MinOf(s) <= s[i] <= MaxOf(s) {
      assert s[i] in s;
    }
  }

  /** 2 to the power `k`. */
  function Pow2(k: nat): (p: nat)
    ensures p > 0
  {
    if k == 0 then 1 else 2 * Pow2(k - 1)
  }
}
