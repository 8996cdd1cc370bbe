/** Filling the output buffer a playback callback is handed (`outdata`, a
    frames × channels array written in place). */
module Playback {
  import opened Pcm

  /** The contents of a frames × channels array as rows. */
  ghost function Grid<T>(a: array2<T>): (g: Rows<T>)
    reads a
    ensures |g| == a.Length0 && HasWidth(g, a.Length1)
  {
    seq(a.Length0, i requires 0 <= i < a.Length0 reads a =>
      seq(a.Length1, j requires 0 <= j < a.Length1 reads a => a[i, j]))
  }

  /** `outdata.fill(0)`. */
  method FillZeros<T>(outdata: array2<T>, zero: T)
    modifies outdata
    ensures Grid(outdata) == Fit([], outdata.Length0, outdata.Length1, zero)
  {
    FillFrom(outdata, [], zero);
  }

  /** `outdata[:] = chunk[:frames]` for a chunk of at least `frames`
      frames, or `outdata[:len(chunk)] = chunk` and zeros after it for a
      shorter one: the frames the chunk has, then silence. */
  method FillFrom<T>(outdata: array2<T>, chunk: Rows<T>, zero: T)
    requires HasWidth(chunk, outdata.Length1)
    modifies outdata
    ensures Grid(outdata) == Fit(chunk, outdata.Length0, outdata.Length1, zero)
  {
    var frames, width := outdata.Length0, outdata.Length1;
    var i := 0;
    while i < frames
      invariant 0 <= i <= frames
      invariant forall r, c :: 0 <= r < i && 0 <= c < width ==>
                  outdata[r, c] == OutputFrame(chunk, r, width, zero)[c]
    {
      var j := 0;
      while j < width
        invariant 0 <= j <= width
        invariant forall r, c :: 0 <= r < i && 0 <= c < width ==>
                    outdata[r, c] == OutputFrame(chunk, r, width, zero)[c]
        invariant forall c :: 0 <= c < j ==> outdata[i, c] == OutputFrame(chunk, i, width, zero)[c]
      {
        outdata[i, j] := if i < |chunk| then chunk[i][j] else zero;
        j := j + 1;
      }
      i := i + 1;
    }
    var g := Grid(outdata);
    var f := Fit(chunk, frames, width, zero);
    forall r | 0 <= r < frames ensures g[r] == f[r] {
      assert |g[r]| == |f[r]| == width;
      forall c | 0 <= c < width ensures g[r][c] == f[r][c] {
        assert f[r] == OutputFrame(chunk, r, width, zero);
      }
    }
  }
}
