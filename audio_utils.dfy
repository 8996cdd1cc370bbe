/** Level metering helpers: dBFS of a block and the display normalisation
    of a dB value. `sqrt` and `log10` are parameters (the numeric
    functions are not modelled); the shape handling and the -60 dB floor
    are. */
module AudioUtils {
  import opened Common

  const FLOOR_DB: real := -60.0

  /** A numpy block as the metering code sees it: one-dimensional, or
      two-dimensional with `width` columns. */
  datatype Audio = Vector(samples: seq<real>) | Matrix(rows: seq<seq<real>>, width: nat)
  {
    predicate WellShaped()
    {
      Matrix? ==> forall i :: 0 <= i < |rows| ==> |rows[i]| == width
    }

    /** `audio_data.size`. */
    function Size(): nat
    {
      if Vector? then |samples| else |rows| * width
    }

    /** Column `j` of a matrix; a vector is its own column 0, as after
        `reshape(-1, 1)`. */
    function Column(j: nat): (c: seq<real>)
      requires WellShaped()
      requires if Vector? then j == 0 else j < width
      ensures |c| == if Vector? then |samples| else |rows|
    {
      if Vector? then samples else seq(|rows|, i requires 0 <= i < |rows| => rows[i][j])
    }
  }

  function Squares(s: seq<real>): (r: seq<real>)
    ensures |r| == |s|
  {
    seq(|s|, i requires 0 <= i < |s| => s[i] * s[i])
  }

  /** dB of one channel: `20·log10(rms)` when the RMS is positive, -60
      otherwise, floored at -60. */
  function ChannelDb(channel: seq<real>, sqrt: real -> real, log10: real -> real): (db: real)
    requires channel != []
    ensures db >= FLOOR_DB
    ensures sqrt(Mean(Squares(channel), 0.0)) <= 0.0 ==> db == FLOOR_DB
    ensures var level := 20.0 * log10(sqrt(Mean(Squares(channel), 0.0)));
            sqrt(Mean(Squares(channel), 0.0)) > 0.0 ==> db >= level && (db == level || db == FLOOR_DB)
  {
    var rms := sqrt(Mean(Squares(channel), 0.0));
    var db := if rms > 0.0 then 20.0 * log10(rms) else FLOOR_DB;
    if db > FLOOR_DB then db else FLOOR_DB
  }

  /** `calculate_db_fs`: (left, right) dB. An empty block gives
      (-60, -60); a vector or a single column meters the same channel
      twice. */
  function CalculateDbFs(audio: Audio, sqrt: real -> real, log10: real -> real): (r: (real, real))
    requires audio.WellShaped()
    ensures r.0 >= FLOOR_DB && r.1 >= FLOOR_DB
    ensures audio.Size() == 0 ==> r == (FLOOR_DB, FLOOR_DB)
    ensures (audio.Vector? || audio.width == 1) ==> r.1 == r.0
    ensures audio.Size() > 0 ==> r.0 == ChannelDb(audio.Column(0), sqrt, log10)
    ensures audio.Size() > 0 && audio.Matrix? && audio.width > 1 ==>
              r.1 == ChannelDb(audio.Column(1), sqrt, log10)
  {
    if audio.Size() == 0 then (FLOOR_DB, FLOOR_DB)
    else
      NonEmptyShape(audio);
      var left := ChannelDb(audio.Column(0), sqrt, log10);
      var right := if audio.Matrix? && audio.width > 1 then ChannelDb(audio.Column(1), sqrt, log10) else left;
      (left, right)
  }

  /** A non-empty matrix has at least one row and one column. */
  lemma NonEmptyShape(audio: Audio)
    requires audio.Size() > 0
    ensures audio.Vector? ==> audio.samples != []
    ensures audio.Matrix? ==> audio.rows != [] && audio.width > 0
  {
  }

  /** `normalize_db`: 0 at or below `minDb`, 1 at or above `maxDb`, linear
      in between. The division is reached only when minDb < db < maxDb. */
  function NormalizeDb(db: real, minDb: real, maxDb: real): (r: real)
    ensures 0.0 <= r <= 1.0
    ensures db <= minDb ==> r == 0.0
    ensures minDb < db && db >= maxDb ==> r == 1.0
    ensures minDb < db < maxDb ==> r * (maxDb - minDb) == db - minDb
  {
    if db <= minDb then 0.0
    else if db >= maxDb then 1.0
    else
      assert (maxDb - minDb) - (db - minDb) > 0.0;
      (db - minDb) / (maxDb - minDb)
  }

  /** A louder level never shows a shorter bar. */
  lemma NormalizeMonotone(a: real, b: real, minDb: real, maxDb: real)
    requires a <= b
    ensures NormalizeDb(a, minDb, maxDb) <= NormalizeDb(b, minDb, maxDb)
  {
    if minDb < a < maxDb && minDb < b < maxDb {
      var d := maxDb - minDb;
      assert NormalizeDb(b, minDb, maxDb) - NormalizeDb(a, minDb, maxDb) == (b - a) / d;
    }
  }
}
