/** The DSP stages, over exact reals: automatic gain control with its
    per-frame gain update, the limiter clamp, the int16 processing chain,
    the peak-hold meter and the FFT window with its in-band maximum.
    `exp`, the FFT, the Hann window and `log10` are not modelled: the AGC
    coefficients are constructor parameters in (0, 1) and the per-bin dB
    spectrum is a function parameter. */
module AudioProcessing {
  import opened Common
  import opened Pcm
  import opened AudioUtils

  const TARGET_LEVEL: real := 0.7
  const AGC_EPS: real := 0.0000000001
  const LIMITER_THRESHOLD: real := 0.95
  const FULL_SCALE: real := 32768.0

  // ---------------------------------------------------------------------
  // AGC
  // ---------------------------------------------------------------------

  predicate NonEmptyRows(rows: Rows<real>)
  {
    forall i :: 0 <= i < |rows| ==> rows[i] != []
  }

  /** `np.abs(row).max()`. */
  function RowPeak(row: seq<real>): (p: real)
    requires row != []
    ensures p >= 0.0
    ensures forall i :: 0 <= i < |row| ==> Abs(row[i]) <= p
    ensures exists i :: 0 <= i < |row| && Abs(row[i]) == p
  {
    var mags := seq(|row|, i requires 0 <= i < |row| => Abs(row[i]));
    var m := MaxOf(mags);
    forall i | 0 <= i < |row| ensures Abs(row[i]) <= m {
      assert mags[i] in mags;
    }
    var k :| 0 <= k < |mags| && mags[k] == m;
    assert Abs(row[k]) == m;
    m
  }

  /** One AGC gain update for a frame whose peak is `level`: the attack
      branch when the level exceeds `gain · target`, the release branch
      (back towards unity) otherwise. Either way the gain moves from where
      it is towards the branch's goal without overshooting it. */
  function AgcStep(attack: real, release: real, gain: real, level: real): (g: real)
    requires level >= 0.0
    ensures var goal := if level > gain * TARGET_LEVEL then TARGET_LEVEL / (level + AGC_EPS) else 1.0;
            Coefficients(attack, release) ==>
              (gain <= goal ==> gain <= g <= goal) && (goal <= gain ==> goal <= g <= gain)
  {
    var attacking := level > gain * TARGET_LEVEL;
    var c := if attacking then attack else release;
    var goal := if attacking then TARGET_LEVEL / (level + AGC_EPS) else 1.0;
    var g := c * gain + (1.0 - c) * goal;
    if 0.0 < c < 1.0 then Convex(c, gain, goal); g else g
  }

  /** The gain after one update per frame of `rows`, starting from `g0`. */
  function FinalGain(attack: real, release: real, g0: real, rows: Rows<real>): (g: real)
    requires NonEmptyRows(rows)
    ensures rows == [] ==> g == g0
    ensures Coefficients(attack, release) && g0 > 0.0 ==> g > 0.0
    decreases |rows|
  {
    if rows == [] then g0
    else
      var prev := rows[..|rows| - 1];
      var g' := FinalGain(attack, release, g0, prev);
      var level := RowPeak(rows[|rows| - 1]);
      if Coefficients(attack, release) && g' > 0.0 then
        AgcStepPositive(attack, release, g', level);
        AgcStep(attack, release, g', level)
      else AgcStep(attack, release, g', level)
  }

  /** The AGC output: frame `k` scaled by the gain after its own update. */
  function AgcOutput(attack: real, release: real, g0: real, rows: Rows<real>): (out: Rows<real>)
    requires NonEmptyRows(rows)
    ensures |out| == |rows|
  {
    seq(|rows|, k requires 0 <= k < |rows| => Scale(rows[k], FinalGain(attack, release, g0, rows[..k + 1])))
  }

  predicate Coefficients(attack: real, release: real)
  {
    0.0 < attack < 1.0 && 0.0 < release < 1.0
  }

  /** An update keeps a positive gain positive. */
  lemma AgcStepPositive(attack: real, release: real, gain: real, level: real)
    requires Coefficients(attack, release) && gain > 0.0 && level >= 0.0
    ensures AgcStep(attack, release, gain, level) > 0.0
  {
    if level > gain * TARGET_LEVEL {
      assert TARGET_LEVEL / (level + AGC_EPS) > 0.0;
      assert (1.0 - attack) * (TARGET_LEVEL / (level + AGC_EPS)) > 0.0;
      assert attack * gain > 0.0;
    } else {
      assert release * gain > 0.0;
    }
  }

  lemma ProductNonNegative(a: real, b: real)
    requires a >= 0.0 && b >= 0.0
    ensures a * b >= 0.0
  {
  }

  /** `c·x + (1-c)·y` for `0 < c < 1` lies between `x` and `y`. */
  lemma Convex(c: real, x: real, y: real)
    requires 0.0 < c < 1.0
    ensures var z := c * x + (1.0 - c) * y;
            (x <= y ==> x <= z <= y) && (y <= x ==> y <= z <= x)
  {
    var z := c * x + (1.0 - c) * y;
    assert z - x == (1.0 - c) * (y - x);
    assert y - z == c * (y - x);
    if x <= y {
      ProductNonNegative(1.0 - c, y - x);
      ProductNonNegative(c, y - x);
    } else {
      ProductNonNegative(1.0 - c, x - y);
      ProductNonNegative(c, x - y);
      assert (1.0 - c) * (x - y) == -((1.0 - c) * (y - x));
      assert c * (x - y) == -(c * (y - x));
    }
  }

  /** The release branch is a convex combination of the gain and unity,
      so it moves the gain towards 1.0 and leaves 1.0 fixed. */
  lemma AgcReleaseTowardsUnity(attack: real, release: real, gain: real, level: real)
    requires Coefficients(attack, release) && level >= 0.0 && level <= gain * TARGET_LEVEL
    ensures var g := AgcStep(attack, release, gain, level);
            (gain <= 1.0 ==> gain <= g <= 1.0) && (gain >= 1.0 ==> 1.0 <= g <= gain)
  {
    Convex(release, gain, 1.0);
  }

  /** The attack branch is a convex combination of the gain and the gain
      that would bring the frame peak to the target level. */
  lemma AgcAttackTowardsTarget(attack: real, release: real, gain: real, level: real)
    requires Coefficients(attack, release) && level >= 0.0 && level > gain * TARGET_LEVEL
    ensures var g := AgcStep(attack, release, gain, level);
            var t := TARGET_LEVEL / (level + AGC_EPS);
            (gain <= t ==> gain <= g <= t) && (t <= gain ==> t <= g <= gain)
  {
    Convex(attack, gain, TARGET_LEVEL / (level + AGC_EPS));
  }

  /** Unfolding the gain over one more frame. */
  lemma FinalGainSnoc(attack: real, release: real, g0: real, rows: Rows<real>, i: nat)
    requires NonEmptyRows(rows) && i < |rows|
    ensures NonEmptyRows(rows[..i]) && NonEmptyRows(rows[..i + 1])
    ensures FinalGain(attack, release, g0, rows[..i + 1]) ==
              AgcStep(attack, release, FinalGain(attack, release, g0, rows[..i]), RowPeak(rows[i]))
  {
    assert rows[..i + 1][..i] == rows[..i];
  }

  predicate SilentRows(rows: Rows<real>)
  {
    forall i, j :: 0 <= i < |rows| && 0 <= j < |rows[i]| ==> rows[i][j] == 0.0
  }

  /** At unity gain a silent block keeps the gain at exactly 1.0. */
  lemma {:induction false} SilenceKeepsUnity(attack: real, release: real, rows: Rows<real>)
    requires NonEmptyRows(rows) && SilentRows(rows)
    ensures FinalGain(attack, release, 1.0, rows) == 1.0
    decreases |rows|
  {
    if rows != [] {
      var prev := rows[..|rows| - 1];
      SilenceKeepsUnity(attack, release, prev);
      var last := rows[|rows| - 1];
      assert RowPeak(last) == 0.0 by {
        assert forall i :: 0 <= i < |last| ==> Abs(last[i]) == 0.0;
      }
    }
  }

  /** ... and so the AGC output of a silent block is silent. */
  lemma SilenceOutputsSilence(attack: real, release: real, rows: Rows<real>)
    requires NonEmptyRows(rows) && SilentRows(rows)
    ensures AgcOutput(attack, release, 1.0, rows) == rows
  {
    var out := AgcOutput(attack, release, 1.0, rows);
    forall k | 0 <= k < |rows| ensures out[k] == rows[k] {
      assert rows[..k + 1][..k + 1] == rows[..k + 1];
      assert SilentRows(rows[..k + 1]);
      SilenceKeepsUnity(attack, release, rows[..k + 1]);
    }
  }

  // ---------------------------------------------------------------------
  // Limiter
  // ---------------------------------------------------------------------

  /** `np.clip(x, lo, hi)`, i.e. `min(max(x, lo), hi)`. */
  function Clip(x: real, lo: real, hi: real): (r: real)
    ensures r <= hi
    ensures lo <= hi ==> lo <= r
    ensures lo <= x <= hi ==> r == x
  {
    var y := if x < lo then lo else x;
    if y > hi then hi else y
  }

  function ClipRows(rows: Rows<real>, lo: real, hi: real): (out: Rows<real>)
    ensures |out| == |rows|
    ensures forall i :: 0 <= i < |rows| ==> |out[i]| == |rows[i]|
    ensures forall i, j :: 0 <= i < |rows| && 0 <= j < |rows[i]| ==> out[i][j] == Clip(rows[i][j], lo, hi)
  {
    seq(|rows|, i requires 0 <= i < |rows| =>
      seq(|rows[i]|, j requires 0 <= j < |rows[i]| => Clip(rows[i][j], lo, hi)))
  }

  function ToReal(rows: Rows<int>): (out: Rows<real>)
    ensures |out| == |rows|
    ensures forall i :: 0 <= i < |rows| ==> |out[i]| == |rows[i]|
    ensures forall i, j :: 0 <= i < |rows| && 0 <= j < |rows[i]| ==> out[i][j] == rows[i][j] as real / FULL_SCALE
  {
    seq(|rows|, i requires 0 <= i < |rows| =>
      seq(|rows[i]|, j requires 0 <= j < |rows[i]| => rows[i][j] as real / FULL_SCALE))
  }

  /** `(x * 32768.0).astype(np.int16)` for every sample. */
  function Quantise(rows: Rows<real>): (out: Rows<int>)
    ensures |out| == |rows| && RowsInt16(out)
    ensures forall i :: 0 <= i < |rows| ==> |out[i]| == |rows[i]|
    ensures forall i, j :: 0 <= i < |rows| && 0 <= j < |rows[i]| ==> out[i][j] == ToInt16(rows[i][j] * FULL_SCALE)
  {
    seq(|rows|, i requires 0 <= i < |rows| =>
      seq(|rows[i]|, j requires 0 <= j < |rows[i]| => ToInt16(rows[i][j] * FULL_SCALE)))
  }

  // ---------------------------------------------------------------------
  // AudioProcessor
  // ---------------------------------------------------------------------

  class AudioProcessor {
    const samplerate: int
    /** `exp(-1 / (samplerate · 0.005))`. */
    const attackCoef: real
    /** `exp(-1 / (samplerate · 0.1))`. */
    const releaseCoef: real
    var agcEnabled: bool
    var limiterEnabled: bool
    var currentGain: real

    ghost predicate Valid()
      reads this
    {
      Coefficients(attackCoef, releaseCoef) && currentGain > 0.0
    }

    constructor (samplerate: int, attackCoef: real, releaseCoef: real)
      requires Coefficients(attackCoef, releaseCoef)
      ensures Valid() && !agcEnabled && !limiterEnabled && currentGain == 1.0
      ensures this.samplerate == samplerate
      ensures this.attackCoef == attackCoef && this.releaseCoef == releaseCoef
    {
      this.samplerate := samplerate;
      this.attackCoef := attackCoef;
      this.releaseCoef := releaseCoef;
      agcEnabled := false;
      limiterEnabled := false;
      currentGain := 1.0;
    }

    /** `apply_agc`: the identity while disabled; otherwise one gain update
        per frame, each frame scaled by its updated gain. */
    method ApplyAgc(block: Rows<real>) returns (out: Rows<real>)
      requires Valid() && NonEmptyRows(block)
      modifies this
      ensures Valid()
      ensures agcEnabled == old(agcEnabled) && limiterEnabled == old(limiterEnabled)
      ensures !agcEnabled ==> out == block && currentGain == old(currentGain)
      ensures agcEnabled ==> out == AgcOutput(attackCoef, releaseCoef, old(currentGain), block)
      ensures agcEnabled ==> currentGain == FinalGain(attackCoef, releaseCoef, old(currentGain), block)
    {
      if !agcEnabled {
        return block;
      }
      ghost var g0 := currentGain;
      ghost var spec := AgcOutput(attackCoef, releaseCoef, g0, block);
      out := [];
      var i := 0;
      while i < |block|
        invariant 0 <= i <= |block|
        invariant agcEnabled && limiterEnabled == old(limiterEnabled)
        invariant NonEmptyRows(block[..i])
        invariant currentGain == FinalGain(attackCoef, releaseCoef, g0, block[..i])
        invariant currentGain > 0.0
        invariant out == spec[..i]
      {
        var level := RowPeak(block[i]);
        FinalGainSnoc(attackCoef, releaseCoef, g0, block, i);
        AgcStepPositive(attackCoef, releaseCoef, currentGain, level);
        currentGain := AgcStep(attackCoef, releaseCoef, currentGain, level);
        assert spec[i] == Scale(block[i], currentGain);
        PrefixSnoc(spec, i);
        out := out + [Scale(block[i], currentGain)];
        i := i + 1;
      }
      assert block[..|block|] == block;
      assert spec[..|block|] == spec;
    }

    /** `apply_limiter(block, threshold)`: the identity while disabled,
        otherwise every sample clipped to [-threshold, threshold]. */
    function ApplyLimiter(block: Rows<real>, threshold: real): (out: Rows<real>)
      reads this
      ensures !limiterEnabled ==> out == block
      ensures limiterEnabled ==>
                |out| == |block| && (forall i :: 0 <= i < |block| ==> |out[i]| == |block[i]|)
      ensures limiterEnabled && threshold >= 0.0 ==>
                forall i, j :: 0 <= i < |out| && 0 <= j < |out[i]| ==> -threshold <= out[i][j] <= threshold
      ensures limiterEnabled ==>
                forall i, j :: 0 <= i < |block| && 0 <= j < |block[i]| && -threshold <= block[i][j] <= threshold ==>
                  out[i][j] == block[i][j]
    {
      if !limiterEnabled then block else ClipRows(block, -threshold, threshold)
    }

    /** `process`: the chain `Processed` describes, run on the processor's
        switches and gain; the gain moves on as the AGC leaves it. */
    method Process(block: Rows<int>) returns (out: Rows<int>)
      requires Valid() && forall i :: 0 <= i < |block| ==> block[i] != []
      modifies this
      ensures Valid()
      ensures agcEnabled == old(agcEnabled) && limiterEnabled == old(limiterEnabled)
      ensures out == Processed(agcEnabled, limiterEnabled, attackCoef, releaseCoef, old(currentGain), block)
      ensures !agcEnabled ==> currentGain == old(currentGain)
      ensures agcEnabled ==> currentGain == FinalGain(attackCoef, releaseCoef, old(currentGain), ToReal(block))
    {
      var f := ToReal(block);
      var a := ApplyAgc(f);
      var l := ApplyLimiter(a, LIMITER_THRESHOLD);
      out := Quantise(l);
    }
  }

  /** The result of `process` on an int16 block: scale to [-1, 1), AGC from
      gain `g0` when `agcOn`, clip at 0.95 when `limiterOn`, scale back and
      convert with `astype(np.int16)`. */
  function Processed(agcOn: bool, limiterOn: bool, attack: real, release: real, g0: real,
                     block: Rows<int>): (out: Rows<int>)
    requires forall i :: 0 <= i < |block| ==> block[i] != []
    ensures |out| == |block| && RowsInt16(out)
    ensures forall i :: 0 <= i < |block| ==> |out[i]| == |block[i]|
  {
    var f := ToReal(block);
    var a := if agcOn then AgcOutput(attack, release, g0, f) else f;
    Quantise(if limiterOn then ClipRows(a, -LIMITER_THRESHOLD, LIMITER_THRESHOLD) else a)
  }

  /** With both stages off the chain gives back its int16 input: the
      scaling by 1/32768 and back is exact. */
  lemma ProcessedIdentity(attack: real, release: real, g0: real, block: Rows<int>)
    requires forall i :: 0 <= i < |block| ==> block[i] != []
    requires RowsInt16(block)
    ensures Processed(false, false, attack, release, g0, block) == block
  {
    var f := ToReal(block);
    var out := Processed(false, false, attack, release, g0, block);
    forall i | 0 <= i < |block| ensures out[i] == block[i] {
      forall j | 0 <= j < |block[i]| ensures out[i][j] == block[i][j] {
        assert f[i][j] * FULL_SCALE == block[i][j] as real;
      }
    }
  }

  /** With the limiter on no output sample exceeds 0.95 of full scale,
      whatever the AGC did. */
  lemma ProcessedLimited(agcOn: bool, attack: real, release: real, g0: real, block: Rows<int>)
    requires forall i :: 0 <= i < |block| ==> block[i] != []
    ensures var out := Processed(agcOn, true, attack, release, g0, block);
            forall i, j :: 0 <= i < |out| && 0 <= j < |out[i]| ==> -31129 <= out[i][j] <= 31129
  {
    var f := ToReal(block);
    var a := if agcOn then AgcOutput(attack, release, g0, f) else f;
    var l := ClipRows(a, -LIMITER_THRESHOLD, LIMITER_THRESHOLD);
    var out := Processed(agcOn, true, attack, release, g0, block);
    forall i, j | 0 <= i < |out| && 0 <= j < |out[i]| ensures -31129 <= out[i][j] <= 31129 {
      var x := l[i][j] * FULL_SCALE;
      assert -31129.6 <= x <= 31129.6;
    }
  }

  /** `AudioProcessor(samplerate)` followed by setting its two switches,
      as both pro programs do when they start. */
  method NewProcessor(samplerate: int, attackCoef: real, releaseCoef: real, agc: bool, limiter: bool)
    returns (p: AudioProcessor)
    requires Coefficients(attackCoef, releaseCoef)
    ensures fresh(p) && p.Valid() && p.agcEnabled == agc && p.limiterEnabled == limiter
    ensures p.currentGain == 1.0 && p.samplerate == samplerate
    ensures p.attackCoef == attackCoef && p.releaseCoef == releaseCoef
  {
    p := new AudioProcessor(samplerate, attackCoef, releaseCoef);
    p.agcEnabled := agc;
    p.limiterEnabled := limiter;
  }

  // ---------------------------------------------------------------------
  // PeakHolder
  // ---------------------------------------------------------------------

  const PEAK_FLOOR: real := -60.0

  /** One channel of `PeakHolder.update`: the new (peak, peak time). A
      louder level replaces the peak and restarts the hold; after the hold
      time the peak decays by a tenth of the decay rate, never below the
      level; within the hold time nothing changes. */
  function PeakStep(peak: real, peakTime: real, level: real, now: real, hold: real, decay: real): (r: (real, real))
    ensures r.0 >= level
    ensures level > peak ==> r == (level, now)
    ensures level <= peak ==> r.1 == peakTime
    ensures level <= peak && now - peakTime <= hold ==> r.0 == peak
    ensures level <= peak && now - peakTime > hold ==>
              r.0 >= peak - decay * 0.1 && (r.0 == level || r.0 == peak - decay * 0.1)
    ensures decay >= 0.0 ==> r.0 <= (if level > peak then level else peak)
  {
    if level > peak then (level, now)
    else if now - peakTime > hold then
      var decayed := peak - decay * 0.1;
      (if decayed > level then decayed else level, peakTime)
    else (peak, peakTime)
  }

  class PeakHolder {
    const holdTime: real
    const decayRate: real
    var peakLeft: real
    var peakRight: real
    var peakTimeLeft: real
    var peakTimeRight: real

    constructor (holdTime: real, decayRate: real)
      ensures this.holdTime == holdTime && this.decayRate == decayRate
      ensures peakLeft == PEAK_FLOOR && peakRight == PEAK_FLOOR
      ensures peakTimeLeft == 0.0 && peakTimeRight == 0.0
    {
      this.holdTime := holdTime;
      this.decayRate := decayRate;
      peakLeft, peakRight := PEAK_FLOOR, PEAK_FLOOR;
      peakTimeLeft, peakTimeRight := 0.0, 0.0;
    }

    /** `update(left_db, right_db)` with `time.time()` given as `now`; the
        two channels evolve independently. */
    method Update(leftDb: real, rightDb: real, now: real) returns (left: real, right: real)
      modifies this
      ensures (peakLeft, peakTimeLeft) == PeakStep(old(peakLeft), old(peakTimeLeft), leftDb, now, holdTime, decayRate)
      ensures (peakRight, peakTimeRight) == PeakStep(old(peakRight), old(peakTimeRight), rightDb, now, holdTime, decayRate)
      ensures left == peakLeft && right == peakRight
      ensures left >= leftDb && right >= rightDb
    {
      if leftDb > peakLeft {
        peakLeft := leftDb;
        peakTimeLeft := now;
      } else if now - peakTimeLeft > holdTime {
        peakLeft := peakLeft - decayRate * 0.1;
        peakLeft := if peakLeft > leftDb then peakLeft else leftDb;
      }
      if rightDb > peakRight {
        peakRight := rightDb;
        peakTimeRight := now;
      } else if now - peakTimeRight > holdTime {
        peakRight := peakRight - decayRate * 0.1;
        peakRight := if peakRight > rightDb then peakRight else rightDb;
      }
      left, right := peakLeft, peakRight;
    }
  }

  // ---------------------------------------------------------------------
  // FFTAnalyzer
  // ---------------------------------------------------------------------

  const PILOT_FREQ: real := 19000.0
  const PILOT_TOLERANCE: real := 100.0
  const SUBCARRIER_FREQ: real := 38000.0
  const SUBCARRIER_TOLERANCE: real := 200.0

  /** The samples `add_samples` keeps: column 0 of a matrix, a vector as is. */
  function Mono(audio: Audio): (m: seq<real>)
    requires audio.WellShaped() && (audio.Matrix? ==> audio.width > 0)
    ensures audio.Vector? ==> m == audio.samples
    ensures audio.Matrix? ==> |m| == |audio.rows| && forall i :: 0 <= i < |m| ==> m[i] == audio.rows[i][0]
  {
    audio.Column(0)
  }

  /** Channel 0 of an int16 block, as the FFT window stores it. */
  function Channel0(block: Rows<int>): (m: seq<real>)
    ensures |m| == |block|
  {
    seq(|block|, i requires 0 <= i < |block| => if block[i] != [] then block[i][0] as real else 0.0)
  }

  /** An int16 block of `width` channels handed to the metering and FFT
      code. */
  function AsAudio(block: Rows<int>, width: nat): (a: Audio)
    requires width > 0 && HasWidth(block, width)
    ensures a.WellShaped() && a.Matrix? && a.width > 0
    ensures Mono(a) == Channel0(block)
  {
    var a := Matrix(seq(|block|, i requires 0 <= i < |block| =>
                      seq(|block[i]|, j requires 0 <= j < |block[i]| => block[i][j] as real)), width);
    assert Mono(a) == Channel0(block);
    a
  }

  class FFTAnalyzer {
    const samplerate: int
    const fftSize: nat
    /** dB magnitude of bin `k` of the Hann-windowed real FFT of a window,
        `20·log10(|rfft(window·data)[k]| + 1e-10)`. */
    const binDb: (seq<real>, nat) -> real
    var buffer: seq<real>

    ghost predicate Valid()
      reads this
    {
      samplerate > 0 && fftSize > 0 && |buffer| <= fftSize
    }

    constructor (samplerate: int, fftSize: nat, binDb: (seq<real>, nat) -> real)
      requires samplerate > 0 && fftSize > 0
      ensures Valid() && buffer == []
      ensures this.samplerate == samplerate && this.fftSize == fftSize && this.binDb == binDb
    {
      this.samplerate := samplerate;
      this.fftSize := fftSize;
      this.binDb := binDb;
      buffer := [];
    }

    /** `add_samples`: the window keeps the last `fft_size` mono samples. */
    method AddSamples(audio: Audio)
      requires Valid() && audio.WellShaped() && (audio.Matrix? ==> audio.width > 0)
      modifies this
      ensures Valid()
      ensures buffer == LastN(old(buffer) + Mono(audio), fftSize)
    {
      buffer := Extend(buffer, Mono(audio), fftSize);
    }

    /** `rfftfreq(fft_size, 1 / samplerate)[k]`. */
    function BinFreq(k: nat): real
      requires fftSize > 0
    {
      k as real * samplerate as real / fftSize as real
    }

    predicate InBand(k: nat, lo: real, hi: real)
      requires fftSize > 0
    {
      k <= fftSize / 2 && lo <= BinFreq(k) <= hi
    }

    /** The largest dB over the in-band bins from `k` on, if there is one. */
    function BandMax(k: nat, lo: real, hi: real): (r: Option<real>)
      reads this
      requires fftSize > 0
      ensures r.None? <==> forall b: nat :: k <= b ==> !InBand(b, lo, hi)
      ensures r.Some? ==> exists b: nat :: k <= b && InBand(b, lo, hi) && r.value == binDb(buffer, b)
      ensures r.Some? ==> forall b: nat :: k <= b && InBand(b, lo, hi) ==> binDb(buffer, b) <= r.value
      decreases fftSize / 2 + 1 - k
    {
      if k > fftSize / 2 then None
      else
        var rest := BandMax(k + 1, lo, hi);
        if !InBand(k, lo, hi) then rest
        else if rest.None? || binDb(buffer, k) >= rest.value then Some(binDb(buffer, k))
        else rest
    }

    /** The level of the band [lo, hi]: -60 until the window is full (the
        `get_spectrum` guard) or when no bin lies in the band, bounds
        included. */
    function BandLevel(lo: real, hi: real): (level: real)
      reads this
      requires Valid()
      ensures |buffer| < fftSize ==> level == PEAK_FLOOR
      ensures (forall b: nat :: !InBand(b, lo, hi)) ==> level == PEAK_FLOOR
      ensures |buffer| == fftSize && (exists b: nat :: InBand(b, lo, hi)) ==>
                (exists b: nat :: InBand(b, lo, hi) && level == binDb(buffer, b)) &&
                (forall b: nat :: InBand(b, lo, hi) ==> binDb(buffer, b) <= level)
    {
      if |buffer| < fftSize then PEAK_FLOOR
      else
        var m := BandMax(0, lo, hi);
        if m.Some? then m.value else PEAK_FLOOR
    }

    /** `get_pilot_tone_level`: the band 19 kHz ± 100 Hz. */
    function PilotToneLevel(): (level: real)
      reads this
      requires Valid()
      ensures var lo, hi := PILOT_FREQ - PILOT_TOLERANCE, PILOT_FREQ + PILOT_TOLERANCE;
              (|buffer| < fftSize ==> level == PEAK_FLOOR) &&
              ((forall b: nat :: !InBand(b, lo, hi)) ==> level == PEAK_FLOOR) &&
              (|buffer| == fftSize && (exists b: nat :: InBand(b, lo, hi)) ==>
                 (exists b: nat :: InBand(b, lo, hi) && level == binDb(buffer, b)) &&
                 (forall b: nat :: InBand(b, lo, hi) ==> binDb(buffer, b) <= level))
    {
      BandLevel(PILOT_FREQ - PILOT_TOLERANCE, PILOT_FREQ + PILOT_TOLERANCE)
    }

    /** `get_subcarrier_level`: the band 38 kHz ± 200 Hz. */
    function SubcarrierLevel(): (level: real)
      reads this
      requires Valid()
      ensures var lo, hi := SUBCARRIER_FREQ - SUBCARRIER_TOLERANCE, SUBCARRIER_FREQ + SUBCARRIER_TOLERANCE;
              (|buffer| < fftSize ==> level == PEAK_FLOOR) &&
              ((forall b: nat :: !InBand(b, lo, hi)) ==> level == PEAK_FLOOR) &&
              (|buffer| == fftSize && (exists b: nat :: InBand(b, lo, hi)) ==>
                 (exists b: nat :: InBand(b, lo, hi) && level == binDb(buffer, b)) &&
                 (forall b: nat :: InBand(b, lo, hi) ==> binDb(buffer, b) <= level))
    {
      BandLevel(SUBCARRIER_FREQ - SUBCARRIER_TOLERANCE, SUBCARRIER_FREQ + SUBCARRIER_TOLERANCE)
    }
  }
}
