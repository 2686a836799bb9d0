/** Frame-based audio features: frame and hop lengths, per-frame RMS, the
    low/mid/high band-energy ratios, spectral flux, onset density, and the
    truncation that gives every series the same length.

    The short-time Fourier transform is not modelled: its magnitudes arrive
    as a `Spectrogram` of nonnegative reals, one column per analysis frame.
    The square root inside RMS is a parameter. */
module Features {
  import opened Wrappers
  import opened Numeric
  import opened Bytes

  /** A spectral magnitude. */
  type Mag = r: real | r >= 0.0

  /** The `1e-12` added to every denominator. */
  const Epsilon: real := 0.000000000001

  /** `onset_density_from_flux`'s threshold as `extract_features` calls it. */
  const OnsetThreshold: real := 0.02

  // ---------------------------------------------------------------- framing

  datatype Framing = Framing(frameLen: int, hopLen: int)

  /** `frames_from_signal`: frame and hop lengths in samples, truncated
      toward zero, with 1024 and half the frame as fallbacks. */
  function FramesFromSignal(sr: int, frameMs: int, hopMs: int): (r: Framing)
    ensures r.frameLen >= 1 && r.hopLen >= 0
    ensures Trunc((sr * frameMs) as real / 1000.0) > 0 ==> r.frameLen == Trunc((sr * frameMs) as real / 1000.0)
    ensures Trunc((sr * hopMs) as real / 1000.0) > 0 ==> r.hopLen == Trunc((sr * hopMs) as real / 1000.0)
    ensures r.hopLen == 0 <==> Trunc((sr * hopMs) as real / 1000.0) <= 0 && r.frameLen == 1
  {
    var frameLen := Trunc((sr * frameMs) as real / 1000.0);
    var hopLen := Trunc((sr * hopMs) as real / 1000.0);
    var frameLen' := if frameLen <= 0 then 1024 else frameLen;
    var hopLen' := if hopLen <= 0 then frameLen' / 2 else hopLen;
    Framing(frameLen', hopLen')
  }

  /** At 10 Hz a 100 ms frame is one sample and a 50 ms hop truncates to
      zero, so the fallback hop `1 // 2` is zero as well. */
  lemma HopCanBeZero()
    ensures FramesFromSignal(10, 100, 50) == Framing(1, 0)
  {
    assert Trunc((10 * 100) as real / 1000.0) == 1;
    assert Trunc((10 * 50) as real / 1000.0) == 0;
  }

  /** The default 100 ms / 50 ms framing at 44.1 kHz. */
  lemma DefaultFraming()
    ensures FramesFromSignal(44100, 100, 50) == Framing(4410, 2205)
  {
    assert Trunc((44100 * 100) as real / 1000.0) == 4410;
    assert Trunc((44100 * 50) as real / 1000.0) == 2205;
  }

  // ------------------------------------------------------------ band energy

  datatype Band = Low | Mid | High

  /** The bins of each band: [20, 300), [300, 2000) and [2000, ∞) Hz. */
  predicate InBand(b: Band, freq: real)
  {
    match b
    case Low => 20.0 <= freq < 300.0
    case Mid => 300.0 <= freq < 2000.0
    case High => freq >= 2000.0
  }

  /** The sum of all magnitudes of one frame. */
  function Total(mag: seq<Mag>): (r: real)
    ensures r >= 0.0
  {
    if |mag| == 0 then 0.0 else Total(mag[..|mag| - 1]) + mag[|mag| - 1]
  }

  /** The sum of the magnitudes of one frame whose bin lies in band `b`;
      an empty band sums to zero. */
  function BandSum(freqs: seq<real>, mag: seq<Mag>, b: Band): (r: real)
    requires |freqs| == |mag|
    ensures r >= 0.0
  {
    if |mag| == 0 then 0.0
    else
      BandSum(freqs[..|freqs| - 1], mag[..|mag| - 1], b)
        + (if InBand(b, freqs[|freqs| - 1]) then mag[|mag| - 1] else 0.0)
  }

  /** The share of band `b` in one frame: its sum over the frame total. */
  function BandRatio(freqs: seq<real>, mag: seq<Mag>, b: Band): real
    requires |freqs| == |mag|
  {
    BandSum(freqs, mag, b) / (Total(mag) + Epsilon)
  }

  /** The three bands are disjoint, so together they hold at most the
      frame's total energy. */
  lemma {:induction false} BandsWithinTotal(freqs: seq<real>, mag: seq<Mag>)
    requires |freqs| == |mag|
    ensures BandSum(freqs, mag, Low) + BandSum(freqs, mag, Mid) + BandSum(freqs, mag, High) <= Total(mag)
  {
    if |mag| > 0 {
      BandsWithinTotal(freqs[..|freqs| - 1], mag[..|mag| - 1]);
    }
  }

  /** Every band ratio lies in [0, 1] and the three add up to at most 1. */
  lemma BandRatioBounds(freqs: seq<real>, mag: seq<Mag>)
    requires |freqs| == |mag|
    ensures 0.0 <= BandRatio(freqs, mag, Low) <= 1.0
    ensures 0.0 <= BandRatio(freqs, mag, Mid) <= 1.0
    ensures 0.0 <= BandRatio(freqs, mag, High) <= 1.0
    ensures BandRatio(freqs, mag, Low) + BandRatio(freqs, mag, Mid) + BandRatio(freqs, mag, High) <= 1.0
  {
    BandsWithinTotal(freqs, mag);
    PartsOfAWhole(BandSum(freqs, mag, Low), BandSum(freqs, mag, Mid), BandSum(freqs, mag, High),
      Total(mag) + Epsilon);
  }

  lemma PartsOfAWhole(a: real, b: real, c: real, d: real)
    requires 0.0 <= a && 0.0 <= b && 0.0 <= c && a + b + c < d
    ensures 0.0 <= a / d && 0.0 <= b / d && 0.0 <= c / d
    ensures a / d + b / d + c / d <= 1.0
  {
    assert a / d + b / d + c / d == (a + b + c) / d;
  }

  /** Magnitudes with their bin frequencies, one column per frame. */
  datatype Spectrogram = Spectrogram(freqs: seq<real>, columns: seq<seq<Mag>>) {
    /** Every column has one magnitude per frequency bin. */
    predicate WellShaped()
    {
      forall j :: 0 <= j < |columns| ==> |columns[j]| == |freqs|
    }
  }

  /** `band_energy_from_spectrogram`: per band, the ratio of every frame. */
  function BandEnergy(sp: Spectrogram): (r: map<Band, seq<real>>)
    requires sp.WellShaped()
    ensures r.Keys == {Low, Mid, High}
    ensures forall b :: b in r ==> |r[b]| == |sp.columns|
    ensures forall b, j :: b in r && 0 <= j < |sp.columns| ==> r[b][j] == BandRatio(sp.freqs, sp.columns[j], b)
    ensures forall b, j :: b in r && 0 <= j < |sp.columns| ==> 0.0 <= r[b][j] <= 1.0
  {
    var series := (b: Band) =>
      seq(|sp.columns|, j requires 0 <= j < |sp.columns| && sp.WellShaped() => BandRatio(sp.freqs, sp.columns[j], b));
    var r := map[Low := series(Low), Mid := series(Mid), High := series(High)];
    assert forall b, j :: b in r && 0 <= j < |sp.columns| ==> 0.0 <= r[b][j] <= 1.0 by {
      forall b, j | b in r && 0 <= j < |sp.columns|
        ensures 0.0 <= r[b][j] <= 1.0
      {
        BandRatioBounds(sp.freqs, sp.columns[j]);
      }
    }
    r
  }

  // -------------------------------------------------------------------- RMS

  function SumSquares(s: seq<real>): (r: real)
    ensures r >= 0.0
  {
    if |s| == 0 then 0.0 else SumSquares(s[..|s| - 1]) + s[|s| - 1] * s[|s| - 1]
  }

  /** The mean square of a non-empty frame. */
  function MeanSquare(frame: seq<real>): (r: Mag)
    requires |frame| > 0
  {
    NonnegQuotient(SumSquares(frame), |frame| as real);
    SumSquares(frame) / |frame| as real
  }

  lemma NonnegQuotient(a: real, b: real)
    requires a >= 0.0 && b > 0.0
    ensures a / b >= 0.0
  {
  }

  /** The RMS of the frame starting at `start`: the Python slice
      `x[start:start + frame_len]`, and 0 when that slice is empty. */
  function FrameRms(x: seq<real>, start: nat, frameLen: nat, sqrt: Mag -> Mag): real
  {
    var frame := Slice(x, start, start + frameLen);
    if |frame| == 0 then 0.0 else sqrt(MeanSquare(frame))
  }

  /** The number of RMS frames; the divisor is positive whenever the
      signal holds a whole frame (otherwise Python raises). */
  function RmsFrameCount(n: nat, frameLen: int, hopLen: int): (r: nat)
    requires n >= frameLen ==> hopLen > 0
    ensures r >= 1
  {
    if n >= frameLen then MaxInt(1, 1 + (n - frameLen) / hopLen) else 1
  }

  function MaxInt(a: int, b: int): int
  {
    if a >= b then a else b
  }

  datatype FeatureError = ZeroHop | ZeroSampleRate

  /** `compute_rms`: one value per frame, written into a zeroed array. A
      signal holding a whole frame with a zero hop divides by zero. */
  method ComputeRms(x: seq<real>, frameLen: int, hopLen: int, sqrt: Mag -> Mag)
    returns (r: Result<seq<real>, FeatureError>)
    requires frameLen >= 1 && hopLen >= 0
    ensures r.Err? <==> |x| >= frameLen && hopLen == 0
    ensures r.Ok? ==> |r.value| == RmsFrameCount(|x|, frameLen, hopLen)
    ensures r.Ok? ==> forall i :: 0 <= i < |r.value| ==>
      r.value[i] == FrameRms(x, i * hopLen, frameLen, sqrt) && r.value[i] >= 0.0
  {
    if |x| >= frameLen && hopLen == 0 {
      return Err(ZeroHop);
    }
    var nFrames := if |x| >= frameLen then MaxInt(1, 1 + (|x| - frameLen) / hopLen) else 1;
    assert nFrames == RmsFrameCount(|x|, frameLen, hopLen);
    var rms := RmsFrames(x, nFrames, frameLen, hopLen, sqrt);
    return Ok(rms);
  }

  /** The loop of `compute_rms`: frame `i` starts at `i * hopLen`, and its
      value is written into a zeroed array. */
  method RmsFrames(x: seq<real>, nFrames: nat, frameLen: nat, hopLen: nat, sqrt: Mag -> Mag) returns (r: seq<real>)
    ensures |r| == nFrames
    ensures forall i :: 0 <= i < nFrames ==> r[i] == FrameRms(x, i * hopLen, frameLen, sqrt) && r[i] >= 0.0
  {
    var rms := new real[nFrames](_ => 0.0);
    for i := 0 to nFrames
      invariant forall j :: 0 <= j < i ==> rms[j] == FrameRms(x, j * hopLen, frameLen, sqrt) && rms[j] >= 0.0
    {
      ProductIsNat(i, hopLen);
      var start: nat := i * hopLen;
      rms[i] := RmsOfFrame(x, start, frameLen, sqrt);
    }
    return rms[..];
  }

  /** One frame's RMS; a frame starting past the end is empty. */
  method RmsOfFrame(x: seq<real>, start: nat, frameLen: nat, sqrt: Mag -> Mag) returns (v: real)
    ensures v == FrameRms(x, start, frameLen, sqrt) && v >= 0.0
  {
    var frame := Slice(x, start, start + frameLen);
    if |frame| == 0 {
      v := 0.0;
    } else {
      v := sqrt(MeanSquare(frame));
    }
  }

  /** When the signal holds a whole frame, the frame count is exactly the
      number of whole frames at the hop: each one fits inside the signal,
      and one more would not. */
  lemma RmsFramesAreWhole(n: nat, frameLen: nat, hopLen: nat, i: nat)
    requires frameLen >= 1 && hopLen >= 1 && n >= frameLen
    ensures i < RmsFrameCount(n, frameLen, hopLen) ==> i * hopLen + frameLen <= n
    ensures RmsFrameCount(n, frameLen, hopLen) * hopLen + frameLen > n
  {
    var q := (n - frameLen) / hopLen;
    assert RmsFrameCount(n, frameLen, hopLen) == q + 1;
    assert q * hopLen <= n - frameLen < (q + 1) * hopLen;
    if i < q + 1 {
      MulMono(i, q, hopLen);
    }
  }

  lemma ProductIsNat(a: nat, b: nat)
    ensures a * b >= 0
  {
  }

  lemma MulMono(a: nat, b: nat, m: nat)
    requires a <= b
    ensures a * m <= b * m
  {
  }

  /** A signal shorter than one frame gives one value, the RMS of the whole
      signal, which is 0 for an empty signal. */
  lemma ShortSignalIsOneFrame(x: seq<real>, frameLen: nat, hopLen: nat, sqrt: Mag -> Mag)
    requires |x| < frameLen
    ensures RmsFrameCount(|x|, frameLen, hopLen) == 1
    ensures FrameRms(x, 0, frameLen, sqrt) == if |x| == 0 then 0.0 else sqrt(MeanSquare(x))
  {
    assert Slice(x, 0, frameLen) == x[0..|x|] == x;
  }

  // ---------------------------------------------------------- spectral flux

  /** All columns have the same number of bins. */
  predicate Rectangular(columns: seq<seq<Mag>>)
  {
    forall j :: 0 <= j < |columns| ==> |columns[j]| == |columns[0]|
  }

  /** One frame divided by its total (plus epsilon). */
  function Normalize(mag: seq<Mag>): (r: seq<real>)
    ensures |r| == |mag|
  {
    seq(|mag|, i requires 0 <= i < |mag| => mag[i] / (Total(mag) + Epsilon))
  }

  /** The summed positive part of `cur - prev`, bin by bin. */
  function PositiveRise(prev: seq<real>, cur: seq<real>): (r: real)
    requires |prev| == |cur|
    ensures r >= 0.0
  {
    if |cur| == 0 then 0.0
    else
      PositiveRise(prev[..|prev| - 1], cur[..|cur| - 1])
        + MaxR(0.0, cur[|cur| - 1] - prev[|prev| - 1])
  }

  /** A frame that did not change has no rise. */
  lemma {:induction false} NoRiseWithoutChange(v: seq<real>)
    ensures PositiveRise(v, v) == 0.0
  {
    if |v| > 0 {
      NoRiseWithoutChange(v[..|v| - 1]);
    }
  }

  /** The rise between normalised columns `k` and `k + 1`. */
  function FluxAt(columns: seq<seq<Mag>>, k: nat): real
    requires Rectangular(columns) && k + 1 < |columns|
  {
    PositiveRise(Normalize(columns[k]), Normalize(columns[k + 1]))
  }

  /** `spectral_flux`: a leading 0 and then the rise into every later
      frame, so a spectrogram with no columns still yields `[0.0]`. */
  function SpectralFlux(columns: seq<seq<Mag>>): (r: seq<real>)
    requires Rectangular(columns)
    ensures |r| == MaxInt(1, |columns|)
    ensures r[0] == 0.0
    ensures forall i :: 0 <= i < |r| ==> r[i] >= 0.0
  {
    var rises := if |columns| == 0 then 0 else |columns| - 1;
    [0.0] + seq(rises, k requires 0 <= k < rises && Rectangular(columns) => FluxAt(columns, k))
  }

  /** Two identical consecutive frames give zero flux. */
  lemma SteadySoundHasNoFlux(columns: seq<seq<Mag>>, k: nat)
    requires Rectangular(columns) && k + 1 < |columns| && columns[k] == columns[k + 1]
    ensures SpectralFlux(columns)[k + 1] == 0.0
  {
    NoRiseWithoutChange(Normalize(columns[k]));
  }

  /** Each flux value depends only on its own frame and the one before, so
      computing the flux of the first `m` frames is the same as cutting the
      flux of all frames to length `m`. */
  lemma FluxOfPrefix(columns: seq<seq<Mag>>, m: nat)
    requires Rectangular(columns) && m <= |columns|
    ensures Rectangular(columns[..m])
    ensures SpectralFlux(columns[..m])[..m] == SpectralFlux(columns)[..m]
  {
    var short := columns[..m];
    assert Rectangular(short) by {
      if m > 0 {
        assert forall j :: 0 <= j < m ==> short[j] == columns[j];
      }
    }
    var a, b := SpectralFlux(short)[..m], SpectralFlux(columns)[..m];
    forall k | 0 <= k < m
      ensures a[k] == b[k]
    {
      if k > 0 {
        assert FluxAt(short, k - 1) == FluxAt(columns, k - 1);
      }
    }
  }

  // ---------------------------------------------------------- onset density

  /** How many flux values exceed the threshold. */
  function CountAbove(flux: seq<real>, threshold: real): (c: nat)
    ensures c <= |flux|
  {
    if |flux| == 0 then 0
    else CountAbove(flux[..|flux| - 1], threshold) + (if flux[|flux| - 1] > threshold then 1 else 0)
  }

  lemma {:induction false} CountAboveExtremes(flux: seq<real>, threshold: real)
    ensures CountAbove(flux, threshold) == 0 <==> forall i :: 0 <= i < |flux| ==> flux[i] <= threshold
    ensures CountAbove(flux, threshold) == |flux| <==> forall i :: 0 <= i < |flux| ==> flux[i] > threshold
  {
    if |flux| > 0 {
      var init := flux[..|flux| - 1];
      CountAboveExtremes(init, threshold);
      assert forall i :: 0 <= i < |init| ==> init[i] == flux[i];
    }
  }

  /** `onset_density_from_flux`: the fraction of frames whose flux exceeds
      the threshold, 0 for no frames. */
  function OnsetDensity(flux: seq<real>, threshold: real): (r: real)
    ensures 0.0 <= r <= 1.0
    ensures |flux| == 0 ==> r == 0.0
  {
    if |flux| == 0 then 0.0
    else
      FractionInUnit(CountAbove(flux, threshold), |flux|);
      CountAbove(flux, threshold) as real / |flux| as real
  }

  lemma FractionInUnit(c: nat, n: nat)
    requires 0 < n && c <= n
    ensures 0.0 <= c as real / n as real <= 1.0
  {
  }

  /** The density is 0 exactly when no frame exceeds the threshold, and 1
      exactly when there are frames and every one does. */
  lemma OnsetDensityExtremes(flux: seq<real>, threshold: real)
    ensures OnsetDensity(flux, threshold) == 0.0 <==> forall i :: 0 <= i < |flux| ==> flux[i] <= threshold
    ensures OnsetDensity(flux, threshold) == 1.0 <==> |flux| > 0 && forall i :: 0 <= i < |flux| ==> flux[i] > threshold
  {
    CountAboveExtremes(flux, threshold);
    if |flux| > 0 {
      QuotientExtremes(CountAbove(flux, threshold) as real, |flux| as real);
    }
  }

  lemma QuotientExtremes(c: real, n: real)
    requires n > 0.0
    ensures c / n == 0.0 <==> c == 0.0
    ensures c / n == 1.0 <==> c == n
  {
    assert (c / n) * n == c;
  }

  // ------------------------------------------------------ extract_features

  /** The settings keys `extract_features` reads; a missing key is `None`. */
  datatype FeatureSettings = FeatureSettings(frameMs: Option<int>, hopMs: Option<int>, nFft: Option<int>)

  /** Frame length, hop length and FFT size in effect, defaults 100 ms,
      50 ms and 2048. The spectrogram handed to `ExtractFeatures` is the
      transform of the signal taken with this FFT size and hop. */
  function AnalysisParameters(sr: int, s: FeatureSettings): (r: (Framing, int))
    ensures s == FeatureSettings(None, None, None) ==> r == (FramesFromSignal(sr, 100, 50), 2048)
  {
    (FramesFromSignal(sr, s.frameMs.GetOr(100), s.hopMs.GetOr(50)), s.nFft.GetOr(2048))
  }

  datatype FeatureSeries = FeatureSeries(
    times: seq<real>,
    rms: seq<real>,
    bandLow: seq<real>,
    bandMid: seq<real>,
    bandHigh: seq<real>,
    flux: seq<real>,
    onsetDensity: real)

  /** `np.arange(n) * step` */
  function FrameTimes(n: nat, step: real): (r: seq<real>)
    ensures |r| == n && forall i :: 0 <= i < n ==> r[i] == i as real * step
  {
    seq(n, i => i as real * step)
  }

  /** The common length of every series `extract_features` returns. */
  function SeriesLength(x: seq<real>, sr: int, settings: FeatureSettings, sp: Spectrogram): nat
    requires var framing := AnalysisParameters(sr, settings).0;
      !(|x| >= framing.frameLen && framing.hopLen == 0)
  {
    var framing := AnalysisParameters(sr, settings).0;
    MinN(RmsFrameCount(|x|, framing.frameLen, framing.hopLen), |sp.columns|)
  }

  /** The loop over the band dictionary's keys: each series is cut, in
      place, to its first `n` values. */
  method TruncateBands(band: map<Band, seq<real>>, n: nat) returns (r: map<Band, seq<real>>)
    requires band.Keys == {Low, Mid, High}
    requires forall b :: b in band ==> |band[b]| >= n
    ensures r.Keys == band.Keys
    ensures forall b :: b in r ==> r[b] == band[b][..n]
  {
    r := band;
    var keys := [Low, Mid, High];
    for k := 0 to |keys|
      invariant r.Keys == band.Keys
      invariant forall b :: b in r ==> r[b] == if b in keys[..k] then band[b][..n] else band[b]
    {
      assert keys[..k + 1] == keys[..k] + [keys[k]];
      assert keys[k] !in keys[..k];
      r := r[keys[k] := r[keys[k]][..n]];
    }
    assert keys[..|keys|] == keys;
  }

  /** `extract_features`: every series is cut to the shorter of the RMS
      series and the spectrogram. A zero sample rate divides by zero when
      the frame times are computed. */
  method ExtractFeatures(x: seq<real>, sr: int, settings: FeatureSettings, sp: Spectrogram, sqrt: Mag -> Mag)
    returns (r: Result<FeatureSeries, FeatureError>)
    requires sp.WellShaped()
    ensures var framing := AnalysisParameters(sr, settings).0;
      r.Err? <==> sr == 0 || (|x| >= framing.frameLen && framing.hopLen == 0)
    ensures r.Ok? ==> var n := SeriesLength(x, sr, settings, sp);
      |r.value.times| == n && |r.value.rms| == n && |r.value.bandLow| == n &&
      |r.value.bandMid| == n && |r.value.bandHigh| == n && |r.value.flux| == n
    ensures r.Ok? ==> var hop := AnalysisParameters(sr, settings).0.hopLen;
      r.value.times == FrameTimes(|r.value.times|, hop as real / sr as real)
    ensures r.Ok? ==> var framing := AnalysisParameters(sr, settings).0;
      forall i :: 0 <= i < |r.value.rms| ==> r.value.rms[i] == FrameRms(x, i * framing.hopLen, framing.frameLen, sqrt)
    ensures r.Ok? ==> forall i :: 0 <= i < |r.value.bandLow| ==>
      r.value.bandLow[i] == BandRatio(sp.freqs, sp.columns[i], Low) &&
      r.value.bandMid[i] == BandRatio(sp.freqs, sp.columns[i], Mid) &&
      r.value.bandHigh[i] == BandRatio(sp.freqs, sp.columns[i], High)
    ensures r.Ok? ==> Rectangular(sp.columns)
    ensures r.Ok? ==> r.value.flux == SpectralFlux(sp.columns)[..SeriesLength(x, sr, settings, sp)]
    ensures r.Ok? ==> r.value.onsetDensity == OnsetDensity(r.value.flux, OnsetThreshold)
  {
    var framing := AnalysisParameters(sr, settings).0;
    if sr == 0 {
      return Err(ZeroSampleRate);
    }
    var nFrames := |sp.columns|;
    var step := framing.hopLen as real / sr as real;
    var times := FrameTimes(nFrames, step);
    var band := BandEnergy(sp);
    var rmsResult := ComputeRms(x, framing.frameLen, framing.hopLen, sqrt);
    if rmsResult.Err? {
      return Err(rmsResult.error);
    }
    var rms := rmsResult.value;
    var minLen := MinN(|rms|, nFrames);
    assert minLen == SeriesLength(x, sr, settings, sp);
    rms := rms[..minLen];
    band := TruncateBands(band, minLen);
    var columns := sp.columns[..minLen];
    assert Rectangular(sp.columns) by {
      assert forall j :: 0 <= j < |sp.columns| ==> |sp.columns[j]| == |sp.freqs|;
    }
    FluxOfPrefix(sp.columns, minLen);
    var flux := SpectralFlux(columns);
    flux := flux[..minLen];
    var onsetDensity := OnsetDensity(flux, OnsetThreshold);
    assert times[..minLen] == FrameTimes(minLen, step);
    r := Ok(FeatureSeries(times[..minLen], rms, band[Low], band[Mid], band[High], flux, onsetDensity));
  }
}
