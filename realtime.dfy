/** The real-time scheduler of `main.py`: brightness scaling of a pixel
    payload, the (mode, highlight) → (channel, intensity) table, the light
    per-frame features, and `run_realtime`'s loop over fixed-size frames.

    The clock, the windowed FFT and the square root are parameters; the
    pixel socket is a sink, so every tick records the packets it sends. */
module Realtime {
  import opened Wrappers
  import opened Numeric
  import opened Bytes
  import Features
  import Modes
  import HD = HighlightDetection
  import PixelSender

  datatype ScheduleError =
    | IndexOutOfRange        // a payload whose length is not a multiple of 3
    | MissingAudio           // neither (x, sr) nor a file was supplied
    | ZeroFrameRate          // `1.0 / fps` with fps == 0
    | ZeroSampleRate         // `rfftfreq(n, d=1.0 / sr)` with sr == 0
    | MissingUpdateHighlight // `ModeManager` has no `update_highlight`

  // ------------------------------------------------- intensity scaling

  /** One byte scaled by `k` in [0, 1]: `int(b * k) & 0xFF`. */
  function ScaleByte(b: byte, k: real): (r: byte)
    requires 0.0 <= k <= 1.0
    ensures r <= b
    ensures k == 0.0 ==> r == 0
    ensures k == 1.0 ==> r == b
  {
    var y := Product(b, k);
    TruncWithinByte(y, b);
    Trunc(y) % 256
  }

  /** `b * k` as a float, within [0, b]. */
  function Product(b: byte, k: real): (y: real)
    requires 0.0 <= k <= 1.0
    ensures 0.0 <= y <= b as real
    ensures k == 0.0 ==> y == 0.0
    ensures k == 1.0 ==> y == b as real
  {
    ProductBound(b as real, k);
    b as real * k
  }

  lemma ProductBound(b: real, k: real)
    requires b >= 0.0 && 0.0 <= k <= 1.0
    ensures 0.0 <= b * k <= b
    ensures k == 0.0 ==> b * k == 0.0
    ensures k == 1.0 ==> b * k == b
  {
    assert b * (1.0 - k) >= 0.0;
  }

  lemma TruncWithinByte(y: real, b: byte)
    requires 0.0 <= y <= b as real
    ensures 0 <= Trunc(y) <= b && Trunc(y) % 256 == Trunc(y)
    ensures y == b as real ==> Trunc(y) == b
    ensures y == 0.0 ==> Trunc(y) == 0
  {
  }

  /** Every byte of a payload scaled by `k`. */
  function ScaleBytes(p: seq<byte>, k: real): (r: seq<byte>)
    requires 0.0 <= k <= 1.0
    ensures |r| == |p|
    ensures forall i :: 0 <= i < |p| ==> r[i] == ScaleByte(p[i], k)
  {
    seq(|p|, i requires 0 <= i < |p| => ScaleByte(p[i], k))
  }

  /** Scaling never brightens a byte, and zero intensity blacks out. */
  lemma ScalingDarkens(p: seq<byte>, k: real)
    requires 0.0 <= k <= 1.0
    ensures forall i :: 0 <= i < |p| ==> ScaleBytes(p, k)[i] <= p[i]
    ensures k == 0.0 ==> ScaleBytes(p, k) == Zeros(|p|)
    ensures k == 1.0 ==> ScaleBytes(p, k) == p
  {
  }

  /** `_adjust_payload_intensity`: the intensity is clamped to [0, 1]; at
      1.0 the payload is returned as is, otherwise it is rewritten in place
      one RGB triple at a time, and a trailing partial triple indexes past
      the end. */
  method AdjustPayloadIntensity(pixelData: seq<byte>, intensity: real) returns (r: Result<seq<byte>, ScheduleError>)
    ensures Clamp01(intensity) == 1.0 ==> r == Ok(pixelData)
    ensures Clamp01(intensity) < 1.0 ==> (r.Err? <==> |pixelData| % 3 != 0)
    ensures r.Err? ==> r.error == IndexOutOfRange
    ensures r.Ok? ==> r.value == ScaleBytes(pixelData, Clamp01(intensity))
  {
    var k := MaxR(0.0, MinR(1.0, intensity));
    if k == 1.0 {
      ScalingDarkens(pixelData, k);
      return Ok(pixelData);
    }
    var arr := new byte[|pixelData|](j requires 0 <= j < |pixelData| => pixelData[j]);
    var i := 0;
    while i < arr.Length
      invariant 0 <= i <= arr.Length && i % 3 == 0
      invariant forall j :: 0 <= j < i ==> arr[j] == ScaleByte(pixelData[j], k)
      invariant forall j :: i <= j < arr.Length ==> arr[j] == pixelData[j]
    {
      if i + 2 >= arr.Length {
        return Err(IndexOutOfRange);
      }
      ScaleTriple(arr, i, k);
      i := i + 3;
    }
    return Ok(arr[..]);
  }

  /** Rewrites the RGB triple at `i` in place. */
  method ScaleTriple(arr: array<byte>, i: nat, k: real)
    requires i + 2 < arr.Length && 0.0 <= k <= 1.0
    modifies arr
    ensures forall j :: i <= j < i + 3 ==> arr[j] == ScaleByte(old(arr[j]), k)
    ensures forall j :: 0 <= j < arr.Length && !(i <= j < i + 3) ==> arr[j] == old(arr[j])
  {
    arr[i] := ScaleByte(arr[i], k);
    arr[i + 1] := ScaleByte(arr[i + 1], k);
    arr[i + 2] := ScaleByte(arr[i + 2], k);
  }

  // --------------------------------------------------------- output table

  /** Which pixel output a frame goes to and how bright. */
  datatype Output = Output(channel: int, intensity: real)

  /** The mapping both loops apply before sending a frame. */
  function OutputFor(mode: Modes.Mode, hstate: HD.HighlightState): (r: Output)
    ensures 0.0 < r.intensity <= 1.0
  {
    match mode
    case Idle => Output(3, 0.3)
    case Speech => Output(1, 0.7)
    case Music =>
      if hstate == HD.Highlight then Output(0, 1.0)
      else if hstate == HD.Drop then Output(0, 0.3)
      else Output(0, 0.7)
  }

  /** Each mode has its own channel; the highlight state matters only for
      MUSIC, where only HIGHLIGHT is at full brightness and DROP is dimmest. */
  lemma OutputTable(mode: Modes.Mode, hstate: HD.HighlightState, other: HD.HighlightState)
    ensures OutputFor(mode, hstate).channel == 3 <==> mode == Modes.Idle
    ensures OutputFor(mode, hstate).channel == 1 <==> mode == Modes.Speech
    ensures OutputFor(mode, hstate).channel == 0 <==> mode == Modes.Music
    ensures mode != Modes.Music ==> OutputFor(mode, hstate) == OutputFor(mode, other)
    ensures OutputFor(mode, hstate).intensity == 1.0 <==> mode == Modes.Music && hstate == HD.Highlight
    ensures mode == Modes.Music ==> OutputFor(mode, HD.Drop).intensity <= OutputFor(mode, hstate).intensity
  {
  }

  const PixelCount: nat := 64
  const BasePort: int := 9000

  /** One pixel frame handed to the sender. */
  datatype PixelFrame = PixelFrame(port: int, outputId: int, frameIndex: int, packets: seq<seq<byte>>)

  /** The dummy pattern of the output's channel at its intensity. */
  function FramePayload(o: Output): seq<byte>
    requires 0.0 <= o.intensity <= 1.0
  {
    ScaleBytes(PixelSender.DummyPixelData(PixelCount, o.channel), o.intensity)
  }

  /** The frame sent for output `o`: port 9000 + channel, output id
      channel + 1, the payload cut into packets at the default MTU. */
  function PixelFrameOf(o: Output, frameIndex: int): PixelFrame
    requires 0.0 <= o.intensity <= 1.0
  {
    PixelFrame(BasePort + o.channel, o.channel + 1, frameIndex,
      PixelSender.FramePackets(PixelSender.DefaultMtu, FramePayload(o), o.channel + 1, frameIndex))
  }

  /** A 64-pixel frame fits one datagram: header plus 192 data bytes. */
  lemma OneDatagramPerFrame(o: Output, frameIndex: int)
    requires 0.0 <= o.intensity <= 1.0
    ensures |PixelFrameOf(o, frameIndex).packets| == 1
    ensures |PixelFrameOf(o, frameIndex).packets[0]| == PixelSender.HeaderSize + 3 * PixelCount
  {
    var plan := PixelSender.ChunkPayload(PixelSender.DefaultMtu, 3 * PixelCount);
    assert plan.maxPerPacket == 1388;
    assert plan.totalChunks == 1;
    PixelSender.ChunkSizes(PixelSender.DefaultMtu, FramePayload(o), o.channel + 1, frameIndex, 0);
  }

  /** The mapping, the dummy payload, the brightness and the send, as both
      loops do them for one frame. */
  method SendPixelFrame(mode: Modes.Mode, hstate: HD.HighlightState, frameIndex: int) returns (f: PixelFrame)
    ensures f == PixelFrameOf(OutputFor(mode, hstate), frameIndex)
  {
    var ch, intensity;
    if mode == Modes.Idle {
      ch, intensity := 3, 0.3;
    } else if mode == Modes.Speech {
      ch, intensity := 1, 0.7;
    } else {
      ch := 0;
      if hstate == HD.Highlight {
        intensity := 1.0;
      } else if hstate == HD.Drop {
        intensity := 0.3;
      } else {
        intensity := 0.7;
      }
    }
    var payload := PixelSender.GenerateDummyPixelData(PixelCount, ch);
    var adjusted := AdjustPayloadIntensity(payload, intensity);
    assert adjusted.Ok?;
    var packets := PixelSender.SendFrame(PixelSender.DefaultMtu, adjusted.value, ch + 1, frameIndex);
    f := PixelFrame(BasePort + ch, ch + 1, frameIndex, packets);
  }

  // ------------------------------------------------------ frame features

  /** Magnitudes of a frame's real FFT with the bin frequencies. */
  datatype Spectrum = Spectrum(freqs: seq<real>, mag: seq<Features.Mag>)

  /** `rfftfreq(n, 1/sr)` and `abs(rfft(frame * hanning(n)))`: `n // 2 + 1`
      bins, bin `k` at `k * sr / n` Hz; the magnitude of each bin is the
      parameter. */
  function SpectrumOf(frame: seq<real>, sr: int, binMagnitude: (seq<real>, nat) -> Features.Mag): (r: Spectrum)
    requires |frame| > 0
    ensures |r.freqs| == |r.mag| == |frame| / 2 + 1
  {
    var bins := |frame| / 2 + 1;
    Spectrum(seq(bins, k => k as real * sr as real / |frame| as real),
      seq(bins, k requires 0 <= k => binMagnitude(frame, k)))
  }

  /** The feature keys of one live frame (no onset density). */
  datatype FrameFeatures = FrameFeatures(rms: real, bandLow: real, bandMid: real, bandHigh: real, flux: real)

  const SilentFrame := FrameFeatures(0.0, 0.0, 0.0, 0.0, 0.0)

  /** Bounds every live frame's features obey. */
  predicate FeaturesInRange(f: FrameFeatures)
  {
    f.rms >= 0.0 && f.flux >= 0.0 &&
    0.0 <= f.bandLow <= 1.0 && 0.0 <= f.bandMid <= 1.0 && 0.0 <= f.bandHigh <= 1.0 &&
    f.bandLow + f.bandMid + f.bandHigh <= 1.0
  }

  /** The streaming flux: the summed rise over the previous frame's
      magnitudes, relative to their total; 0 without a previous frame of
      the same shape. */
  function StreamingFlux(prevMag: Option<seq<Features.Mag>>, mag: seq<Features.Mag>): (r: real)
    ensures r >= 0.0
    ensures prevMag.None? || |prevMag.value| != |mag| ==> r == 0.0
  {
    if prevMag.None? || |prevMag.value| != |mag| then 0.0
    else
      Features.NonnegQuotient(Features.PositiveRise(prevMag.value, mag), Features.Total(prevMag.value) + Features.Epsilon);
      Features.PositiveRise(prevMag.value, mag) / (Features.Total(prevMag.value) + Features.Epsilon)
  }

  /** A spectrum identical to the previous one has no flux. */
  lemma UnchangedSpectrumHasNoFlux(mag: seq<Features.Mag>)
    ensures StreamingFlux(Some(mag), mag) == 0.0
  {
    Features.NoRiseWithoutChange(mag);
  }

  /** `_frame_features_from_buffer`: an empty frame gives silence and no
      spectrum; otherwise RMS, the three band ratios over the frame's
      spectrum and the streaming flux, with the spectrum carried forward. */
  function FrameFeaturesFromBuffer(frame: seq<real>, sr: int, prevMag: Option<seq<Features.Mag>>,
                                   binMagnitude: (seq<real>, nat) -> Features.Mag, sqrt: Features.Mag -> Features.Mag)
    : (r: Result<(FrameFeatures, Option<seq<Features.Mag>>), ScheduleError>)
    ensures |frame| == 0 ==> r == Ok((SilentFrame, None))
    ensures r.Err? <==> |frame| > 0 && sr == 0
    ensures r.Err? ==> r.error == ZeroSampleRate
    ensures r.Ok? && |frame| > 0 ==> r.value.1 == Some(SpectrumOf(frame, sr, binMagnitude).mag)
    ensures r.Ok? && |frame| > 0 ==> r.value.0.flux == StreamingFlux(prevMag, SpectrumOf(frame, sr, binMagnitude).mag)
    ensures r.Ok? ==> FeaturesInRange(r.value.0)
  {
    var rms := if |frame| > 0 then sqrt(Features.MeanSquare(frame)) else 0.0;
    if |frame| == 0 then Ok((FrameFeatures(rms, 0.0, 0.0, 0.0, 0.0), None))
    else if sr == 0 then Err(ZeroSampleRate)
    else
      var sp := SpectrumOf(frame, sr, binMagnitude);
      Features.BandRatioBounds(sp.freqs, sp.mag);
      var low := Features.BandRatio(sp.freqs, sp.mag, Features.Low);
      var mid := Features.BandRatio(sp.freqs, sp.mag, Features.Mid);
      var high := Features.BandRatio(sp.freqs, sp.mag, Features.High);
      Ok((FrameFeatures(rms, low, mid, high, StreamingFlux(prevMag, sp.mag)), Some(sp.mag)))
  }

  /** What the mode classifier reads from a live frame: the missing
      `onset_density` key reads as 0.0. */
  function ModeInput(f: FrameFeatures): Modes.ModeFeatures
  {
    Modes.ModeFeatures(f.rms, f.bandLow, f.bandMid, f.bandHigh, 0.0)
  }

  /** What the highlight detector reads from a live frame. */
  function HighlightInput(f: FrameFeatures): HD.HighlightFeatures
  {
    HD.HighlightFeatures(f.rms, f.bandHigh, f.flux)
  }

  /** Live frames carry no onset density, so with a nonnegative density
      threshold the MUSIC rule never fires: MUSIC can only be the candidate
      through the high-band bonus. */
  lemma LiveMusicNeedsHighBand(s: Modes.ModeSettings, f: FrameFeatures)
    requires s.musicOnsetDensity >= 0.0
    ensures Modes.Candidate(Modes.ScoreModes(s, ModeInput(f))) == Modes.Music ==> f.bandHigh > 0.5
  {
    var sc := Modes.ScoreModes(s, ModeInput(f));
    if Modes.Candidate(sc) == Modes.Music {
      assert sc.Of(Modes.Idle) < sc.Of(Modes.Music);
    }
  }

  // ------------------------------------------------------- the main loop

  /** The settings module values `run_realtime` reads. */
  datatype LoopSettings = LoopSettings(
    targetFps: int,
    samplesPerFrame: nat,        // 0 when unset
    maxSeconds: Option<real>,
    modes: Modes.ModeSettings,
    highlight: HD.HighlightSettings)

  /** `time.time()` at the start of the run, at the top of tick `k`, and
      when tick `k` updates the classifiers. */
  datatype Clock = Clock(start: real, loopStart: nat -> real, now: nat -> real)

  /** `int(target_fps or settings.TARGET_FPS)` */
  function EffectiveFps(targetFps: Option<int>, cfg: LoopSettings): int
  {
    if targetFps.Some? && targetFps.value != 0 then targetFps.value else cfg.targetFps
  }

  /** `settings.SAMPLES_PER_FRAME or max(1, int(sr / fps))` */
  function SamplesPerFrame(sr: int, fps: int, cfg: LoopSettings): (r: nat)
    requires fps != 0
    ensures r >= 1
    ensures cfg.samplesPerFrame != 0 ==> r == cfg.samplesPerFrame
    ensures cfg.samplesPerFrame == 0 && sr >= 0 && fps > 0 ==> r == Features.MaxInt(1, sr / fps)
  {
    if cfg.samplesPerFrame != 0 then cfg.samplesPerFrame
    else Features.MaxInt(1, TruncDiv(sr, fps))
  }

  /** `max_seconds`, else the settings value; `None` means no limit. */
  function TimeLimit(maxSeconds: Option<real>, cfg: LoopSettings): Option<real>
  {
    if maxSeconds.Some? then maxSeconds else cfg.maxSeconds
  }

  predicate TimedOut(limit: Option<real>, clock: Clock, k: nat)
  {
    limit.Some? && clock.loopStart(k) - clock.start >= limit.value
  }

  /** `max(1, ceil(n / spf))`: how many frames cover `n` samples. */
  function TickCount(n: nat, spf: nat): (r: nat)
    requires spf >= 1
    ensures r >= 1
  {
    if n == 0 then 1 else (n + spf - 1) / spf
  }

  /** The frames before the last stop short of the end of the signal, and
      the last reaches it. */
  lemma TickCountCovers(n: nat, spf: nat)
    requires spf >= 1
    ensures TickCount(n, spf) * spf >= n
    ensures n > 0 ==> (TickCount(n, spf) - 1) * spf < n
  {
    if n > 0 {
      PixelSender.CeilDiv(n, spf);
    }
  }

  /** The samples of tick `k` starting at `start`: the slice
      `x[start:min(start + spf, n)]`, then zeros up to `spf`. */
  function PaddedFrame(x: seq<real>, start: nat, spf: nat): (r: seq<real>)
    ensures |r| == spf
    ensures start + spf <= |x| ==> r == x[start..start + spf]
    ensures forall i :: 0 <= i < spf && start + i >= |x| ==> r[i] == 0.0
    ensures forall i :: 0 <= i < spf && start + i < |x| ==> r[i] == x[start + i]
  {
    var chunk := Slice(x, start, start + spf);
    chunk + seq(spf - |chunk|, _ => 0.0)
  }

  /** What one tick did: the samples it analysed, their features, the
      classifier outputs, the time it read and the frame it sent. */
  datatype TickRecord = TickRecord(
    input: seq<real>,
    features: FrameFeatures,
    mode: Modes.Mode,
    hstate: HD.HighlightState,
    now: real,
    frame: PixelFrame)

  /** Everything a run depends on once its arguments are resolved. */
  datatype Context = Context(
    x: seq<real>,
    sr: int,
    spf: nat,
    limit: Option<real>,
    clock: Clock,
    binMagnitude: (seq<real>, nat) -> Features.Mag,
    sqrt: Features.Mag -> Features.Mag,
    modes: Modes.ModeSettings,
    highlight: HD.HighlightSettings)

  /** The calls `ModeManager.update` received, in order. */
  function ModeTrace(ticks: seq<TickRecord>): (r: seq<Modes.Update>)
    ensures |r| == |ticks|
  {
    seq(|ticks|, k requires 0 <= k < |ticks| => Modes.Update(ModeInput(ticks[k].features), ticks[k].now))
  }

  /** The calls `HighlightDetector.update` received, in order. */
  function HighlightTrace(ticks: seq<TickRecord>): (r: seq<HD.Update>)
    ensures |r| == |ticks|
  {
    seq(|ticks|, k requires 0 <= k < |ticks| => HD.Update(HighlightInput(ticks[k].features), ticks[k].mode, ticks[k].now))
  }

  lemma ModeTraceSnoc(ticks: seq<TickRecord>, t: TickRecord)
    ensures ModeTrace(ticks + [t]) == ModeTrace(ticks) + [Modes.Update(ModeInput(t.features), t.now)]
  {
  }

  lemma HighlightTraceSnoc(ticks: seq<TickRecord>, t: TickRecord)
    ensures HighlightTrace(ticks + [t]) == HighlightTrace(ticks) + [HD.Update(HighlightInput(t.features), t.mode, t.now)]
  {
  }

  /** The spectrum carried out of the ticks so far: none before the first
      tick or after an empty frame. */
  function PrevMag(c: Context, before: seq<TickRecord>): Option<seq<Features.Mag>>
  {
    if before == [] || |before[|before| - 1].input| == 0 then None
    else Some(SpectrumOf(before[|before| - 1].input, c.sr, c.binMagnitude).mag)
  }

  /** The last tick of `run`, number `k`: it was not cut off by the time
      limit, read the `k`-th frame of samples, computed its features from
      them and the previous spectrum, fed both classifiers after the earlier
      ticks, and sent frame number `k` for the resulting mode and highlight
      state. */
  predicate LastTickFollows(c: Context, run: seq<TickRecord>)
    requires |run| > 0
  {
    var k := |run| - 1;
    var t := run[k];
    !TimedOut(c.limit, c.clock, k) &&
    t.input == PaddedFrame(c.x, k * c.spf, c.spf) &&
    t.now == c.clock.now(k) &&
    FrameFeaturesFromBuffer(t.input, c.sr, PrevMag(c, run[..k]), c.binMagnitude, c.sqrt) == Ok((t.features, PrevMag(c, run))) &&
    t.mode == Modes.Run(c.modes, Modes.InitialModeState, ModeTrace(run)).current &&
    t.hstate == HD.Run(c.highlight, HD.InitialHighlightMemory, HighlightTrace(run)).state &&
    t.frame == PixelFrameOf(OutputFor(t.mode, t.hstate), k)
  }

  /** Every tick of the run follows from the ones before it. */
  predicate RunFollows(c: Context, ticks: seq<TickRecord>)
  {
    forall n :: 1 <= n <= |ticks| ==> LastTickFollows(c, ticks[..n])
  }

  /** Appending a tick leaves the earlier ticks' account unchanged. */
  lemma RunFollowsExtend(c: Context, ticks: seq<TickRecord>, t: TickRecord)
    requires RunFollows(c, ticks) && LastTickFollows(c, ticks + [t])
    ensures RunFollows(c, ticks + [t])
  {
    var ext := ticks + [t];
    forall n | 1 <= n <= |ext|
      ensures LastTickFollows(c, ext[..n])
    {
      if n <= |ticks| {
        assert ext[..n] == ticks[..n];
      } else {
        assert ext[..n] == ext;
      }
    }
  }

  /** The resolved context of a run whose arguments are all present. */
  function ContextOf(x: seq<real>, sr: int, fps: int, maxSeconds: Option<real>, cfg: LoopSettings, clock: Clock,
                     binMagnitude: (seq<real>, nat) -> Features.Mag, sqrt: Features.Mag -> Features.Mag): Context
    requires fps != 0
  {
    Context(x, sr, SamplesPerFrame(sr, fps, cfg), TimeLimit(maxSeconds, cfg), clock, binMagnitude, sqrt,
      cfg.modes, cfg.highlight)
  }

  /** A tick index whose frame starts inside the signal is not the last
      count, and one whose frame starts past a nonempty signal is beyond it. */
  lemma TickIndexBounds(n: nat, spf: nat, k: nat)
    requires spf >= 1
    ensures k * spf < n ==> k < TickCount(n, spf)
    ensures n > 0 && n <= k * spf ==> TickCount(n, spf) <= k
  {
    var tc := TickCount(n, spf);
    TickCountCovers(n, spf);
    if k * spf < n && tc <= k {
      PixelSender.MulLe(tc, k, spf);
    }
    if n > 0 && n <= k * spf && k < tc {
      PixelSender.MulLe(k, tc - 1, spf);
    }
  }

  /** The slice-then-pad the loop performs is `PaddedFrame`. */
  lemma PaddedFrameOfSlice(x: seq<real>, start: nat, spf: nat)
    requires start <= |x|
    ensures var chunk := x[start..MinN(start + spf, |x|)];
      PaddedFrame(x, start, spf) == if |chunk| < spf then chunk + seq(spf - |chunk|, _ => 0.0) else chunk
  {
    var chunk := x[start..MinN(start + spf, |x|)];
    assert Slice(x, start, start + spf) == chunk;
  }

  /** `x[start:min(start + spf, n)]` padded with zeros to `spf` samples. */
  method ReadFrame(x: seq<real>, start: nat, spf: nat) returns (frame: seq<real>)
    requires start <= |x|
    ensures frame == PaddedFrame(x, start, spf)
  {
    var end := MinN(start + spf, |x|);
    frame := x[start..end];
    if |frame| < spf {
      frame := frame + seq(spf - |frame|, _ => 0.0);
    }
    PaddedFrameOfSlice(x, start, spf);
  }

  /** Where the read position goes after tick `k`: one frame further while
      inside the signal, and the end of the signal after the last tick. */
  lemma NextTick(n: nat, spf: nat, k: nat)
    requires spf >= 1 && k < TickCount(n, spf)
    requires k > 0 ==> k * spf < n
    ensures var e := MinN(k * spf + spf, n);
      (e < n ==> e == (k + 1) * spf && k + 1 < TickCount(n, spf)) &&
      (e >= n ==> k + 1 == TickCount(n, spf))
  {
    PixelSender.MulSucc(k, spf);
    TickIndexBounds(n, spf, k + 1);
  }

  /** A tick computed from the run so far extends it: the traces gain one
      call each and the carried spectrum is the tick's own. */
  lemma RecordTick(c: Context, ticks: seq<TickRecord>, t: TickRecord, prevMag: Option<seq<Features.Mag>>)
    requires RunFollows(c, ticks)
    requires !TimedOut(c.limit, c.clock, |ticks|)
    requires t.input == PaddedFrame(c.x, |ticks| * c.spf, c.spf)
    requires t.now == c.clock.now(|ticks|)
    requires FrameFeaturesFromBuffer(t.input, c.sr, PrevMag(c, ticks), c.binMagnitude, c.sqrt) == Ok((t.features, prevMag))
    requires t.mode == Modes.Step(c.modes, Modes.Run(c.modes, Modes.InitialModeState, ModeTrace(ticks)), ModeInput(t.features), t.now).current
    requires t.hstate == HD.Step(c.highlight, HD.Run(c.highlight, HD.InitialHighlightMemory, HighlightTrace(ticks)),
                                 HighlightInput(t.features), t.mode, t.now).state
    requires t.frame == PixelFrameOf(OutputFor(t.mode, t.hstate), |ticks|)
    ensures RunFollows(c, ticks + [t])
    ensures prevMag == PrevMag(c, ticks + [t])
    ensures Modes.Run(c.modes, Modes.InitialModeState, ModeTrace(ticks + [t]))
      == Modes.Step(c.modes, Modes.Run(c.modes, Modes.InitialModeState, ModeTrace(ticks)), ModeInput(t.features), t.now)
    ensures HD.Run(c.highlight, HD.InitialHighlightMemory, HighlightTrace(ticks + [t]))
      == HD.Step(c.highlight, HD.Run(c.highlight, HD.InitialHighlightMemory, HighlightTrace(ticks)),
                 HighlightInput(t.features), t.mode, t.now)
  {
    var ext := ticks + [t];
    ModeTraceSnoc(ticks, t);
    Modes.RunSnoc(c.modes, Modes.InitialModeState, ModeTrace(ticks), Modes.Update(ModeInput(t.features), t.now));
    HighlightTraceSnoc(ticks, t);
    HD.RunSnoc(c.highlight, HD.InitialHighlightMemory, HighlightTrace(ticks), HD.Update(HighlightInput(t.features), t.mode, t.now));
    assert ext[..|ticks|] == ticks;
    assert LastTickFollows(c, ext);
    RunFollowsExtend(c, ticks, t);
  }

  /** What a run returns: the frame count and, as the sink, every tick. */
  datatype RunReport = RunReport(frames: nat, ticks: seq<TickRecord>)

  /** `run_realtime`, with each tick calling the highlight detector
      directly (`detector.update(feat, mode, now)`). The loop stops before a
      tick once the time limit has passed, and after the tick that reads
      the last sample. */
  method RunRealtime(x: Option<seq<real>>, sr: Option<int>, targetFps: Option<int>, maxSeconds: Option<real>,
                     cfg: LoopSettings, clock: Clock,
                     binMagnitude: (seq<real>, nat) -> Features.Mag, sqrt: Features.Mag -> Features.Mag)
    returns (r: Result<RunReport, ScheduleError>)
    ensures x.None? || sr.None? ==> r == Err(MissingAudio)
    ensures x.Some? && sr.Some? && EffectiveFps(targetFps, cfg) == 0 ==> r == Err(ZeroFrameRate)
    ensures x.Some? && sr.Some? && EffectiveFps(targetFps, cfg) != 0 ==>
      (r.Err? <==> sr.value == 0 && !TimedOut(TimeLimit(maxSeconds, cfg), clock, 0))
    ensures r.Err? && x.Some? && sr.Some? && EffectiveFps(targetFps, cfg) != 0 ==> r.error == ZeroSampleRate
    ensures r.Ok? ==>
      x.Some? && sr.Some? && EffectiveFps(targetFps, cfg) != 0 &&
      var c := ContextOf(x.value, sr.value, EffectiveFps(targetFps, cfg), maxSeconds, cfg, clock, binMagnitude, sqrt);
      var ticks := r.value.ticks;
      r.value.frames == |ticks| &&
      |ticks| <= TickCount(|c.x|, c.spf) &&
      (|ticks| < TickCount(|c.x|, c.spf) ==> TimedOut(c.limit, c.clock, |ticks|)) &&
      RunFollows(c, ticks)
  {
    if x.None? || sr.None? {
      return Err(MissingAudio);
    }
    var fps := EffectiveFps(targetFps, cfg);
    if fps == 0 {
      return Err(ZeroFrameRate);
    }
    var c := ContextOf(x.value, sr.value, fps, maxSeconds, cfg, clock, binMagnitude, sqrt);
    var ticks := RunLoop(c);
    if ticks.Err? {
      return Err(ticks.error);
    }
    return Ok(RunReport(|ticks.value|, ticks.value));
  }

  /** The loop of `run_realtime` once its arguments are resolved: a fresh
      mode manager and highlight detector, then one tick per frame of
      `spf` samples until the time limit passes or the signal is read. */
  method RunLoop(c: Context) returns (r: Result<seq<TickRecord>, ScheduleError>)
    requires c.spf >= 1
    ensures r.Err? <==> c.sr == 0 && !TimedOut(c.limit, c.clock, 0)
    ensures r.Err? ==> r.error == ZeroSampleRate
    ensures r.Ok? ==>
      |r.value| <= TickCount(|c.x|, c.spf) &&
      (|r.value| < TickCount(|c.x|, c.spf) ==> TimedOut(c.limit, c.clock, |r.value|)) &&
      RunFollows(c, r.value)
  {
    var samplesPerFrame := c.spf;
    var limit := c.limit;
    var clock := c.clock;
    var mm := new Modes.ModeManager(c.modes);
    var detector := new HD.HighlightDetector(c.highlight);
    var samples := c.x;
    var nSamples := |samples|;
    var readPos := 0;
    var prevMag: Option<seq<Features.Mag>> := None;
    var frames := 0;
    var ticks: seq<TickRecord> := [];
    while true
      invariant readPos == frames * samplesPerFrame
      invariant frames > 0 ==> readPos < nSamples && c.sr != 0
      invariant frames == |ticks| && frames < TickCount(nSamples, samplesPerFrame)
      invariant prevMag == PrevMag(c, ticks)
      invariant RunFollows(c, ticks)
      invariant mm.settings == c.modes && detector.settings == c.highlight
      invariant mm.State() == Modes.Run(c.modes, Modes.InitialModeState, ModeTrace(ticks))
      invariant detector.Memory() == HD.Run(c.highlight, HD.InitialHighlightMemory, HighlightTrace(ticks))
      decreases nSamples - readPos
    {
      var loopStart := clock.loopStart(frames);
      if limit.Some? && loopStart - clock.start >= limit.value {
        break;
      }
      var frame := ReadFrame(samples, readPos, samplesPerFrame);
      var computed := FrameFeaturesFromBuffer(frame, c.sr, prevMag, c.binMagnitude, c.sqrt);
      if computed.Err? {
        return Err(computed.error);
      }
      var feat := computed.value.0;
      prevMag := computed.value.1;
      var now := clock.now(frames);
      var mode := mm.Update(ModeInput(feat), now);
      var hstate := detector.Update(HighlightInput(feat), mode, now);
      var sent := SendPixelFrame(mode, hstate, frames);
      var t := TickRecord(frame, feat, mode, hstate, now, sent);
      RecordTick(c, ticks, t, prevMag);
      ticks := ticks + [t];
      NextTick(nSamples, samplesPerFrame, frames);
      frames := frames + 1;
      readPos := MinN(readPos + samplesPerFrame, nSamples);
      if readPos >= nSamples {
        break;
      }
    }
    return Ok(ticks);
  }

  // ------------------------------------------- the loop as it is written

  /** `run_realtime` as written: each tick calls `mm.update_highlight(feat,
      detector, now=now)`, a method `ModeManager` does not define. The
      first tick that gets past the feature computation updates the mode
      manager and then raises, so the only normal return is a time limit
      already passed before the first tick, with no frame counted.
      `reached` is the mode manager's state when the call raises. */
  method RunRealtimeAsWritten(x: Option<seq<real>>, sr: Option<int>, targetFps: Option<int>, maxSeconds: Option<real>,
                              cfg: LoopSettings, clock: Clock,
                              binMagnitude: (seq<real>, nat) -> Features.Mag, sqrt: Features.Mag -> Features.Mag)
    returns (r: Result<nat, ScheduleError>, reached: Option<Modes.ModeState>)
    ensures x.None? || sr.None? ==> r == Err(MissingAudio)
    ensures x.Some? && sr.Some? && EffectiveFps(targetFps, cfg) == 0 ==> r == Err(ZeroFrameRate)
    ensures x.Some? && sr.Some? && EffectiveFps(targetFps, cfg) != 0 ==>
      var timedOut := TimedOut(TimeLimit(maxSeconds, cfg), clock, 0);
      (r == Ok(0) <==> timedOut) &&
      (r == Err(ZeroSampleRate) <==> !timedOut && sr.value == 0) &&
      (r == Err(MissingUpdateHighlight) <==> !timedOut && sr.value != 0)
    ensures reached.Some? <==> r == Err(MissingUpdateHighlight)
    ensures reached.Some? ==>
      x.Some? && sr.Some? && EffectiveFps(targetFps, cfg) != 0 &&
      var c := ContextOf(x.value, sr.value, EffectiveFps(targetFps, cfg), maxSeconds, cfg, clock, binMagnitude, sqrt);
      var first := FrameFeaturesFromBuffer(PaddedFrame(c.x, 0, c.spf), c.sr, None, binMagnitude, sqrt);
      first.Ok? && reached.value == Modes.Step(c.modes, Modes.InitialModeState, ModeInput(first.value.0), clock.now(0))
  {
    if x.None? || sr.None? {
      return Err(MissingAudio), None;
    }
    var fps := EffectiveFps(targetFps, cfg);
    if fps == 0 {
      return Err(ZeroFrameRate), None;
    }
    var c := ContextOf(x.value, sr.value, fps, maxSeconds, cfg, clock, binMagnitude, sqrt);
    var mm := new Modes.ModeManager(c.modes);
    var detector := new HD.HighlightDetector(c.highlight);
    var loopStart := clock.loopStart(0);
    if c.limit.Some? && loopStart - clock.start >= c.limit.value {
      return Ok(0), None;
    }
    var frame := ReadFrame(c.x, 0, c.spf);
    var computed := FrameFeaturesFromBuffer(frame, c.sr, None, binMagnitude, sqrt);
    if computed.Err? {
      return Err(computed.error), None;
    }
    var feat := computed.value.0;
    var now := clock.now(0);
    var mode := mm.Update(ModeInput(feat), now);
    // `mm.update_highlight(feat, detector, now=now)` raises AttributeError here.
    return Err(MissingUpdateHighlight), Some(mm.State());
  }

  /** The frame size and tick count of tests/test_realtime_loop.py's input:
      one second at 44.1 kHz and 30 frames per second make 30 ticks of 1470
      samples. */
  lemma LoopTestFraming(cfg: LoopSettings)
    requires cfg.samplesPerFrame == 0
    ensures SamplesPerFrame(44100, 30, cfg) == 1470
    ensures TickCount(44100, SamplesPerFrame(44100, 30, cfg)) == 30
  {
    assert TruncDiv(44100, 30) == 1470;
  }

  /** The two loops on the same arguments: the loop as written raises on
      exactly the runs where the corrected loop completes a tick. */
  method CompareRuns(x: Option<seq<real>>, sr: Option<int>, targetFps: Option<int>, maxSeconds: Option<real>,
                     cfg: LoopSettings, clock: Clock,
                     binMagnitude: (seq<real>, nat) -> Features.Mag, sqrt: Features.Mag -> Features.Mag)
    returns (asWritten: Result<nat, ScheduleError>, corrected: Result<RunReport, ScheduleError>)
    ensures asWritten == Err(MissingUpdateHighlight) <==> corrected.Ok? && corrected.value.frames > 0
    ensures corrected.Ok? && corrected.value.frames == 0 <==> asWritten == Ok(0)
  {
    var reached;
    asWritten, reached := RunRealtimeAsWritten(x, sr, targetFps, maxSeconds, cfg, clock, binMagnitude, sqrt);
    corrected := RunRealtime(x, sr, targetFps, maxSeconds, cfg, clock, binMagnitude, sqrt);
    if corrected.Ok? && corrected.value.frames > 0 {
      var c := ContextOf(x.value, sr.value, EffectiveFps(targetFps, cfg), maxSeconds, cfg, clock, binMagnitude, sqrt);
      // The first tick was not cut off by the time limit.
      assert LastTickFollows(c, corrected.value.ticks[..1]);
    }
  }

  /** tests/test_realtime_loop.py's run (one second at 44.1 kHz, 30 frames
      per second, a one-second limit not yet reached at the first tick):
      the loop as written raises instead of returning a frame count, while
      the corrected loop returns between 1 and 30 frames. */
  method AsWrittenFailsTheLoopTest(x: seq<real>, cfg: LoopSettings, clock: Clock,
                                   binMagnitude: (seq<real>, nat) -> Features.Mag, sqrt: Features.Mag -> Features.Mag)
    returns (asWritten: Result<nat, ScheduleError>, corrected: Result<RunReport, ScheduleError>)
    requires |x| == 44100 && cfg.samplesPerFrame == 0
    requires clock.loopStart(0) - clock.start < 1.0
    ensures asWritten == Err(MissingUpdateHighlight)
    ensures corrected.Ok? && 1 <= corrected.value.frames <= 30
  {
    LoopTestFraming(cfg);
    var reached;
    asWritten, reached := RunRealtimeAsWritten(Some(x), Some(44100), Some(30), Some(1.0), cfg, clock, binMagnitude, sqrt);
    corrected := RunRealtime(Some(x), Some(44100), Some(30), Some(1.0), cfg, clock, binMagnitude, sqrt);
    var c := ContextOf(x, 44100, 30, Some(1.0), cfg, clock, binMagnitude, sqrt);
    assert c.spf == 1470 && TickCount(|c.x|, c.spf) == 30;
    assert !TimedOut(c.limit, clock, 0);
  }
}
