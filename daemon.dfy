/** The always-on engine loop of `daemon.py`: a `DaemonLoop` object whose
    fields (`frames`, `demo_time`, `prev_mag`, `running`,
    `_last_cfg_mtime`) are updated tick by tick.

    The sine demo source, the config file's modification time and load,
    the clock and the signals are inputs of each tick; the pixel socket is
    a sink, so each tick returns the frame it sent. */
module Daemon {
  import opened Wrappers
  import Features
  import Modes
  import HD = HighlightDetection
  import opened Realtime

  // ------------------------------------------------------ config reload

  /** Whether `_check_config_reload` tries to load: an mtime exists and
      differs from the one last loaded. */
  predicate ReloadDue(last: Option<real>, mtime: Option<real>)
  {
    mtime.Some? && last != mtime
  }

  /** The remembered mtime after one check; a failed load keeps the old one. */
  function ReloadStep(last: Option<real>, mtime: Option<real>, loadOk: bool): (r: Option<real>)
    ensures r == last || (r == mtime && ReloadDue(last, mtime) && loadOk)
  {
    if ReloadDue(last, mtime) && loadOk then mtime else last
  }

  /** A successful load is not repeated for the same mtime; a failed one
      is retried at the next check; a missing file changes nothing. */
  lemma ReloadBookkeeping(last: Option<real>, mtime: Option<real>)
    ensures !ReloadDue(ReloadStep(last, mtime, true), mtime)
    ensures ReloadStep(last, mtime, false) == last
    ensures ReloadDue(last, mtime) ==> ReloadDue(ReloadStep(last, mtime, false), mtime)
    ensures mtime.None? ==> ReloadStep(last, mtime, true) == last
    ensures ReloadDue(last, mtime) ==> ReloadStep(last, mtime, true) == mtime
  {
  }

  /** The remembered mtime after one check per input, in order. */
  function ReloadAfter(last: Option<real>, inputs: seq<TickInput>): Option<real>
  {
    if inputs == [] then last
    else
      var k := |inputs| - 1;
      ReloadStep(ReloadAfter(last, inputs[..k]), inputs[k].mtime, inputs[k].loadOk)
  }

  /** After a run of checks the remembered mtime is the starting one or
      that of an input whose load succeeded; a successful load of the last
      input's mtime leaves that mtime. */
  lemma {:induction false} ReloadAfterLoaded(last: Option<real>, inputs: seq<TickInput>)
    ensures var r := ReloadAfter(last, inputs);
      r == last || exists k :: 0 <= k < |inputs| && inputs[k].loadOk && r == inputs[k].mtime && r.Some?
    ensures |inputs| > 0 && inputs[|inputs| - 1].loadOk && inputs[|inputs| - 1].mtime.Some? ==>
      ReloadAfter(last, inputs) == inputs[|inputs| - 1].mtime
  {
    if inputs != [] {
      var k := |inputs| - 1;
      ReloadAfterLoaded(last, inputs[..k]);
      var before := ReloadAfter(last, inputs[..k]);
      if before != last && ReloadAfter(last, inputs) == before {
        var j :| 0 <= j < |inputs[..k]| && inputs[..k][j].loadOk && before == inputs[..k][j].mtime && before.Some?;
        assert inputs[j] == inputs[..k][j];
      }
    }
  }

  // ---------------------------------------------------------- demo clock

  /** `demo_time` after `k` ticks of `step` seconds each, added one at a time. */
  function Advance(t: real, k: nat, step: real): real
  {
    if k == 0 then t else Advance(t, k - 1, step) + step
  }

  lemma {:induction false} AdvanceIsLinear(t: real, k: nat, step: real)
    ensures Advance(t, k, step) == t + k as real * step
  {
    if k > 0 {
      AdvanceIsLinear(t, k - 1, step);
      assert (k - 1) as real * step + step == k as real * step;
    }
  }

  /** One tick's environment: the demo samples, the config file's mtime and
      whether loading it succeeds, the time read for the classifiers, and
      whether a termination signal arrives during the tick. */
  datatype TickInput = TickInput(frame: seq<real>, mtime: Option<real>, loadOk: bool, now: real, signal: bool)

  /** The first input during which a signal arrives. */
  function FirstSignal(inputs: seq<TickInput>): (i: nat)
    requires exists j :: 0 <= j < |inputs| && inputs[j].signal
    ensures i < |inputs| && inputs[i].signal
    ensures forall j :: 0 <= j < i ==> !inputs[j].signal
  {
    if inputs[0].signal then 0
    else
      assert exists j :: 0 <= j < |inputs[1..]| && inputs[1..][j].signal by {
        var j :| 0 <= j < |inputs| && inputs[j].signal;
        assert inputs[1..][j - 1] == inputs[j];
      }
      1 + FirstSignal(inputs[1..])
  }

  /** The spectrum the daemon carries after its ticks: the last frame's. */
  function LastSpectrum(ticks: seq<TickRecord>, sr: int, binMagnitude: (seq<real>, nat) -> Features.Mag)
    : Option<seq<Features.Mag>>
  {
    if ticks == [] || |ticks[|ticks| - 1].input| == 0 then None
    else Some(SpectrumOf(ticks[|ticks| - 1].input, sr, binMagnitude).mag)
  }

  /** A completed tick extends the record: each classifier's trace gains
      the tick's call, and the carried spectrum becomes the tick's own. */
  lemma ExtendRecord(modes: Modes.ModeSettings, highlight: HD.HighlightSettings, ticks: seq<TickRecord>, t: TickRecord,
                     sr: int, binMagnitude: (seq<real>, nat) -> Features.Mag, spectrum: Option<seq<Features.Mag>>)
    requires |t.input| > 0 && spectrum == Some(SpectrumOf(t.input, sr, binMagnitude).mag)
    ensures Modes.Run(modes, Modes.InitialModeState, ModeTrace(ticks + [t]))
      == Modes.Step(modes, Modes.Run(modes, Modes.InitialModeState, ModeTrace(ticks)), ModeInput(t.features), t.now)
    ensures HD.Run(highlight, HD.InitialHighlightMemory, HighlightTrace(ticks + [t]))
      == HD.Step(highlight, HD.Run(highlight, HD.InitialHighlightMemory, HighlightTrace(ticks)),
                 HighlightInput(t.features), t.mode, t.now)
    ensures LastSpectrum(ticks + [t], sr, binMagnitude) == spectrum
  {
    ModeTraceSnoc(ticks, t);
    Modes.RunSnoc(modes, Modes.InitialModeState, ModeTrace(ticks), Modes.Update(ModeInput(t.features), t.now));
    HighlightTraceSnoc(ticks, t);
    HD.RunSnoc(highlight, HD.InitialHighlightMemory, HighlightTrace(ticks), HD.Update(HighlightInput(t.features), t.mode, t.now));
  }

  class DaemonLoop {
    const fps: int
    const sr: int
    const samplesPerFrame: nat
    const modes: Modes.ModeSettings
    const highlight: HD.HighlightSettings
    const binMagnitude: (seq<real>, nat) -> Features.Mag
    const sqrt: Features.Mag -> Features.Mag
    const mm: Modes.ModeManager
    const detector: HD.HighlightDetector
    var running: bool
    var demoTime: real
    var frames: nat
    var prevMag: Option<seq<Features.Mag>>
    var lastCfgMtime: Option<real>
    /** Every completed tick, in order. */
    ghost var ticks: seq<TickRecord>

    /** The classifiers have seen exactly the completed ticks, whose count
        is `frames`, and the carried spectrum is the last tick's. */
    ghost predicate Valid()
      reads this, mm, detector
    {
      Tracked() && prevMag == LastSpectrum(ticks, sr, binMagnitude)
    }

    /** `Valid` without the carried spectrum, which a tick replaces first. */
    ghost predicate Tracked()
      reads this, mm, detector
    {
      samplesPerFrame >= 1 &&
      frames == |ticks| &&
      mm.settings == modes && detector.settings == highlight &&
      mm.State() == Modes.Run(modes, Modes.InitialModeState, ModeTrace(ticks)) &&
      detector.Memory() == HD.Run(highlight, HD.InitialHighlightMemory, HighlightTrace(ticks))
    }

    /** The tick recorded after `prior` for the samples `frame` with
        features `feat` at time `now`: each classifier takes one step on the
        features after the earlier ticks, and frame number `|prior|` is sent
        for their outputs. */
    ghost function Record(prior: seq<TickRecord>, frame: seq<real>, feat: FrameFeatures, now: real): TickRecord
    {
      var ms := Modes.Step(modes, Modes.Run(modes, Modes.InitialModeState, ModeTrace(prior)), ModeInput(feat), now);
      var hm := HD.Step(highlight, HD.Run(highlight, HD.InitialHighlightMemory, HighlightTrace(prior)),
                        HighlightInput(feat), ms.current, now);
      TickRecord(frame, feat, ms.current, hm.state, now, PixelFrameOf(OutputFor(ms.current, hm.state), |prior|))
    }

    /** The tick recorded for `input` after `prior`, its features computed
        from its samples and the spectrum of the last earlier tick. */
    ghost function NextRecord(prior: seq<TickRecord>, input: TickInput): TickRecord
      requires sr != 0
    {
      var feat := FrameFeaturesFromBuffer(input.frame, sr, LastSpectrum(prior, sr, binMagnitude), binMagnitude, sqrt).value.0;
      Record(prior, input.frame, feat, input.now)
    }

    /** `__init__` for a nonzero frame rate (`NewDaemonLoop` covers zero). */
    constructor (targetFps: Option<int>, sampleRate: int, cfg: LoopSettings,
                 binMagnitude: (seq<real>, nat) -> Features.Mag, sqrt: Features.Mag -> Features.Mag)
      requires EffectiveFps(targetFps, cfg) != 0
      ensures Valid() && fresh(mm) && fresh(detector)
      ensures fps == EffectiveFps(targetFps, cfg) && sr == sampleRate
      ensures samplesPerFrame == SamplesPerFrame(sampleRate, fps, cfg)
      ensures modes == cfg.modes && highlight == cfg.highlight
      ensures this.binMagnitude == binMagnitude && this.sqrt == sqrt
      ensures running && demoTime == 0.0 && frames == 0 && prevMag.None? && lastCfgMtime.None? && ticks == []
    {
      fps := EffectiveFps(targetFps, cfg);
      sr := sampleRate;
      samplesPerFrame := SamplesPerFrame(sampleRate, EffectiveFps(targetFps, cfg), cfg);
      modes := cfg.modes;
      highlight := cfg.highlight;
      this.binMagnitude := binMagnitude;
      this.sqrt := sqrt;
      mm := new Modes.ModeManager(cfg.modes);
      detector := new HD.HighlightDetector(cfg.highlight);
      running := true;
      demoTime := 0.0;
      frames := 0;
      prevMag := None;
      lastCfgMtime := None;
      ticks := [];
    }

    /** `_signal_handler`: clears `running` and nothing else. */
    method SignalHandler()
      modifies this
      ensures !running
      ensures demoTime == old(demoTime) && frames == old(frames) && prevMag == old(prevMag)
      ensures lastCfgMtime == old(lastCfgMtime) && ticks == old(ticks)
    {
      running := false;
    }

    /** `_check_config_reload`: returns whether a load was attempted. The
        loaded configuration itself is not used by the loop. */
    method CheckConfigReload(mtime: Option<real>, loadOk: bool) returns (attempted: bool)
      modifies this
      ensures attempted == ReloadDue(old(lastCfgMtime), mtime)
      ensures lastCfgMtime == ReloadStep(old(lastCfgMtime), mtime, loadOk)
      ensures running == old(running) && demoTime == old(demoTime) && frames == old(frames)
      ensures prevMag == old(prevMag) && ticks == old(ticks)
    {
      attempted := false;
      if mtime.Some? && lastCfgMtime != mtime {
        attempted := true;
        if loadOk {
          lastCfgMtime := mtime;
        }
      }
    }

    /** One pass of the body of `run` with the highlight detector called
        directly. A zero sample rate raises inside the feature computation
        and leaves every field as it was. */
    method Tick(input: TickInput) returns (r: Result<PixelFrame, ScheduleError>)
      requires Valid() && |input.frame| == samplesPerFrame
      modifies this, mm, detector
      ensures Valid()
      ensures r.Err? <==> sr == 0
      ensures r.Err? ==> r.error == ZeroSampleRate
      ensures r.Err? ==> frames == old(frames) && ticks == old(ticks) && demoTime == old(demoTime)
      ensures r.Err? ==> lastCfgMtime == old(lastCfgMtime)
      ensures r.Ok? ==>
        frames == old(frames) + 1 &&
        demoTime == old(demoTime) + samplesPerFrame as real / sr as real &&
        lastCfgMtime == ReloadStep(old(lastCfgMtime), input.mtime, input.loadOk) &&
        ticks == old(ticks) + [NextRecord(old(ticks), input)] && r.value == ticks[|old(ticks)|].frame
      ensures running == old(running)
    {
      var computed := FrameFeaturesFromBuffer(input.frame, sr, prevMag, binMagnitude, sqrt);
      if computed.Err? {
        return Err(computed.error);
      }
      var feat := computed.value.0;
      prevMag := computed.value.1;
      var _ := CheckConfigReload(input.mtime, input.loadOk);
      var sent := Respond(input.frame, feat, input.now);
      return Ok(sent);
    }

    /** The rest of a tick once the features are known and the spectrum is
        carried: both classifiers, the pixel frame for their outputs, and
        the frame counter and demo clock. */
    method Respond(frame: seq<real>, feat: FrameFeatures, now: real) returns (sent: PixelFrame)
      requires Tracked() && sr != 0 && |frame| > 0
      requires prevMag == Some(SpectrumOf(frame, sr, binMagnitude).mag)
      modifies this, mm, detector
      ensures Valid()
      ensures frames == old(frames) + 1 && demoTime == old(demoTime) + samplesPerFrame as real / sr as real
      ensures ticks == old(ticks) + [Record(old(ticks), frame, feat, now)] && sent == ticks[|old(ticks)|].frame
      ensures running == old(running) && prevMag == old(prevMag) && lastCfgMtime == old(lastCfgMtime)
    {
      var mode := mm.Update(ModeInput(feat), now);
      var hstate := detector.Update(HighlightInput(feat), mode, now);
      sent := SendPixelFrame(mode, hstate, frames);
      var t := TickRecord(frame, feat, mode, hstate, now, sent);
      ExtendRecord(modes, highlight, ticks, t, sr, binMagnitude, prevMag);
      ticks := ticks + [t];
      frames := frames + 1;
      demoTime := demoTime + samplesPerFrame as real / sr as real;
    }

    /** One iteration of `run`'s loop: a tick, during which a signal may
        arrive. Returns false when the tick raised. */
    method Pass(input: TickInput) returns (ok: bool)
      requires Valid() && |input.frame| == samplesPerFrame
      modifies this, mm, detector
      ensures Valid()
      ensures ok <==> sr != 0
      ensures ok ==> frames == old(frames) + 1 && demoTime == old(demoTime) + samplesPerFrame as real / sr as real
      ensures ok ==> running == (old(running) && !input.signal)
      ensures ok ==> lastCfgMtime == ReloadStep(old(lastCfgMtime), input.mtime, input.loadOk)
      ensures ok ==> ticks == old(ticks) + [NextRecord(old(ticks), input)]
      ensures !ok ==> frames == old(frames) && demoTime == old(demoTime) && running == old(running)
      ensures !ok ==> ticks == old(ticks) && lastCfgMtime == old(lastCfgMtime)
    {
      var sent := Tick(input);
      if sent.Err? {
        return false;
      }
      if input.signal {
        SignalHandler();
      }
      return true;
    }

    /** The ticks of `run` after `base` took, one each and in order, the
        samples and time of `inputs[..n]`. */
    ghost predicate Consumed(base: seq<TickRecord>, run: seq<TickRecord>, inputs: seq<TickInput>, n: nat)
      requires n <= |inputs|
    {
      |run| == |base| + n && run[..|base|] == base &&
      forall k :: 0 <= k < n ==> run[|base| + k].input == inputs[k].frame && run[|base| + k].now == inputs[k].now
    }

    /** Each tick of `run` after `base` is the one recorded for its input
        among `inputs[..n]` after the ticks before it. */
    ghost predicate Derived(base: seq<TickRecord>, run: seq<TickRecord>, inputs: seq<TickInput>, n: nat)
      requires n <= |inputs|
      decreases n, 1, 0
    {
      if n == 0 then run == base else |run| > 0 && DerivedLast(base, run, inputs, n)
    }

    /** `Derived` for `inputs[..n]`, `n > 0`: a tick was recorded, which
        takes a non-zero sample rate, and `LastRecorded` holds. */
    ghost predicate DerivedLast(base: seq<TickRecord>, run: seq<TickRecord>, inputs: seq<TickInput>, n: nat)
      requires 0 < n <= |inputs| && |run| > 0
      decreases n, 0, 1
    {
      sr != 0 && LastRecorded(base, run, inputs, n)
    }

    /** The ticks of `run` before its last are derived from
        `inputs[..n - 1]`, and its last is recorded for `inputs[n - 1]` after
        them. */
    ghost predicate LastRecorded(base: seq<TickRecord>, run: seq<TickRecord>, inputs: seq<TickInput>, n: nat)
      requires 0 < n <= |inputs| && |run| > 0 && sr != 0
      decreases n, 0, 0
    {
      Derived(base, run[..|run| - 1], inputs, n - 1) && run[|run| - 1] == NextRecord(run[..|run| - 1], inputs[n - 1])
    }

    /** Recording the tick for `inputs[n]` after `run` extends `Derived` by one input. */
    lemma DerivedNext(base: seq<TickRecord>, run: seq<TickRecord>, next: seq<TickRecord>, inputs: seq<TickInput>, n: nat)
      requires n < |inputs| && sr != 0 && Derived(base, run, inputs, n)
      requires next == run + [NextRecord(run, inputs[n])]
      ensures Derived(base, next, inputs, n + 1)
    {
      assert next[..|next| - 1] == run;
      assert LastRecorded(base, next, inputs, n + 1);
      assert DerivedLast(base, next, inputs, n + 1);
    }

    /** A tick that took the samples and time of `inputs[n]` extends `Consumed` by one input. */
    lemma ConsumedNext(base: seq<TickRecord>, run: seq<TickRecord>, t: TickRecord, inputs: seq<TickInput>, n: nat)
      requires n < |inputs| && Consumed(base, run, inputs, n)
      requires t.input == inputs[n].frame && t.now == inputs[n].now
      ensures Consumed(base, run + [t], inputs, n + 1)
    {
      var next := run + [t];
      assert next[..|base|] == run[..|base|];
      forall k | 0 <= k < n + 1
        ensures next[|base| + k].input == inputs[k].frame && next[|base| + k].now == inputs[k].now
      {
        if k < n {
          assert next[|base| + k] == run[|base| + k];
        }
      }
    }

    /** The ticks derived from `inputs[..n]` took their samples and times. */
    lemma {:induction false} DerivedConsumed(base: seq<TickRecord>, run: seq<TickRecord>, inputs: seq<TickInput>, n: nat)
      requires n <= |inputs| && Derived(base, run, inputs, n)
      ensures Consumed(base, run, inputs, n)
      decreases n
    {
      if n > 0 {
        var prior := run[..|run| - 1];
        assert DerivedLast(base, run, inputs, n) && LastRecorded(base, run, inputs, n);
        DerivedConsumed(base, prior, inputs, n - 1);
        assert prior + [run[|run| - 1]] == run;
        ConsumedNext(base, prior, run[|run| - 1], inputs, n - 1);
      }
    }

    /** The seconds of audio one tick adds to `demo_time`. */
    function FrameStep(): real
    {
      if sr != 0 then samplesPerFrame as real / sr as real else 0.0
    }

    /** `Pass` over `inputs[i]`, accounted against the inputs before it:
        the ticks after `base` are those of `inputs[..i + 1]`, and the demo
        clock and the remembered mtime have moved once more. */
    method PassAt(inputs: seq<TickInput>, i: nat, ghost base: seq<TickRecord>, ghost last: Option<real>, ghost d0: real)
      returns (ok: bool)
      requires Valid() && i < |inputs| && |inputs[i].frame| == samplesPerFrame
      requires Derived(base, ticks, inputs, i)
      requires lastCfgMtime == ReloadAfter(last, inputs[..i]) && demoTime == Advance(d0, i, FrameStep())
      modifies this, mm, detector
      ensures Valid()
      ensures ok <==> sr != 0
      ensures ok ==>
        frames == old(frames) + 1 && running == (old(running) && !inputs[i].signal) &&
        demoTime == Advance(d0, i + 1, FrameStep()) &&
        Derived(base, ticks, inputs, i + 1) && lastCfgMtime == ReloadAfter(last, inputs[..i + 1])
      ensures !ok ==>
        frames == old(frames) && demoTime == old(demoTime) && running == old(running) &&
        ticks == old(ticks) && lastCfgMtime == old(lastCfgMtime)
    {
      ok := Pass(inputs[i]);
      if ok {
        DerivedNext(base, old(ticks), ticks, inputs, i);
        assert inputs[..i + 1][..i] == inputs[..i];
      }
    }

    /** `run`: ticks while `running`, the signal handler running during the
        tick whose input carries a signal; any raised error ends the loop
        with exit code 1, otherwise the exit code is 0. */
    method Run(inputs: seq<TickInput>) returns (code: int)
      requires Valid()
      requires forall i :: 0 <= i < |inputs| ==> |inputs[i].frame| == samplesPerFrame
      requires running ==> exists j :: 0 <= j < |inputs| && inputs[j].signal
      modifies this, mm, detector
      ensures Valid() && (code == 0 || code == 1)
      ensures code == 1 <==> old(running) && sr == 0
      ensures code == 1 ==> frames == old(frames) && demoTime == old(demoTime)
      ensures code == 0 ==> !running
      ensures code == 0 && old(running) ==>
        frames == old(frames) + FirstSignal(inputs) + 1 &&
        demoTime == Advance(old(demoTime), FirstSignal(inputs) + 1, samplesPerFrame as real / sr as real)
      ensures !old(running) ==> frames == old(frames) && demoTime == old(demoTime)
      ensures code == 1 || !old(running) ==> ticks == old(ticks) && lastCfgMtime == old(lastCfgMtime)
      ensures code == 0 && old(running) ==>
        Consumed(old(ticks), ticks, inputs, FirstSignal(inputs) + 1) &&
        Derived(old(ticks), ticks, inputs, FirstSignal(inputs) + 1) &&
        lastCfgMtime == ReloadAfter(old(lastCfgMtime), inputs[..FirstSignal(inputs) + 1])
    {
      var i: nat := 0;
      ghost var stop := if running then FirstSignal(inputs) else 0;
      ghost var d0 := demoTime;
      while running
        invariant Valid()
        invariant running ==> old(running) && i <= stop < |inputs| && inputs[stop].signal
        invariant !running ==> (old(running) ==> i == stop + 1) && (!old(running) ==> i == 0)
        invariant demoTime == Advance(d0, i, FrameStep())
        invariant i > 0 ==> sr != 0
        invariant i <= |inputs|
        invariant Derived(old(ticks), ticks, inputs, i)
        invariant lastCfgMtime == ReloadAfter(old(lastCfgMtime), inputs[..i])
        decreases |inputs| - i
      {
        assert i < stop ==> !inputs[i].signal;
        var ok := PassAt(inputs, i, old(ticks), old(lastCfgMtime), d0);
        if !ok {
          return 1;
        }
        i := i + 1;
      }
      DerivedConsumed(old(ticks), ticks, inputs, i);
      return 0;
    }

    /** `run` as written: the first pass computes the features, reloads
        the config and updates the mode manager, then calls
        `mm.update_highlight`, which `ModeManager` does not define; the
        handler catches the error and returns 1 before `frames` or
        `demo_time` move. A zero sample rate raises earlier, in the feature
        computation. */
    method RunAsWritten(inputs: seq<TickInput>) returns (code: int)
      requires Valid()
      requires running ==> |inputs| > 0 && |inputs[0].frame| == samplesPerFrame
      modifies this, mm
      ensures code == if old(running) then 1 else 0
      ensures frames == old(frames) && demoTime == old(demoTime) && running == old(running)
      ensures old(running) && sr != 0 ==>
        var input := inputs[0];
        var feat := FrameFeaturesFromBuffer(input.frame, sr, old(prevMag), binMagnitude, sqrt).value.0;
        lastCfgMtime == ReloadStep(old(lastCfgMtime), input.mtime, input.loadOk) &&
        mm.State() == Modes.Step(modes, old(mm.State()), ModeInput(feat), input.now)
    {
      if !running {
        return 0;
      }
      var input := inputs[0];
      var computed := FrameFeaturesFromBuffer(input.frame, sr, prevMag, binMagnitude, sqrt);
      if computed.Err? {
        return 1;
      }
      var feat := computed.value.0;
      prevMag := computed.value.1;
      var _ := CheckConfigReload(input.mtime, input.loadOk);
      var mode := mm.Update(ModeInput(feat), input.now);
      // `self.mm.update_highlight(...)` raises AttributeError here.
      return 1;
    }
  }

  /** `__init__`, which raises on a zero frame rate (`1.0 / self.fps`). */
  method NewDaemonLoop(targetFps: Option<int>, sampleRate: int, cfg: LoopSettings,
                       binMagnitude: (seq<real>, nat) -> Features.Mag, sqrt: Features.Mag -> Features.Mag)
    returns (r: Result<DaemonLoop, ScheduleError>)
    ensures r.Err? <==> EffectiveFps(targetFps, cfg) == 0
    ensures r.Err? ==> r.error == ZeroFrameRate
    ensures r.Ok? ==> fresh(r.value) && r.value.Valid() && r.value.running && r.value.frames == 0
    ensures r.Ok? ==> r.value.samplesPerFrame == SamplesPerFrame(sampleRate, EffectiveFps(targetFps, cfg), cfg)
  {
    if EffectiveFps(targetFps, cfg) == 0 {
      return Err(ZeroFrameRate);
    }
    var loop := new DaemonLoop(targetFps, sampleRate, cfg, binMagnitude, sqrt);
    return Ok(loop);
  }
}
