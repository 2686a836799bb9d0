/** Highlight/drop detection for MUSIC: a clamped weighted score and a
    three-state machine with hysteresis and a cooldown, as in
    `HighlightDetector`. */
module HighlightDetection {
  import opened Wrappers
  import opened Numeric
  import Modes

  datatype HighlightState = Idle | Highlight | Drop

  /** The settings keys the detector reads. */
  datatype HighlightSettings = HighlightSettings(
    threshold: real,
    dropThreshold: real,
    hysteresis: real,
    cooldownSeconds: real,
    weightRms: real,
    weightHigh: real,
    weightFlux: real)

  /** The values used when a key is missing from the settings dictionary. */
  const DefaultHighlightSettings := HighlightSettings(0.65, 0.25, 0.08, 0.3, 0.3, 0.3, 0.4)

  /** The feature keys the score reads (a missing key reads as 0.0). */
  datatype HighlightFeatures = HighlightFeatures(rms: real, bandHigh: real, flux: real)

  /** RMS normalised against an assumed ceiling of 0.1. */
  function RmsNorm(rms: real): real
  {
    MinR(1.0, rms / 0.1)
  }

  /** Flux normalised against an assumed ceiling of 0.5. */
  function FluxNorm(flux: real): real
  {
    MinR(1.0, flux / 0.5)
  }

  /** The weight sum, or 1.0 when that sum is not positive. */
  function Divisor(s: HighlightSettings): (d: real)
    ensures d > 0.0
    ensures s.weightRms + s.weightHigh + s.weightFlux > 0.0 ==> d == s.weightRms + s.weightHigh + s.weightFlux
    ensures s.weightRms + s.weightHigh + s.weightFlux <= 0.0 ==> d == 1.0
  {
    var total := s.weightRms + s.weightHigh + s.weightFlux;
    if total <= 0.0 then 1.0 else total
  }

  /** The weighted blend before clamping. */
  function Blend(s: HighlightSettings, f: HighlightFeatures): real
  {
    (s.weightRms * RmsNorm(f.rms) + s.weightHigh * f.bandHigh + s.weightFlux * FluxNorm(f.flux)) / Divisor(s)
  }

  /** `compute_score`: the blend clamped into [0, 1]. */
  function ComputeScore(s: HighlightSettings, f: HighlightFeatures): (r: real)
    ensures 0.0 <= r <= 1.0
    ensures 0.0 <= Blend(s, f) <= 1.0 ==> r == Blend(s, f)
    ensures Blend(s, f) < 0.0 ==> r == 0.0
    ensures Blend(s, f) > 1.0 ==> r == 1.0
  {
    MinR(1.0, MaxR(0.0, Blend(s, f)))
  }

  /** With non-negative weights of positive sum and features in their
      natural ranges, the blend is a weighted average of values in [0, 1],
      so the clamp never changes it. */
  lemma BlendIsWeightedAverage(s: HighlightSettings, f: HighlightFeatures)
    requires 0.0 <= s.weightRms && 0.0 <= s.weightHigh && 0.0 <= s.weightFlux
    requires s.weightRms + s.weightHigh + s.weightFlux > 0.0
    requires 0.0 <= f.rms && 0.0 <= f.bandHigh <= 1.0 && 0.0 <= f.flux
    ensures ComputeScore(s, f) == Blend(s, f)
  {
    var a, b, c := RmsNorm(f.rms), f.bandHigh, FluxNorm(f.flux);
    assert 0.0 <= a <= 1.0 && 0.0 <= c <= 1.0;
    WeightedAverageInUnit(s.weightRms, s.weightHigh, s.weightFlux, a, b, c);
  }

  lemma WeightedAverageInUnit(wa: real, wb: real, wc: real, a: real, b: real, c: real)
    requires 0.0 <= wa && 0.0 <= wb && 0.0 <= wc && wa + wb + wc > 0.0
    requires 0.0 <= a <= 1.0 && 0.0 <= b <= 1.0 && 0.0 <= c <= 1.0
    ensures 0.0 <= (wa * a + wb * b + wc * c) / (wa + wb + wc) <= 1.0
  {
    var x := MulAtMost(wa, a);
    var y := MulAtMost(wb, b);
    var z := MulAtMost(wc, c);
    DivAtMostOne(x + y + z, wa + wb + wc);
  }

  lemma MulAtMost(w: real, x: real) returns (p: real)
    requires 0.0 <= w && 0.0 <= x <= 1.0
    ensures p == w * x && 0.0 <= p <= w
  {
    p := w * x;
  }

  lemma DivAtMostOne(num: real, total: real)
    requires 0.0 <= num <= total && total > 0.0
    ensures 0.0 <= num / total <= 1.0
  {
  }

  /** The transition table, applied once the cooldown has elapsed. */
  function Next(s: HighlightSettings, state: HighlightState, score: real): HighlightState
  {
    match state
    case Idle =>
      if score >= s.threshold then Highlight
      else if score < s.dropThreshold then Drop
      else Idle
    case Highlight =>
      if score < s.threshold - s.hysteresis then (if score < s.dropThreshold then Drop else Idle)
      else Highlight
    case Drop =>
      if score >= s.dropThreshold + s.hysteresis then Idle else Drop
  }

  /** Each row of the table, in both directions. */
  lemma TransitionTable(s: HighlightSettings, score: real)
    ensures Next(s, Idle, score) == Highlight <==> score >= s.threshold
    ensures Next(s, Idle, score) == Drop <==> score < s.threshold && score < s.dropThreshold
    ensures Next(s, Highlight, score) != Highlight <==> score < s.threshold - s.hysteresis
    ensures Next(s, Highlight, score) == Drop <==> score < s.threshold - s.hysteresis && score < s.dropThreshold
    ensures Next(s, Drop, score) == Idle <==> score >= s.dropThreshold + s.hysteresis
    ensures Next(s, Drop, score) != Highlight
  {
  }

  /** Hysteresis: with a non-negative margin, a score that enters HIGHLIGHT
      keeps it there, and a score that enters DROP from IDLE keeps it in
      DROP. */
  lemma HysteresisKeepsState(s: HighlightSettings, score: real)
    requires s.hysteresis >= 0.0
    ensures Next(s, Idle, score) == Highlight ==> Next(s, Highlight, score) == Highlight
    ensures Next(s, Idle, score) == Drop ==> Next(s, Drop, score) == Drop
  {
  }

  /** `state` and `_last_transition_time`. */
  datatype HighlightMemory = HighlightMemory(state: HighlightState, lastTransition: Option<real>)

  const InitialHighlightMemory := HighlightMemory(Idle, None)

  /** One call of `HighlightDetector.update` on the memory it starts from. */
  function Step(s: HighlightSettings, m: HighlightMemory, f: HighlightFeatures, mode: Modes.Mode, now: real)
    : (r: HighlightMemory)
    ensures mode != Modes.Music ==> r == HighlightMemory(Idle, m.lastTransition)
    ensures mode == Modes.Music && now - OrNow(m.lastTransition, now) < s.cooldownSeconds ==>
      r.state == m.state
    ensures mode == Modes.Music && now - OrNow(m.lastTransition, now) >= s.cooldownSeconds ==>
      r.state == Next(s, m.state, ComputeScore(s, f))
    ensures mode == Modes.Music && r.state != m.state ==> r.lastTransition == Some(now)
    ensures mode == Modes.Music && r.state == m.state ==> r.lastTransition == Some(OrNow(m.lastTransition, now))
  {
    if mode != Modes.Music then HighlightMemory(Idle, m.lastTransition)
    else
      var last := OrNow(m.lastTransition, now);
      var score := ComputeScore(s, f);
      if now - last < s.cooldownSeconds then HighlightMemory(m.state, Some(last))
      else
        var next := Next(s, m.state, score);
        if next != m.state then HighlightMemory(next, Some(now)) else HighlightMemory(m.state, Some(last))
  }

  /** A transition recorded at time 0.0 is read as unset by the next update,
      so with a positive cooldown the state never changes again while the
      mode stays MUSIC. */
  lemma TransitionAtZeroFreezesState(s: HighlightSettings, m: HighlightMemory, f: HighlightFeatures, now: real)
    requires s.cooldownSeconds > 0.0 && m.lastTransition == Some(0.0)
    ensures Step(s, m, f, Modes.Music, now) == HighlightMemory(m.state, Some(now))
  {
  }

  /** Updates fed in order: `(features, mode, now)` per call. */
  datatype Update = Update(feat: HighlightFeatures, mode: Modes.Mode, now: real)

  function Run(s: HighlightSettings, m: HighlightMemory, trace: seq<Update>): HighlightMemory
  {
    if trace == [] then m
    else
      var u := trace[|trace| - 1];
      Step(s, Run(s, m, trace[..|trace| - 1]), u.feat, u.mode, u.now)
  }

  lemma RunSnoc(s: HighlightSettings, m: HighlightMemory, trace: seq<Update>, u: Update)
    ensures Run(s, m, trace + [u]) == Step(s, Run(s, m, trace), u.feat, u.mode, u.now)
  {
    assert (trace + [u])[..|trace|] == trace;
  }

  /** The settings of tests/test_highlight.py: no cooldown, no hysteresis. */
  const TestSettings := HighlightSettings(0.65, 0.25, 0.0, 0.0, 0.3, 0.3, 0.4)

  const LoudFeatures := HighlightFeatures(0.08, 0.7, 0.4)
  const QuietFeatures := HighlightFeatures(0.001, 0.1, 0.05)

  /** The two feature sets of the tests score 0.77 and 0.073 with the
      default weights. */
  lemma TestScores()
    ensures ComputeScore(TestSettings, LoudFeatures) == 0.77
    ensures ComputeScore(TestSettings, QuietFeatures) == 0.073
  {
    assert RmsNorm(0.08) == 0.8 && FluxNorm(0.4) == 0.8;
    assert RmsNorm(0.001) == 0.01 && FluxNorm(0.05) == 0.1;
  }

  /** Three MUSIC updates at score 0.77 reach HIGHLIGHT; at 0.073 they reach
      DROP. */
  lemma TestRuns()
    ensures Run(TestSettings, InitialHighlightMemory,
      [Update(LoudFeatures, Modes.Music, 1000.05), Update(LoudFeatures, Modes.Music, 1000.10),
       Update(LoudFeatures, Modes.Music, 1000.15)]).state == Highlight
    ensures Run(TestSettings, InitialHighlightMemory,
      [Update(QuietFeatures, Modes.Music, 2000.05), Update(QuietFeatures, Modes.Music, 2000.10),
       Update(QuietFeatures, Modes.Music, 2000.15)]).state == Drop
  {
    TestScores();
    var s, m0 := TestSettings, InitialHighlightMemory;
    var a1, a2, a3 := Update(LoudFeatures, Modes.Music, 1000.05), Update(LoudFeatures, Modes.Music, 1000.10),
      Update(LoudFeatures, Modes.Music, 1000.15);
    RunSnoc(s, m0, [], a1);
    assert Run(s, m0, [a1]).state == Highlight;
    RunSnoc(s, m0, [a1], a2);
    assert [a1] + [a2] == [a1, a2];
    assert Run(s, m0, [a1, a2]).state == Highlight;
    RunSnoc(s, m0, [a1, a2], a3);
    assert [a1, a2] + [a3] == [a1, a2, a3];

    var b1, b2, b3 := Update(QuietFeatures, Modes.Music, 2000.05), Update(QuietFeatures, Modes.Music, 2000.10),
      Update(QuietFeatures, Modes.Music, 2000.15);
    RunSnoc(s, m0, [], b1);
    assert Run(s, m0, [b1]).state == Drop;
    RunSnoc(s, m0, [b1], b2);
    assert [b1] + [b2] == [b1, b2];
    assert Run(s, m0, [b1, b2]).state == Drop;
    RunSnoc(s, m0, [b1, b2], b3);
    assert [b1, b2] + [b3] == [b1, b2, b3];
  }

  /** `HighlightDetector`: the state and the last transition time, updated in
      place by each call. */
  class HighlightDetector {
    const settings: HighlightSettings
    var state: HighlightState
    var lastTransitionTime: Option<real>

    function Memory(): HighlightMemory
      reads this
    {
      HighlightMemory(state, lastTransitionTime)
    }

    constructor (settings: HighlightSettings)
      ensures this.settings == settings && Memory() == InitialHighlightMemory
    {
      this.settings := settings;
      state := Idle;
      lastTransitionTime := None;
    }

    /** `update(feat, mode, now)`: returns the state after the call. */
    method Update(f: HighlightFeatures, mode: Modes.Mode, now: real) returns (r: HighlightState)
      modifies this
      ensures Memory() == Step(settings, old(Memory()), f, mode, now)
      ensures r == state
    {
      if mode != Modes.Music {
        state := Idle;
        return state;
      }
      lastTransitionTime := Some(OrNow(lastTransitionTime, now));
      var score := ComputeScore(settings, f);
      var threshold := settings.threshold;
      var dropThresh := settings.dropThreshold;
      var hyst := settings.hysteresis;
      var cooldown := settings.cooldownSeconds;
      var elapsed := now - lastTransitionTime.value;
      var thresholdGo := if state == Highlight then threshold - hyst
        else if state == Drop then dropThresh + hyst
        else threshold;
      if elapsed < cooldown {
        return state;
      }
      match state {
        case Idle =>
          if score >= threshold {
            state := Highlight;
            lastTransitionTime := Some(now);
          } else if score < dropThresh {
            state := Drop;
            lastTransitionTime := Some(now);
          }
        case Highlight =>
          if score < thresholdGo {
            state := if score < dropThresh then Drop else Idle;
            lastTransitionTime := Some(now);
          }
        case Drop =>
          if score >= dropThresh + hyst {
            state := Idle;
            lastTransitionTime := Some(now);
          }
      }
      return state;
    }
  }
}
