/** The show-mode classifier: rule scores for IDLE, SPEECH and MUSIC, the
    first-maximum candidate, and the hold-time switch of `ModeManager`. */
module Modes {
  import opened Wrappers
  import opened Numeric

  datatype Mode = Idle | Speech | Music

  /** Declaration order of `MODES`, which decides ties. */
  function Rank(m: Mode): nat
  {
    match m
    case Idle => 0
    case Speech => 1
    case Music => 2
  }

  /** The settings keys the classifier reads. */
  datatype ModeSettings = ModeSettings(
    rmsSilenceThreshold: real,
    speechMidProp: real,
    musicOnsetDensity: real,
    musicHighProp: real,
    modeHoldSeconds: real)

  /** The values used when a key is missing from the settings dictionary. */
  const DefaultModeSettings := ModeSettings(0.00001, 0.45, 0.08, 0.30, 0.6)

  /** The feature keys the classifier reads (a missing key reads as 0.0). */
  datatype ModeFeatures = ModeFeatures(
    rms: real,
    bandLow: real,
    bandMid: real,
    bandHigh: real,
    onsetDensity: real)

  datatype Scores = Scores(idle: real, speech: real, music: real) {
    function Of(m: Mode): real
    {
      match m
      case Idle => idle
      case Speech => speech
      case Music => music
    }
  }

  predicate IdleRule(s: ModeSettings, f: ModeFeatures)
  {
    f.rms < s.rmsSilenceThreshold
  }

  predicate SpeechRule(s: ModeSettings, f: ModeFeatures)
  {
    f.bandMid > s.speechMidProp && f.onsetDensity < s.musicOnsetDensity
  }

  predicate MusicRule(s: ModeSettings, f: ModeFeatures)
  {
    f.onsetDensity > s.musicOnsetDensity && f.bandHigh > s.musicHighProp
  }

  /** `_score_modes`: every score starts at 0.0 and each rule that fires adds
      to its own mode. */
  function ScoreModes(s: ModeSettings, f: ModeFeatures): (r: Scores)
    ensures 0.0 <= r.idle && 0.0 <= r.speech && 0.0 <= r.music
    ensures r.idle != 0.0 <==> IdleRule(s, f)
    ensures r.speech != 0.0 <==> SpeechRule(s, f)
    ensures r.music != 0.0 <==> MusicRule(s, f) || f.bandHigh > 0.5
    ensures IdleRule(s, f) ==> r.idle == 1.0
    ensures SpeechRule(s, f) ==> r.speech == 1.0 + (f.bandMid - s.speechMidProp)
    ensures MusicRule(s, f) && f.bandHigh > 0.5 ==> r.music == 1.5 + (f.onsetDensity - s.musicOnsetDensity)
    ensures MusicRule(s, f) && f.bandHigh <= 0.5 ==> r.music == 1.0 + (f.onsetDensity - s.musicOnsetDensity)
    ensures !MusicRule(s, f) && f.bandHigh > 0.5 ==> r.music == 0.5
  {
    var idle := if IdleRule(s, f) then 0.0 + 1.0 else 0.0;
    var speech := if SpeechRule(s, f) then 0.0 + (1.0 + (f.bandMid - s.speechMidProp)) else 0.0;
    var music := if MusicRule(s, f) then 0.0 + (1.0 + (f.onsetDensity - s.musicOnsetDensity)) else 0.0;
    var music' := if f.bandHigh > 0.5 then music + 0.5 else music;
    Scores(idle, speech, music')
  }

  /** Python `max(scores.items(), key=...)` over the insertion-ordered
      dictionary: the first mode, in declaration order, whose score is
      maximal. */
  function Candidate(sc: Scores): (m: Mode)
    ensures forall o: Mode :: sc.Of(o) <= sc.Of(m)
    ensures forall o: Mode :: Rank(o) < Rank(m) ==> sc.Of(o) < sc.Of(m)
  {
    if sc.idle >= sc.speech && sc.idle >= sc.music then Idle
    else if sc.speech >= sc.music then Speech
    else Music
  }

  /** The two properties in `Candidate`'s contract pick exactly one mode. */
  lemma CandidateIsTheFirstMaximum(sc: Scores, m: Mode)
    requires forall o: Mode :: sc.Of(o) <= sc.Of(m)
    requires forall o: Mode :: Rank(o) < Rank(m) ==> sc.Of(o) < sc.Of(m)
    ensures m == Candidate(sc)
  {
    var c := Candidate(sc);
    assert sc.Of(c) == sc.Of(m);
  }

  /** When no rule fires every score is 0.0 and the tie goes to IDLE. */
  lemma NoRuleGivesIdle(s: ModeSettings, f: ModeFeatures)
    requires !IdleRule(s, f) && !SpeechRule(s, f) && !MusicRule(s, f) && f.bandHigh <= 0.5
    ensures Candidate(ScoreModes(s, f)) == Idle
  {
  }

  /** `current_mode`, `_candidate` and `_candidate_since`. */
  datatype ModeState = ModeState(current: Mode, candidate: Option<Mode>, candidateSince: Option<real>)

  const InitialModeState := ModeState(Idle, None, None)

  /** The time the candidate has persisted, as `update` computes it: a
      recorded 0.0 is falsy and reads as `now`. */
  function Held(st: ModeState, now: real): real
  {
    now - OrNow(st.candidateSince, now)
  }

  /** One call of `ModeManager.update` on the state it starts from. */
  function Step(s: ModeSettings, st: ModeState, f: ModeFeatures, now: real): (r: ModeState)
    ensures r.candidate == Some(Candidate(ScoreModes(s, f)))
    ensures r.candidateSince == if st.candidate == r.candidate then st.candidateSince else Some(now)
    ensures r.current == st.current || (r.current == Candidate(ScoreModes(s, f)) && Held(r, now) >= s.modeHoldSeconds)
    ensures Held(r, now) >= s.modeHoldSeconds ==> r.current == Candidate(ScoreModes(s, f))
  {
    var cand := Candidate(ScoreModes(s, f));
    var st' := if Some(cand) != st.candidate then st.(candidate := Some(cand), candidateSince := Some(now)) else st;
    if cand == st'.current then st'
    else if Held(st', now) >= s.modeHoldSeconds && cand != st'.current then st'.(current := cand)
    else st'
  }

  /** The timer restarts whenever the candidate changes, also when the new
      candidate is the active mode. */
  lemma NewCandidateRestartsTimer(s: ModeSettings, st: ModeState, f: ModeFeatures, now: real)
    requires st.candidate != Some(Candidate(ScoreModes(s, f)))
    requires st.current == Candidate(ScoreModes(s, f))
    ensures Step(s, st, f, now) == ModeState(st.current, Some(st.current), Some(now))
  {
  }

  /** With a positive hold a candidate that has just appeared never switches
      the mode in the same update. */
  lemma NewCandidateNeverSwitchesAtOnce(s: ModeSettings, st: ModeState, f: ModeFeatures, now: real)
    requires s.modeHoldSeconds > 0.0
    requires st.candidate != Some(Candidate(ScoreModes(s, f)))
    ensures Step(s, st, f, now).current == st.current
  {
  }

  /** A candidate first recorded at time 0.0 never becomes active while it
      stays the candidate (hold > 0): `_candidate_since or now` treats the
      recorded 0.0 as unset, so the persisted time always reads as 0. */
  lemma CandidateSinceZeroNeverSwitches(s: ModeSettings, st: ModeState, f: ModeFeatures, now: real)
    requires s.modeHoldSeconds > 0.0
    requires st.candidate == Some(Candidate(ScoreModes(s, f))) && st.candidateSince == Some(0.0)
    ensures Step(s, st, f, now) == st
  {
  }

  /** Updates fed in order: `trace[i]` is one `(features, now)` call. */
  datatype Update = Update(feat: ModeFeatures, now: real)

  function Run(s: ModeSettings, st: ModeState, trace: seq<Update>): ModeState
  {
    if trace == [] then st
    else Step(s, Run(s, st, trace[..|trace| - 1]), trace[|trace| - 1].feat, trace[|trace| - 1].now)
  }

  function CandidateOf(s: ModeSettings, u: Update): Mode
  {
    Candidate(ScoreModes(s, u.feat))
  }

  lemma RunSnoc(s: ModeSettings, st: ModeState, trace: seq<Update>, u: Update)
    ensures Run(s, st, trace + [u]) == Step(s, Run(s, st, trace), u.feat, u.now)
  {
    assert (trace + [u])[..|trace|] == trace;
  }

  /** Every update from `j` on has the same candidate. */
  ghost predicate StreakFrom(s: ModeSettings, trace: seq<Update>, j: int)
  {
    0 <= j < |trace| && forall i :: j <= i < |trace| ==> CandidateOf(s, trace[i]) == CandidateOf(s, trace[j])
  }

  /** The state records the candidate of update `j` and its time. */
  ghost predicate TimerAt(s: ModeSettings, st: ModeState, trace: seq<Update>, j: int)
    requires 0 <= j < |trace|
  {
    st.candidateSince == Some(trace[j].now) && st.candidate == Some(CandidateOf(s, trace[j]))
  }

  /** From the initial state, the recorded timer is the time of the first
      update of the current run of equal candidates. */
  lemma {:induction false} TimerMarksStreakStart(s: ModeSettings, trace: seq<Update>) returns (j: int)
    requires |trace| > 0
    ensures StreakFrom(s, trace, j) && TimerAt(s, Run(s, InitialModeState, trace), trace, j)
  {
    var n := |trace|;
    var prefix, last := trace[..n - 1], trace[n - 1];
    assert trace == prefix + [last];
    RunSnoc(s, InitialModeState, prefix, last);
    var prev := Run(s, InitialModeState, prefix);
    if n == 1 {
      assert prefix == [];
      j := 0;
    } else if prev.candidate == Some(CandidateOf(s, last)) {
      var k := TimerMarksStreakStart(s, prefix);
      StreakExtends(s, prefix, last, k);
      j := k;
    } else {
      j := n - 1;
    }
  }

  /** An update with the streak's candidate extends the streak. */
  lemma StreakExtends(s: ModeSettings, prefix: seq<Update>, last: Update, k: int)
    requires StreakFrom(s, prefix, k)
    requires Some(CandidateOf(s, last)) == Some(CandidateOf(s, prefix[k]))
    ensures StreakFrom(s, prefix + [last], k) && (prefix + [last])[k] == prefix[k]
  {
    var trace := prefix + [last];
    forall i | k <= i < |trace| ensures CandidateOf(s, trace[i]) == CandidateOf(s, trace[k]) {
      if i < |prefix| { assert trace[i] == prefix[i]; }
    }
  }


  /** Hold-time hysteresis over any sequence of updates: when the active mode
      changes, it changes to the candidate of every update since some update
      `j` whose time lies at least `hold` before now (as `update` measures
      it, with a 0.0 timestamp read as unset). */
  lemma SwitchRequiresHeldCandidate(s: ModeSettings, trace: seq<Update>) returns (j: int)
    requires |trace| > 0
    requires Run(s, InitialModeState, trace).current != Run(s, InitialModeState, trace[..|trace| - 1]).current
    ensures 0 <= j < |trace|
    ensures forall i :: j <= i < |trace| ==> CandidateOf(s, trace[i]) == Run(s, InitialModeState, trace).current
    ensures trace[|trace| - 1].now - OrNow(Some(trace[j].now), trace[|trace| - 1].now) >= s.modeHoldSeconds
  {
    var n := |trace|;
    j := TimerMarksStreakStart(s, trace);
    assert trace == trace[..n - 1] + [trace[n - 1]];
    RunSnoc(s, InitialModeState, trace[..n - 1], trace[n - 1]);
  }

  /** The settings of tests/test_mode_manager.py, with `hold` seconds. */
  function TestSettings(hold: real): ModeSettings
  {
    ModeSettings(0.0001, 0.45, 0.05, 0.25, hold)
  }

  const MusicFeatures := ModeFeatures(0.02, 0.1, 0.2, 0.7, 0.2)
  const SilentFeatures := ModeFeatures(0.00001, 0.8, 0.1, 0.1, 0.0)

  /** MUSIC-scoring features every 0.06 s for five updates with hold 0.2 end
      in MUSIC. */
  lemma IdleToMusicAfterHold()
    ensures Run(TestSettings(0.2), InitialModeState,
      [Update(MusicFeatures, 1000.06), Update(MusicFeatures, 1000.12), Update(MusicFeatures, 1000.18),
       Update(MusicFeatures, 1000.24), Update(MusicFeatures, 1000.30)]).current == Music
  {
    var s := TestSettings(0.2);
    assert Candidate(ScoreModes(s, MusicFeatures)) == Music;
    var u1, u2, u3, u4, u5 := Update(MusicFeatures, 1000.06), Update(MusicFeatures, 1000.12),
      Update(MusicFeatures, 1000.18), Update(MusicFeatures, 1000.24), Update(MusicFeatures, 1000.30);
    var waiting := ModeState(Idle, Some(Music), Some(1000.06));
    RunSnoc(s, InitialModeState, [], u1);
    assert Run(s, InitialModeState, [u1]) == waiting;
    RunSnoc(s, InitialModeState, [u1], u2);
    assert [u1] + [u2] == [u1, u2];
    HeldCandidateStep(s, waiting, MusicFeatures, 1000.12);
    RunSnoc(s, InitialModeState, [u1, u2], u3);
    assert [u1, u2] + [u3] == [u1, u2, u3];
    HeldCandidateStep(s, waiting, MusicFeatures, 1000.18);
    RunSnoc(s, InitialModeState, [u1, u2, u3], u4);
    assert [u1, u2, u3] + [u4] == [u1, u2, u3, u4];
    HeldCandidateStep(s, waiting, MusicFeatures, 1000.24);
    RunSnoc(s, InitialModeState, [u1, u2, u3, u4], u5);
    assert [u1, u2, u3, u4] + [u5] == [u1, u2, u3, u4, u5];
    HeldCandidateStep(s, waiting, MusicFeatures, 1000.30);
  }

  /** While the candidate stays the same, an update changes the state only
      by switching to it, once it has been held for the hold time. */
  lemma HeldCandidateStep(s: ModeSettings, st: ModeState, f: ModeFeatures, now: real)
    requires st.candidate == Some(Candidate(ScoreModes(s, f)))
    ensures Step(s, st, f, now) ==
      if st.current != Candidate(ScoreModes(s, f)) && Held(st, now) >= s.modeHoldSeconds
      then st.(current := Candidate(ScoreModes(s, f))) else st
  {
  }


  /** MUSIC, silence, MUSIC at 0.1 s intervals with hold 0.5 never reach
      MUSIC. */
  lemma InterruptedMusicDoesNotSwitch()
    ensures Run(TestSettings(0.5), InitialModeState,
      [Update(MusicFeatures, 2000.1), Update(SilentFeatures, 2000.2), Update(MusicFeatures, 2000.3)]).current != Music
  {
    var s := TestSettings(0.5);
    assert Candidate(ScoreModes(s, MusicFeatures)) == Music;
    assert Candidate(ScoreModes(s, SilentFeatures)) == Idle;
    var u1, u2, u3 := Update(MusicFeatures, 2000.1), Update(SilentFeatures, 2000.2), Update(MusicFeatures, 2000.3);
    RunSnoc(s, InitialModeState, [], u1);
    assert Run(s, InitialModeState, [u1]) == ModeState(Idle, Some(Music), Some(2000.1));
    RunSnoc(s, InitialModeState, [u1], u2);
    assert [u1] + [u2] == [u1, u2];
    assert Run(s, InitialModeState, [u1, u2]) == ModeState(Idle, Some(Idle), Some(2000.2));
    RunSnoc(s, InitialModeState, [u1, u2], u3);
    assert [u1, u2] + [u3] == [u1, u2, u3];
  }

  /** `ModeManager`: the active mode and the candidate timer, updated in
      place by each call. */
  class ModeManager {
    const settings: ModeSettings
    var currentMode: Mode
    var candidate: Option<Mode>
    var candidateSince: Option<real>

    function State(): ModeState
      reads this
    {
      ModeState(currentMode, candidate, candidateSince)
    }

    constructor (settings: ModeSettings)
      ensures this.settings == settings && State() == InitialModeState
    {
      this.settings := settings;
      currentMode := Idle;
      candidate := None;
      candidateSince := None;
    }

    /** `update(feat, now)`: returns the active mode after the call. */
    method Update(f: ModeFeatures, now: real) returns (m: Mode)
      modifies this
      ensures State() == Step(settings, old(State()), f, now)
      ensures m == currentMode
    {
      var scores := ScoreModes(settings, f);
      var cand := Candidate(scores);
      if Some(cand) != candidate {
        candidate := Some(cand);
        candidateSince := Some(now);
      }
      if cand == currentMode {
        return currentMode;
      }
      var hold := settings.modeHoldSeconds;
      if now - OrNow(candidateSince, now) >= hold && cand != currentMode {
        currentMode := cand;
        return currentMode;
      }
      return currentMode;
    }
  }
}
