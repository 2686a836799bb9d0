/** Graceful degradation after an output failure: a failure onset time gives
    a stage and an intensity that depend only on the time elapsed since it,
    as in `FailsafeManager`. */
module Failsafe {
  import opened Wrappers

  datatype FailsafeState = Normal | LastHold | DimAmbient | DimBlack

  /** The enum's string value, as `get_state_str` returns it. */
  function StateValue(st: FailsafeState): string
  {
    match st
    case Normal => "normal"
    case LastHold => "last_hold"
    case DimAmbient => "dim_ambient"
    case DimBlack => "dim_black"
  }

  lemma StateValueInjective(a: FailsafeState, b: FailsafeState)
    requires StateValue(a) == StateValue(b)
    ensures a == b
  {
    match a {
      case Normal => assert StateValue(a)[0] == 'n';
      case LastHold => assert StateValue(a)[0] == 'l';
      case DimAmbient => assert StateValue(a)[4] == 'a';
      case DimBlack => assert StateValue(a)[4] == 'b';
    }
  }

  /** The constructor's durations (seconds) and the ambient level.
      `recoveryHoldSeconds` is stored but never read. */
  datatype FailsafeConfig = FailsafeConfig(
    holdSeconds: real,
    ambientSeconds: real,
    blackSeconds: real,
    ambientIntensity: real,
    recoveryHoldSeconds: real)

  const DefaultFailsafeConfig := FailsafeConfig(1.5, 5.0, 15.0, 0.2, 0.5)

  datatype Reading = Reading(stage: FailsafeState, intensity: real)

  /** Progress through the black window. */
  function Progress(c: FailsafeConfig, elapsed: real): real
    requires c.blackSeconds > 0.0
  {
    (elapsed - c.holdSeconds - c.ambientSeconds) / c.blackSeconds
  }

  /** The stage and intensity `get_intensity` reports for a failure that
      began `elapsed` seconds ago. */
  function Degrade(c: FailsafeConfig, elapsed: real): (r: Reading)
    ensures r.stage != Normal
  {
    if elapsed < c.holdSeconds then Reading(LastHold, 1.0)
    else if elapsed < c.holdSeconds + c.ambientSeconds then Reading(DimAmbient, c.ambientIntensity)
    else if c.blackSeconds > 0.0 && elapsed < c.holdSeconds + c.ambientSeconds + c.blackSeconds then
      Reading(DimBlack, c.ambientIntensity * (1.0 - Progress(c, elapsed)))
    else Reading(DimBlack, 0.0)
  }

  /** The four windows of `Degrade`, each in both directions. */
  lemma DegradeWindows(c: FailsafeConfig, elapsed: real)
    ensures Degrade(c, elapsed) == Reading(LastHold, 1.0) <==> elapsed < c.holdSeconds
    ensures Degrade(c, elapsed).stage == DimAmbient <==> c.holdSeconds <= elapsed < c.holdSeconds + c.ambientSeconds
    ensures Degrade(c, elapsed).stage == DimAmbient ==> Degrade(c, elapsed).intensity == c.ambientIntensity
    ensures Degrade(c, elapsed).stage == DimBlack <==>
      elapsed >= c.holdSeconds && elapsed >= c.holdSeconds + c.ambientSeconds
  {
  }

  /** Inside the black window, progress lies in [0, 1), so the intensity
      lies between 0 and the ambient level, and above 0 when that level is
      positive. */
  lemma BlackRampBounds(c: FailsafeConfig, elapsed: real)
    requires c.blackSeconds > 0.0
    requires c.holdSeconds <= elapsed && c.holdSeconds + c.ambientSeconds <= elapsed
    requires elapsed < c.holdSeconds + c.ambientSeconds + c.blackSeconds
    ensures 0.0 <= Progress(c, elapsed) < 1.0
    ensures Degrade(c, elapsed).stage == DimBlack
    ensures 0.0 <= c.ambientIntensity ==> 0.0 <= Degrade(c, elapsed).intensity <= c.ambientIntensity
    ensures 0.0 < c.ambientIntensity ==> 0.0 < Degrade(c, elapsed).intensity
  {
    var p := Progress(c, elapsed);
    var offset := elapsed - c.holdSeconds - c.ambientSeconds;
    assert 0.0 <= offset < c.blackSeconds;
    assert p == offset / c.blackSeconds;
    UnitFraction(offset, c.blackSeconds);
    assert Degrade(c, elapsed).intensity == c.ambientIntensity * (1.0 - p);
    if 0.0 <= c.ambientIntensity {
      ScaleBelow(c.ambientIntensity, 1.0 - p);
    }
    if 0.0 < c.ambientIntensity {
      PositiveProduct(c.ambientIntensity, 1.0 - p);
    }
  }

  lemma UnitFraction(x: real, d: real)
    requires 0.0 <= x < d
    ensures 0.0 <= x / d < 1.0
  {
  }

  lemma ScaleBelow(a: real, k: real)
    requires 0.0 <= a && 0.0 <= k <= 1.0
    ensures 0.0 <= a * k <= a
  {
  }

  lemma PositiveProduct(a: real, k: real)
    requires 0.0 < a && 0.0 < k
    ensures 0.0 < a * k
  {
  }

  /** The ramp falls as time passes: strictly when the ambient level is
      positive. */
  lemma BlackRampFalls(c: FailsafeConfig, e1: real, e2: real)
    requires c.blackSeconds > 0.0
    requires c.holdSeconds <= e1 && c.holdSeconds + c.ambientSeconds <= e1
    requires e1 <= e2 < c.holdSeconds + c.ambientSeconds + c.blackSeconds
    ensures 0.0 <= c.ambientIntensity ==> Degrade(c, e2).intensity <= Degrade(c, e1).intensity
    ensures 0.0 < c.ambientIntensity && e1 < e2 ==> Degrade(c, e2).intensity < Degrade(c, e1).intensity
  {
    var p1, p2 := Progress(c, e1), Progress(c, e2);
    assert p1 <= p2 by { DivMonotone(e1 - c.holdSeconds - c.ambientSeconds, e2 - c.holdSeconds - c.ambientSeconds, c.blackSeconds); }
    if e1 < e2 {
      assert p1 < p2 by { DivStrict(e1 - c.holdSeconds - c.ambientSeconds, e2 - c.holdSeconds - c.ambientSeconds, c.blackSeconds); }
    }
    if 0.0 <= c.ambientIntensity {
      MulMonotone(c.ambientIntensity, 1.0 - p2, 1.0 - p1);
    }
    if 0.0 < c.ambientIntensity && e1 < e2 {
      MulStrict(c.ambientIntensity, 1.0 - p2, 1.0 - p1);
    }
  }

  lemma DivMonotone(x: real, y: real, d: real)
    requires x <= y && d > 0.0
    ensures x / d <= y / d
  {
  }

  lemma DivStrict(x: real, y: real, d: real)
    requires x < y && d > 0.0
    ensures x / d < y / d
  {
  }

  lemma MulMonotone(a: real, x: real, y: real)
    requires 0.0 <= a && x <= y
    ensures a * x <= a * y
  {
  }

  lemma MulStrict(a: real, x: real, y: real)
    requires 0.0 < a && x < y
    ensures a * x < a * y
  {
  }

  /** With `black_seconds <= 0` there is no ramp: once hold and ambient have
      passed the intensity is exactly 0.0. */
  lemma NoRampWithoutBlackWindow(c: FailsafeConfig, elapsed: real)
    requires c.blackSeconds <= 0.0
    requires c.holdSeconds <= elapsed && c.holdSeconds + c.ambientSeconds <= elapsed
    ensures Degrade(c, elapsed) == Reading(DimBlack, 0.0)
  {
  }

  /** Over the whole failure, the intensity never rises again as time
      passes, for an ambient level in [0, 1]. */
  lemma IntensityNeverRises(c: FailsafeConfig, e1: real, e2: real)
    requires 0.0 <= c.ambientIntensity <= 1.0
    requires e1 <= e2
    ensures Degrade(c, e2).intensity <= Degrade(c, e1).intensity
  {
    var h, ha := c.holdSeconds, c.holdSeconds + c.ambientSeconds;
    var inBlack1 := h <= e1 && ha <= e1 && c.blackSeconds > 0.0 && e1 < ha + c.blackSeconds;
    var inBlack2 := h <= e2 && ha <= e2 && c.blackSeconds > 0.0 && e2 < ha + c.blackSeconds;
    if inBlack1 {
      BlackRampBounds(c, e1);
      if inBlack2 {
        BlackRampFalls(c, e1, e2);
      }
    }
    if inBlack2 {
      BlackRampBounds(c, e2);
    }
  }

  /** tests/test_failsafe.py: failure at 0.0 with hold 1.5, ambient 5.0 and
      ambient intensity 0.2. */
  lemma TestReadings()
    ensures Degrade(FailsafeConfig(1.5, 5.0, 15.0, 0.2, 0.5), 0.5) == Reading(LastHold, 1.0)
    ensures Degrade(FailsafeConfig(1.5, 5.0, 15.0, 0.2, 0.5), 1.49) == Reading(LastHold, 1.0)
    ensures Degrade(FailsafeConfig(1.5, 5.0, 15.0, 0.2, 0.5), 1.6) == Reading(DimAmbient, 0.2)
  {
  }

  /** `FailsafeManager`: the failure onset, the recovery time and the stage,
      updated in place. */
  class FailsafeManager {
    const config: FailsafeConfig
    var failureTime: Option<real>
    var recoveryTime: Option<real>
    var state: FailsafeState

    /** A stage other than NORMAL exactly while a failure is recorded. */
    ghost predicate Valid()
      reads this
    {
      failureTime.None? <==> state == Normal
    }

    constructor (config: FailsafeConfig)
      ensures Valid() && this.config == config
      ensures failureTime == None && recoveryTime == None && state == Normal
    {
      this.config := config;
      failureTime := None;
      recoveryTime := None;
      state := Normal;
    }

    /** `on_frame_sent(now)`: a success after a failure clears it at once;
        without a failure nothing changes. */
    method OnFrameSent(now: real)
      requires Valid()
      modifies this
      ensures Valid()
      ensures old(failureTime).Some? ==> failureTime == None && recoveryTime == Some(now) && state == Normal
      ensures old(failureTime).None? ==>
        failureTime == old(failureTime) && recoveryTime == old(recoveryTime) && state == old(state)
    {
      if failureTime.Some? {
        failureTime := None;
        recoveryTime := Some(now);
        state := Normal;
      }
    }

    /** `on_frame_fail(now)`: only the first failure sets the onset. */
    method OnFrameFail(now: real)
      requires Valid()
      modifies this
      ensures Valid()
      ensures old(failureTime).None? ==> failureTime == Some(now) && state == LastHold
      ensures old(failureTime).Some? ==> failureTime == old(failureTime) && state == old(state)
      ensures recoveryTime == old(recoveryTime)
    {
      if failureTime.None? {
        failureTime := Some(now);
        state := LastHold;
      }
    }

    /** `get_intensity(now)`: also records the stage it reports. */
    method GetIntensity(now: real) returns (r: real)
      requires Valid()
      modifies this`state
      ensures Valid()
      ensures failureTime.None? ==> r == 1.0 && state == Normal
      ensures failureTime.Some? ==> Reading(state, r) == Degrade(config, now - failureTime.value)
    {
      if failureTime.None? {
        state := Normal;
        return 1.0;
      }
      var elapsed := now - failureTime.value;
      if elapsed < config.holdSeconds {
        state := LastHold;
        return 1.0;
      } else if elapsed < config.holdSeconds + config.ambientSeconds {
        state := DimAmbient;
        return config.ambientIntensity;
      } else if config.blackSeconds > 0.0 && elapsed < config.holdSeconds + config.ambientSeconds + config.blackSeconds {
        state := DimBlack;
        var progress := (elapsed - config.holdSeconds - config.ambientSeconds) / config.blackSeconds;
        return config.ambientIntensity * (1.0 - progress);
      } else {
        state := DimBlack;
        return 0.0;
      }
    }

    /** `get_state_str()` */
    method GetStateStr() returns (s: string)
      ensures s == StateValue(state)
    {
      s := StateValue(state);
    }
  }

  /** tests/test_failsafe.py, recovery: a failure at 0.0 followed by a
      success at 0.5 reads NORMAL at full intensity; a lone failure at 0.0
      reads DIM_AMBIENT at 0.2 after 1.6 s. */
  method RecoveryScenario() returns (afterRecovery: real, stage: FailsafeState, dimmed: real, dimStage: FailsafeState)
    ensures afterRecovery == 1.0 && stage == Normal
    ensures dimmed == 0.2 && dimStage == DimAmbient
  {
    var fsm := new FailsafeManager(DefaultFailsafeConfig);
    fsm.OnFrameFail(0.0);
    fsm.OnFrameSent(0.5);
    afterRecovery := fsm.GetIntensity(0.5);
    stage := fsm.state;
    var dim := new FailsafeManager(FailsafeConfig(1.5, 5.0, 15.0, 0.2, 0.5));
    dim.OnFrameFail(0.0);
    dimmed := dim.GetIntensity(1.6);
    dimStage := dim.state;
  }
}
