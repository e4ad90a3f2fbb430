/**
  The per-cycle ignition timing chain of the controller: from the measured
  trigger interval to engine speed, advance-curve index, angle to wait,
  spark delay and the rev-limiter decision.

  All quantities are the integers the firmware stores. The advance curve is
  given in tenths of a degree so that the float arithmetic of the firmware
  becomes exact integer arithmetic (see README.md for the assumptions).
*/
module IgnitionTiming {
  import opened MachineTypes

  /** Speed above which ignition is suppressed (`rev_limiter`). */
  const RevLimiter: nat := 10500
  /** Timer value up to which a cut cycle keeps ignition off (`ignition_cut_time`). */
  const IgnitionCutTime: nat := 20000
  /** Angle swept between the trigger event and top dead center (`trigger_coil_angle`). */
  const TriggerCoilAngle: nat := 27
  /** Timer ticks after the delay up to which the output loop runs (`delay_time + 25`). */
  const DwellTicks: nat := 25
  /** Numerator of the speed conversion: microseconds per minute. */
  const TicksPerMinute: nat := 60000000
  /** Distance between two breakpoints of the advance curve, in rpm. */
  const IndexStep: nat := 500
  /** Raw indices above this are taken as a sensor failure. */
  const ImplausibleIndex: nat := 43
  /** Last valid index of the advance curve. */
  const MaxIndex: nat := 16
  /** Low-advance index used when the raw index is implausible. */
  const SafeIndex: nat := 9

  /** The advance curve `ignition_map`, in tenths of a degree, one entry per 250 rpm breakpoint label. */
  const IgnitionMap10: seq<nat> :=
    [100, 100, 100, 100, 100, 114, 128, 142, 156, 170, 185, 199, 213, 227, 241, 255, 270]

  /** Truncation of a 32-bit quotient to the 16-bit `rpm` variable. */
  function Truncate16(x: nat): (r: uint16)
    ensures x < 0x1_0000 ==> r == x
    ensures (x - r) % 0x1_0000 == 0
  {
    x % 0x1_0000
  }

  /** Multiplying by a natural number preserves order. */
  lemma MulMonotone(x: nat, y: nat, z: nat)
    requires x <= y
    ensures x * z <= y * z
  {
    assert y * z == x * z + (y - x) * z;
  }

  /** Multiplication distributes over a sum. */
  lemma Distribute(x: nat, y: nat, z: nat)
    ensures (x + y) * z == x * z + y * z
  {
  }

  /** A strict order between multiples of a positive number is an order between the factors. */
  lemma MulCancel(x: int, y: int, z: nat)
    requires z > 0 && x * z < y * z
    ensures x < y
  {
    assert (y - x) * z == y * z - x * z;
  }

  /** `a / d2 <= a / d1` whenever `0 < d1 <= d2`. */
  lemma DivAntitone(a: nat, d1: nat, d2: nat)
    requires 0 < d1 <= d2
    ensures a / d2 <= a / d1
  {
    var q1, q2 := a / d1, a / d2;
    MulMonotone(d1, d2, q2);
    assert q2 * d1 <= a < (q1 + 1) * d1;
    MulCancel(q2, q1 + 1, d1);
  }

  /** The exact quotient fits the 16-bit `rpm` variable exactly when the interval is at least 916 ticks. */
  lemma SpeedFitsIff(pulse: uint16)
    requires pulse > 0
    ensures (TicksPerMinute / pulse < 0x1_0000) <==> pulse >= 916
  {
    if pulse >= 916 {
      DivAntitone(TicksPerMinute, 916, pulse);
    } else {
      DivAntitone(TicksPerMinute, pulse, 915);
    }
  }

  /** Engine speed stored by the firmware for a trigger interval (`rpm = 60000000 / pulse_interval`). */
  function Rpm(pulse: uint16): (rpm: uint16)
    requires pulse > 0
    ensures (TicksPerMinute / pulse < 0x1_0000) <==> pulse >= 916
    ensures pulse >= 916 ==> rpm == TicksPerMinute / pulse
    ensures pulse < 916 ==> rpm != TicksPerMinute / pulse
  {
    SpeedFitsIff(pulse);
    Truncate16(TicksPerMinute / pulse)
  }

  /** Within the range where no 16-bit wrap occurs, a longer interval never gives a higher speed. */
  lemma RpmMonotone(p1: uint16, p2: uint16)
    requires 916 <= p1 <= p2
    ensures Rpm(p2) <= Rpm(p1)
  {
    DivAntitone(TicksPerMinute, p1, p2);
  }

  /**
    The raw table index `round(rpm / 500.0)`: the nearest integer to
    rpm / 500, halves rounded away from zero.
  */
  function RawIndex(rpm: uint16): (raw: uint8)
    ensures 500 * raw - 250 <= rpm < 500 * raw + 250
    ensures raw <= 131
  {
    (rpm + 250) / 500
  }

  /** A faster engine never gets a lower raw index. */
  lemma RawIndexMonotone(r1: uint16, r2: uint16)
    requires r1 <= r2
    ensures RawIndex(r1) <= RawIndex(r2)
  {
  }

  /**
    The three-way clamp applied to the raw index: implausible values are
    forced to the safe index, values past the end of the curve are held at
    its last entry, and the rest are kept.
  */
  function ClampIndex(raw: uint8): (idx: uint8)
    ensures idx < |IgnitionMap10|
    ensures raw <= MaxIndex ==> idx == raw
    ensures MaxIndex < raw <= ImplausibleIndex ==> idx == MaxIndex
    ensures ImplausibleIndex < raw ==> idx == SafeIndex
  {
    if raw > ImplausibleIndex then SafeIndex
    else if raw > MaxIndex then MaxIndex
    else raw
  }

  /** The index `map_index` used for a given stored speed. */
  function MapIndex(rpm: uint16): (idx: uint8)
    ensures idx < |IgnitionMap10|
  {
    ClampIndex(RawIndex(rpm))
  }

  /**
    The clamp in terms of speed: below 8250 rpm the rounded index is used,
    from 8250 up to 21749 rpm the last entry, from 21750 rpm the safe index.
  */
  lemma MapIndexBySpeed(rpm: uint16)
    ensures rpm < 8250 ==> MapIndex(rpm) == RawIndex(rpm) <= MaxIndex
    ensures 8250 <= rpm < 21750 ==> MapIndex(rpm) == MaxIndex
    ensures 21750 <= rpm ==> MapIndex(rpm) == SafeIndex
  {
  }

  /** Below the implausibility threshold the index never decreases with speed. */
  lemma MapIndexMonotoneBelowSafety(r1: uint16, r2: uint16)
    requires r1 <= r2 < 21750
    ensures MapIndex(r1) <= MapIndex(r2)
  {
    RawIndexMonotone(r1, r2);
  }

  /** At the implausibility threshold the index drops from the last entry to the safe index. */
  lemma MapIndexDropsAtSafetyThreshold()
    ensures MapIndex(21749) == MaxIndex && MapIndex(21750) == SafeIndex
  {
  }

  /** The advance curve never decreases and never exceeds the trigger coil angle. */
  lemma CurveMonotoneBounded(i: nat, j: nat)
    requires i <= j < |IgnitionMap10|
    ensures IgnitionMap10[i] <= IgnitionMap10[j] <= 10 * TriggerCoilAngle
  {
  }

  /**
    `angle_difference = trigger_coil_angle - ignition_map[map_index]`,
    truncated to an integer: the whole degrees still to turn after the
    trigger before the spark.
  */
  function AngleDifference(idx: nat): (diff: uint8)
    requires idx < |IgnitionMap10|
    ensures 10 * diff <= 10 * TriggerCoilAngle - IgnitionMap10[idx] < 10 * diff + 10
    ensures diff <= 17
  {
    CurveMonotoneBounded(0, idx);
    CurveMonotoneBounded(idx, |IgnitionMap10| - 1);
    (10 * TriggerCoilAngle - IgnitionMap10[idx]) / 10
  }

  /** The angle to wait never increases with the index. */
  lemma AngleDifferenceAntitone(i: nat, j: nat)
    requires i <= j < |IgnitionMap10|
    ensures AngleDifference(j) <= AngleDifference(i)
  {
    CurveMonotoneBounded(i, j);
  }

  /** The values of the angle to wait, index by index. */
  lemma AngleDifferenceTable()
    ensures forall i :: 0 <= i < |IgnitionMap10| ==>
      AngleDifference(i) == [17, 17, 17, 17, 17, 15, 14, 12, 11, 10, 8, 7, 5, 4, 2, 1, 0][i]
  {
  }

  /**
    `delay_time = pulse_interval / 360 * angle_difference`: the interval is
    divided first, so the delay is at most the exact fraction of the interval
    and falls short of it by less than `diff` ticks (359/360 of a tick per degree).
  */
  function DelayTime(pulse: uint16, diff: uint8): (delay: nat)
    ensures 360 * delay <= pulse * diff
    ensures pulse * diff <= 360 * delay + 359 * diff
  {
    var q, m := pulse / 360, pulse % 360;
    Distribute(360 * q, m, diff);
    MulMonotone(m, 359, diff);
    q * diff
  }

  /** The spark is scheduled before the next trigger event, at most 17/360 of the interval after this one. */
  lemma SparkBeforeNextTrigger(pulse: uint16, diff: uint8)
    requires pulse > 0 && diff <= 17
    ensures DelayTime(pulse, diff) <= pulse * 17 / 360
    ensures DelayTime(pulse, diff) < pulse
  {
    MulMonotone(diff, 17, pulse);
    var d := DelayTime(pulse, diff);
    assert 360 * d <= pulse * 17;
  }

  /**
    The rev-limiter decision: ignition is asserted only at or below the
    limit, so a firing cycle never reaches the implausible-speed branch.
  */
  predicate FiresIgnition(rpm: uint16): (fires: bool)
    ensures fires ==> RawIndex(rpm) <= 21 < ImplausibleIndex
  {
    rpm <= RevLimiter
  }

  /** The values one cycle computes from a trigger interval. */
  datatype EngineCycle = EngineCycle(
    pulse: uint16,
    rpm: uint16,
    rawIndex: uint8,
    mapIndex: uint8,
    angleDifference: uint8,
    delay: nat,
    fires: bool)

  /** One pass of the timing chain for a nonzero interval. */
  function ComputeCycle(pulse: uint16): (c: EngineCycle)
    requires pulse > 0
    ensures c.pulse == pulse
    ensures pulse >= 916 ==> c.rpm == TicksPerMinute / pulse
    ensures c.mapIndex < |IgnitionMap10|
    ensures c.angleDifference <= 17
    ensures c.delay < pulse
    ensures c.delay + DwellTicks < IgnitionCutTime
    ensures c.fires <==> c.rpm <= RevLimiter
  {
    var rpm := Rpm(pulse);
    var raw := RawIndex(rpm);
    var idx := ClampIndex(raw);
    var diff := AngleDifference(idx);
    var delay := DelayTime(pulse, diff);
    SparkBeforeNextTrigger(pulse, diff);
    EngineCycle(pulse, rpm, raw, idx, diff, delay, FiresIgnition(rpm))
  }

  /** An interval of 10000 ticks gives 6000 rpm, index 12 and a delay of 135 ticks. */
  lemma ScenarioCruise()
    ensures ComputeCycle(10000) == EngineCycle(10000, 6000, 12, 12, 5, 135, true)
  {
  }

  /** An interval of 5000 ticks gives 12000 rpm, above the limit, so the cycle is cut. */
  lemma ScenarioOverRevCut()
    ensures ComputeCycle(5000) == EngineCycle(5000, 12000, 24, 16, 0, 0, false)
  {
  }

  /**
    The 16-bit store hides implausible speeds from the limiter: an interval
    of 900 ticks is 66666 rpm, stored as 1130, and the cycle fires.
  */
  lemma WrappedSpeedPassesLimiter()
    ensures TicksPerMinute / 900 > RevLimiter
    ensures ComputeCycle(900).rpm == 1130 && ComputeCycle(900).fires
  {
  }
}
