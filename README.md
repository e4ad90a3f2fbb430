# ArduinoCDI ignition timing — a Dafny model

This project models the core of a single-cylinder capacitor-discharge
ignition controller for an AVR microcontroller. On each trigger pulse it

1. reads the timer as the interval since the previous pulse,
2. converts it to engine speed,
3. rounds the speed to an index into a 17-entry spark-advance curve,
4. clamps the index three ways: kept, held at the last entry, or forced to a safe entry,
5. computes the angle still to turn and the delay until the spark,
6. drives the ignition output unless the rev limiter vetoes it,
7. sends a six-byte telemetry frame over the UART.

The model has four modules:

- `MachineTypes` (`machine_types.dfy`) defines the fixed-width integers and an `Option` type.
- `IgnitionTiming` (`ignition_timing.dfy`) holds the timing chain as total functions over
  bounded integers, with lemmas for the chain's properties.
- `Telemetry` (`telemetry.dfy`) holds the byte framing as functions, a decoder with round-trip
  lemmas, and a `Uart` class. The class's methods append to the sequence of bytes written to
  the transmit register.
- `Controller` (`controller.dfy`) holds the main loop. It is a class whose fields are the
  variables that persist between passes. Each pass is proved against a pure `Step` function,
  and lemmas over `Step` and `Run` state what the loop guarantees.

## Modelling choices and assumptions

- **Interval width.** `pulse_interval` is a `uint32_t`, but it is assigned from the 16-bit
  timer `TCNT1`, so the model takes it as a `uint16`. An interval of zero would divide by zero;
  nothing in the firmware excludes it, so the model makes it a precondition.
- **Speed.** It is `60000000 / pulse_interval` stored into a `uint16_t`, so the model reduces
  it modulo 65536. Below 916 ticks the stored speed wraps.
- **No floats.** The advance curve is given in tenths of a degree:
  `[100,100,100,100,100,114,128,142,156,170,185,199,213,227,241,255,270]`.
  - The float subtraction `27 - ignition_map[i]`, truncated to `uint8_t`, is modelled as
    `(270 - m10) / 10`. This is an assumption, not a proof over IEEE floats. The integer entries
    (10, 17, 27) are exact in single precision and give exactly 17, 10 and 0. For every other
    entry, 27 minus the entry is at least 0.1 from an integer, far beyond float rounding error.
  - `round(rpm / 500.0)` is modelled as `(rpm + 250) / 500`. This is also an assumption. The
    float quotient is within about 8·10⁻⁶ of the real quotient k/500, which is either an exact
    half or at least 1/500 from one. The exact halves are representable in single precision and
    round away from zero.
- **Timer ticks.** The model computes in timer ticks, as the code does. The comments call these
  microseconds, but the prescaler setting makes them 4 µs at 16 MHz.
- **Environment inputs.** The busy waits poll the hardware, so what they observe is an input
  (`Controller.Trigger`):
  - whether the second read of the trigger pin is still high;
  - the timer value taken as the interval;
  - how many times each of the two waits with a body polled the timer.
- **Wait bodies.** Both waits lack a semicolon, so each has a body, and the model follows the
  code:
  - the delay wait's body is `led++`;
  - the output wait's body is `PORTB = 0`.
  - The cut-time wait has an empty body and no effect on the state.
- **Dropped trigger.** If the second pin read is low, the pass skips everything except the
  transmission. The frame then repeats the previous index and speed.
- **Initial index.** `map_index` is not initialised before the first pass, so the
  constructor takes its initial value as a parameter.

## Behaviour of the code worth knowing (the model follows the code)

- A zero interval is not rejected. The firmware divides by it.
- The safe index is 9, where the comment at src/main.cpp:83 says index 4.
- The curve's entries are named by 250 rpm steps (`RPM_250`, `RPM_500`, …), but the index is
  rounded from rpm / 500, so each entry covers 500 rpm.
  - An interval of 10000 ticks gives index 12 (`ScenarioCruise`).
- The index is not monotone in speed: at 21750 rpm it drops from 16 to the safe index 9
  (`MapIndexDropsAtSafetyThreshold`). It is monotone below that threshold.
- The rev limiter keeps no state from one pass to the next.
- The comment at src/main.cpp:116 speaks of a time during which pin 9 is high, but the output
  wait's body clears port B at once, on every poll. When that wait does not poll, port B keeps
  its last value, so pin 9 can stay high into the next pass, a cut pass included
  (`CutPassKeepsPortB`). When it polls at least once, pin 9 ends the pass low
  (`OutputWaitLowersIgnition`).
- The telemetry frame carries the index and the speed only.
- The stored speed wraps for intervals below 916 ticks. For several ranges of intervals the
  wrapped value is at most the limit, so the limiter lets the cycle fire: for example 790–915,
  424–457 and 290–305 ticks, and smaller ranges below those. For instance, 900 ticks gives
  66666 rpm, stored as 1130 (`WrappedSpeedPassesLimiter`).

## Model

| member | source | states |
|---|---|---|
| `IgnitionTiming.Truncate16` | src/main.cpp:78 | storing into the 16-bit `rpm` keeps values below 65536 and otherwise differs by a multiple of 65536 |
| `IgnitionTiming.SpeedFitsIff` | src/main.cpp:78 | the exact quotient 60000000/interval fits 16 bits if and only if the interval is at least 916 |
| `IgnitionTiming.Rpm` | src/main.cpp:73-78 | the stored speed equals 60000000/interval exactly for intervals of at least 916, and differs from it (wraps) below |
| `IgnitionTiming.RpmMonotone` | src/main.cpp:78 | in the no-wrap range, a longer interval never gives a higher speed |
| `IgnitionTiming.RawIndex` | src/main.cpp:81 | the raw index is the nearest integer to rpm/500, halves rounded up, and is at most 131 |
| `IgnitionTiming.RawIndexMonotone` | src/main.cpp:81 | the raw index is non-decreasing in the speed |
| `IgnitionTiming.ClampIndex` | src/main.cpp:84-90 | the clamped index is always a valid curve position; raw ≤ 16 is kept, 17..43 gives 16, above 43 gives 9 |
| `IgnitionTiming.MapIndex` | src/main.cpp:81-90 | the index used for any stored speed is in bounds of the 17-entry curve |
| `IgnitionTiming.MapIndexBySpeed` | src/main.cpp:81-90 | below 8250 rpm the rounded index is used, from 8250 to 21749 rpm index 16, from 21750 rpm the safe index 9 |
| `IgnitionTiming.MapIndexMonotoneBelowSafety` | src/main.cpp:81-90 | below 21750 rpm the index never decreases with speed |
| `IgnitionTiming.MapIndexDropsAtSafetyThreshold` | src/main.cpp:84-90 | the index falls from 16 at 21749 rpm to 9 at 21750 rpm |
| `IgnitionTiming.CurveMonotoneBounded` | src/main.cpp:6-23 | the advance curve is non-decreasing and never exceeds the trigger coil angle |
| `IgnitionTiming.AngleDifference` | src/main.cpp:93 | the angle to wait is the truncation of 27 minus the advance, never underflows, and is at most 17 |
| `IgnitionTiming.AngleDifferenceAntitone` | src/main.cpp:93 | the angle to wait never increases with the index |
| `IgnitionTiming.AngleDifferenceTable` | src/main.cpp:93 | the angle to wait, index by index, is 17,17,17,17,17,15,14,12,11,10,8,7,5,4,2,1,0 |
| `IgnitionTiming.DelayTime` | src/main.cpp:94 | dividing first makes the delay at most interval·angle/360 and short of it by at most 359/360 tick per degree |
| `IgnitionTiming.SparkBeforeNextTrigger` | src/main.cpp:94 | the delay is at most 17/360 of the interval and strictly less than the interval |
| `IgnitionTiming.FiresIgnition` | src/main.cpp:109-115 | ignition is asserted only at or below 10500 rpm, so a firing cycle's raw index is at most 21 and never reaches the implausible-speed branch |
| `IgnitionTiming.ComputeCycle` | src/main.cpp:73-115 | a pass's index is in bounds, its angle at most 17, its delay before the next trigger and before the cut time, and it fires exactly when the stored speed is at most 10500 |
| `IgnitionTiming.ScenarioCruise` | src/main.cpp:78-94 | an interval of 10000 ticks gives 6000 rpm, index 12, angle 5 and delay 135, and fires |
| `IgnitionTiming.ScenarioOverRevCut` | src/main.cpp:78-115 | an interval of 5000 ticks gives 12000 rpm, index 16, delay 0, and is cut |
| `IgnitionTiming.WrappedSpeedPassesLimiter` | src/main.cpp:78-115 | an interval of 900 ticks is above the limit in exact speed, is stored as 1130, and fires |
| `Telemetry.EncodeUint16` | src/main.cpp:40-43 | a 16-bit value is sent as two bytes, high byte first, whose base-256 value is the original |
| `Telemetry.EncodeUint16IsShiftMask` | src/main.cpp:41-42 | the shift-and-mask expressions on a 16-bit word give exactly those two bytes |
| `Telemetry.DecodeUint16` | src/main.cpp:40-43 | reassembling two bytes gives the value whose encoding is those bytes |
| `Telemetry.FirstNul` | src/main.cpp:46 | the loop stops at the first NUL of the string, and no earlier byte is NUL |
| `Telemetry.CStringBytes` | src/main.cpp:45-48 | a string sends the bytes before its first NUL, in order, and none of them is NUL |
| `Telemetry.NewlineStringBytes` | src/main.cpp:123 | the literal `"\n"` sends one line feed |
| `Telemetry.Frame` | src/main.cpp:122-126 | the per-pass frame is index, 10, speed high byte, speed low byte, 10, 10 |
| `Telemetry.DecodeFrame` | src/main.cpp:122-126 | a decoded frame is exactly the frame of the record it returns |
| `Telemetry.DecodeFrameRoundTrip` | src/main.cpp:122-126 | decoding a frame returns the index and speed it was built from |
| `Telemetry.Frames` | src/main.cpp:121-126 | a sequence of records gives six bytes per record |
| `Telemetry.FramesCons` | src/main.cpp:121-126 | the frames of a sequence start with the frame of its first record |
| `Telemetry.DecodeFramesRoundTrip` | src/main.cpp:121-126 | a stream of frames decodes back to the records it was built from |
| `Telemetry.Uart.constructor` | src/main.cpp:29-33 | nothing has been sent yet |
| `Telemetry.Uart.TransmitChar` | src/main.cpp:35-38 | one byte is appended to the output |
| `Telemetry.Uart.TransmitUint16` | src/main.cpp:40-43 | the output grows by the encoding of the value |
| `Telemetry.Uart.TransmitString` | src/main.cpp:45-48 | the output grows by the bytes before the first NUL |
| `Telemetry.Uart.TransmitFrame` | src/main.cpp:121-126 | the output grows by the frame of the index and speed |
| `Controller.IgnitionPinHigh` | src/main.cpp:104-118 | a port-B value drives pin 9 high exactly when bit 1 (mask `0b00000010`) is set |
| `Controller.CountedLed` | src/main.cpp:99-102 | running `led++` on the 8-bit counter once per poll gives the start value plus the poll count, modulo 256 |
| `Controller.CycleWrites` | src/main.cpp:103-118 | the port-B writes of a captured pass: one drives pin 9 high exactly when the pass fires, and when the output wait polled the last write leaves pin 9 low |
| `Controller.GatedWrites` | src/main.cpp:103-118 | LED writes, an optional ignition write and clearing writes drive pin 9 high exactly when the ignition write is present |
| `Controller.Repeat` | src/main.cpp:117-118 | the output wait's writes are copies of one value, one per poll |
| `Controller.Step` | src/main.cpp:67-127 | a pass sends one frame of its final index and speed, only appends port-B writes, stores the chain's speed and index when it captured a pulse, and changes nothing else when it did not |
| `Controller.NewWrites` | src/main.cpp:99-118 | the writes a pass adds are the extension of the port-B write log |
| `Controller.RevLimiterGatesIgnition` | src/main.cpp:108-118 | a pass writes a value with pin 9 high to port B if and only if it captured a pulse whose stored speed is at most 10500 |
| `Controller.OutputWaitLowersIgnition` | src/main.cpp:116-118 | a captured pass whose output wait polled at least once ends with pin 9 low |
| `Controller.CutPassKeepsPortB` | src/main.cpp:109-118 | a cut pass with no LED write and no output-wait poll writes nothing, so port B and pin 9 keep their previous value |
| `Controller.Run` | src/main.cpp:67-127 | a run of passes sends six bytes per pass and only appends to the port-B write log |
| `Controller.Reports` | src/main.cpp:121-126 | a run reports one record per pass |
| `Controller.RunTelemetry` | src/main.cpp:121-126 | the bytes a run sends are the frames of its reports and decode back to them |
| `Controller.DroppedTriggersResendLastReport` | src/main.cpp:69-126 | passes whose second pin read is low change only the serial output and repeat the previous record |
| `Controller.DelayWait` | src/main.cpp:99-102 | the counter after the delay wait is the start value plus the poll count, modulo 256 |
| `Controller.OutputWait` | src/main.cpp:117-118 | the output wait appends one clearing write per poll and leaves port B at the last one |
| `Controller.IgnitionController.constructor` | src/main.cpp:54-65 | port B cleared, counters and speed zero, the index unknown, nothing sent |
| `Controller.IgnitionController.Fire` | src/main.cpp:71-118 | a captured pulse stores the chain's speed and index, advances and resets the LED counter, and appends the LED, ignition and clearing writes |
| `Controller.IgnitionController.Cycle` | src/main.cpp:67-127 | the state after a pass is `Step` of the state before |
| `Controller.IgnitionController.RunCycles` | src/main.cpp:67-127 | the state after a sequence of passes is `Run` of the state before |

## Left out

- UART set-up (`uart_init`), baud rate and frame format are hardware configuration.
- The transmit-ready wait in `uart_transmit_char` is a poll of a status register, so it is not
  modelled.
- Output and timer registers are not modelled: the direction and prescaler set-up
  (`DDRB`, `DDRD`, `TCCR1B`), reads of `TCNT1` and `PINB`, and the reset of `TCNT1`. The
  interval and the poll outcomes are inputs instead.
- The busy waits are not simulated. Their lengths are inputs, and only their bodies' effects are
  modelled. The cut-time wait has no effect on the state.
- Single-precision float arithmetic is replaced by exact integer equivalents, as stated above.
- The poll counts of a `Trigger` are unconstrained, so they over-approximate the timer. For
  example, the model admits a cut pass whose output wait polls, although after the cut-time
  wait `TCNT1` is at least 20000 and the delay plus 25 is below that (`ComputeCycle`), and
  it admits delay-wait polls with a delay of 0. The for-all lemmas hold for these extra passes
  too, so they stay sound for the passes the timer can produce.
- The infinite `while (true)` loop is modelled as any finite sequence of passes.
- Rpm: an interval of zero is excluded by a precondition instead of modelled, because the
  division by zero has no defined result in the source language.
