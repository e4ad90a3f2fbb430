/**
  The main loop of the controller: one pass per trigger pulse computes the
  timing chain, updates the status LED counter, asserts the ignition output
  unless the rev limiter vetoes it, and transmits the telemetry frame.

  Polls of the free-running timer and of the trigger pin are decided by the
  environment: a `Trigger` says what they returned during one pass.
*/
module Controller {
  import opened MachineTypes
  import opened IgnitionTiming
  import opened Telemetry

  /** `PORTB = 0b00000000`: every output of port B low. */
  const PortBOff: uint8 := 0x00
  /** `PORTB = 0b00100000`: the status LED on pin 13 on, ignition off. */
  const PortBLed: uint8 := 0x20
  /** `PORTB = 0b00000010`: the ignition output on pin 9 on. */
  const PortBIgnition: uint8 := 0x02

  /** Whether a value written to port B drives the ignition output (bit 1, pin 9) high. */
  predicate IgnitionPinHigh(portB: uint8): (high: bool)
    ensures high <==> (portB as bv8) & 0x02 != 0
  {
    (portB / 2) % 2 == 1
  }

  /**
    What the environment decides during one pass of the main loop:
    whether the trigger pin still reads high on the second read, the timer
    value taken as the pulse interval, how many times the delay wait polled
    the timer (its body is `led++`), and how many times the output wait
    polled it (its body is `PORTB = 0`).
  */
  datatype Trigger = Trigger(pinStillHigh: bool, pulse: uint16, delayPolls: nat, dwellPolls: nat)

  /** The firmware divides by the interval, which must therefore be nonzero. */
  predicate ValidTrigger(t: Trigger)
  {
    t.pinStillHigh ==> t.pulse > 0
  }

  /** The state that outlives one pass, with the port-B writes and the serial bytes so far. */
  datatype State = State(led: uint8, mapIndex: uint8, rpm: uint16, portBWrites: seq<uint8>, sent: seq<uint8>)

  /** `n` copies of the byte `b`. */
  function Repeat(b: uint8, n: nat): (s: seq<uint8>)
    ensures |s| == n && forall i :: 0 <= i < n ==> s[i] == b
  {
    if n == 0 then [] else Repeat(b, n - 1) + [b]
  }

  /** `led++` on the 8-bit counter. */
  function IncrementLed(led: uint8): uint8
  {
    if led == 0xFF then 0 else led + 1
  }

  /** The LED counter after the delay wait has run its body `polls` times: the count modulo 256. */
  function CountedLed(led: uint8, polls: nat): (counted: uint8)
    ensures counted == (led + polls) % 0x100
  {
    if polls == 0 then led else IncrementLed(CountedLed(led, polls - 1))
  }

  /**
    The port-B writes of a pass that captured a pulse, after the LED counter
    reached `counted`: one of them drives pin 9 high exactly when the pass
    fires, and a pass whose output wait polled ends with pin 9 low.
  */
  function CycleWrites(counted: uint8, fires: bool, dwellPolls: nat): (w: seq<uint8>)
    ensures |w| == (if counted == 1 then 1 else 0) + (if fires then 1 else 0) + dwellPolls
    ensures (exists i :: 0 <= i < |w| && IgnitionPinHigh(w[i])) <==> fires
    ensures dwellPolls > 0 ==> !IgnitionPinHigh(w[|w| - 1])
  {
    var led := if counted == 1 then [PortBLed] else [];
    var fire := if fires then [PortBIgnition] else [];
    var off := Repeat(PortBOff, dwellPolls);
    GatedWrites(led, fires, off);
    led + fire + off
  }

  /** Pin 9 is driven high by a write sequence exactly when it contains the ignition write. */
  lemma GatedWrites(led: seq<uint8>, fires: bool, off: seq<uint8>)
    requires forall i :: 0 <= i < |led| ==> led[i] == PortBLed
    requires forall i :: 0 <= i < |off| ==> off[i] == PortBOff
    ensures var w := led + (if fires then [PortBIgnition] else []) + off;
      (exists i :: 0 <= i < |w| && IgnitionPinHigh(w[i])) <==> fires
  {
    var w := led + (if fires then [PortBIgnition] else []) + off;
    if fires {
      assert w[|led|] == PortBIgnition;
    } else {
      forall i | 0 <= i < |w| ensures !IgnitionPinHigh(w[i]) {
        if i >= |led| {
          assert w[i] == off[i - |led|];
        }
      }
    }
  }

  /** One pass of the main loop. */
  function Step(s: State, t: Trigger): (s': State)
    requires ValidTrigger(t)
    ensures s'.sent == s.sent + Frame(s'.mapIndex, s'.rpm)
    ensures s.portBWrites <= s'.portBWrites
    ensures t.pinStillHigh ==> s'.rpm == Rpm(t.pulse) && s'.mapIndex == MapIndex(s'.rpm)
    ensures !t.pinStillHigh ==> s'.(sent := s.sent) == s
  {
    if !t.pinStillHigh then
      s.(sent := s.sent + Frame(s.mapIndex, s.rpm))
    else
      var c := ComputeCycle(t.pulse);
      var counted := CountedLed(s.led, t.delayPolls);
      State(if counted == 1 then 0 else counted,
            c.mapIndex,
            c.rpm,
            s.portBWrites + CycleWrites(counted, c.fires, t.dwellPolls),
            s.sent + Frame(c.mapIndex, c.rpm))
  }

  /** The port-B writes a pass adds. */
  function NewWrites(s: State, t: Trigger): (w: seq<uint8>)
    requires ValidTrigger(t)
    ensures s.portBWrites + w == Step(s, t).portBWrites
  {
    Step(s, t).portBWrites[|s.portBWrites|..]
  }

  /**
    The rev limiter gates the ignition output: a pass writes a value with
    pin 9 high exactly when it captured a pulse whose stored speed is at
    most the limit.
  */
  lemma RevLimiterGatesIgnition(s: State, t: Trigger)
    requires ValidTrigger(t)
    ensures (exists i :: 0 <= i < |NewWrites(s, t)| && IgnitionPinHigh(NewWrites(s, t)[i]))
        <==> t.pinStillHigh && Rpm(t.pulse) <= RevLimiter
  {
    var w := NewWrites(s, t);
    if t.pinStillHigh {
      var c := ComputeCycle(t.pulse);
      assert w == CycleWrites(CountedLed(s.led, t.delayPolls), c.fires, t.dwellPolls);
    } else {
      assert w == [];
    }
  }

  /** A pass that captured a pulse and whose output wait polled leaves pin 9 low. */
  lemma OutputWaitLowersIgnition(s: State, t: Trigger)
    requires ValidTrigger(t) && t.pinStillHigh && t.dwellPolls > 0
    ensures var writes := Step(s, t).portBWrites; !IgnitionPinHigh(writes[|writes| - 1])
  {
    var c := ComputeCycle(t.pulse);
    var w := CycleWrites(CountedLed(s.led, t.delayPolls), c.fires, t.dwellPolls);
    var writes := Step(s, t).portBWrites;
    assert writes[|writes| - 1] == w[|w| - 1];
  }

  /**
    A cut pass whose LED check and output wait write nothing leaves port B
    as it was, so pin 9 keeps the level of the previous pass.
  */
  lemma CutPassKeepsPortB(s: State, t: Trigger)
    requires ValidTrigger(t) && t.pinStillHigh && t.dwellPolls == 0
    requires Rpm(t.pulse) > RevLimiter && CountedLed(s.led, t.delayPolls) != 1
    ensures Step(s, t).portBWrites == s.portBWrites
  {
    assert CycleWrites(CountedLed(s.led, t.delayPolls), false, 0) == [];
  }

  /** The cycle state after a sequence of passes: one frame per pass, and the write log only grows. */
  function Run(s: State, ts: seq<Trigger>): (r: State)
    requires forall i :: 0 <= i < |ts| ==> ValidTrigger(ts[i])
    ensures |r.sent| == |s.sent| + 6 * |ts|
    ensures s.portBWrites <= r.portBWrites
  {
    if ts == [] then s else Step(Run(s, ts[..|ts| - 1]), ts[|ts| - 1])
  }

  /** The telemetry records of a sequence of passes: the index and speed each pass reported. */
  function Reports(s: State, ts: seq<Trigger>): (r: seq<Report>)
    requires forall i :: 0 <= i < |ts| ==> ValidTrigger(ts[i])
    ensures |r| == |ts|
  {
    if ts == [] then []
    else
      var last := Run(s, ts);
      Reports(s, ts[..|ts| - 1]) + [Report(last.mapIndex, last.rpm)]
  }

  /**
    Every pass appends exactly one frame: the bytes sent by a run are the
    frames of its reports, and they decode back to those reports.
  */
  lemma {:induction false} RunTelemetry(s: State, ts: seq<Trigger>)
    requires forall i :: 0 <= i < |ts| ==> ValidTrigger(ts[i])
    ensures |s.sent| <= |Run(s, ts).sent|
    ensures Run(s, ts).sent == s.sent + Frames(Reports(s, ts))
    ensures DecodeFrames(Run(s, ts).sent[|s.sent|..]) == Some(Reports(s, ts))
  {
    if ts != [] {
      var init := ts[..|ts| - 1];
      RunTelemetry(s, init);
      var reports := Reports(s, ts);
      assert reports[..|reports| - 1] == Reports(s, init);
    }
    var bytes := Run(s, ts).sent;
    assert bytes[|s.sent|..] == Frames(Reports(s, ts));
    DecodeFramesRoundTrip(Reports(s, ts));
  }

  /**
    A pass whose second pin read is low changes nothing but the serial
    output: it resends the previous index and speed, and never fires.
  */
  lemma {:induction false} DroppedTriggersResendLastReport(s: State, ts: seq<Trigger>)
    requires forall i :: 0 <= i < |ts| ==> ValidTrigger(ts[i]) && !ts[i].pinStillHigh
    ensures Run(s, ts).(sent := s.sent) == s
    ensures Reports(s, ts) == seq(|ts|, i => Report(s.mapIndex, s.rpm))
  {
    if ts != [] {
      DroppedTriggersResendLastReport(s, ts[..|ts| - 1]);
    }
  }

  /** The delay wait `while (TCNT1 < delay_time) led++;`, polling the timer `polls` times. */
  method DelayWait(led: uint8, polls: nat) returns (counted: uint8)
    ensures counted == CountedLed(led, polls)
  {
    var k := 0;
    counted := led;
    while k < polls
      invariant k <= polls
      invariant counted == CountedLed(led, k)
    {
      counted, k := IncrementLed(counted), k + 1;
    }
  }

  /** The output wait `while (TCNT1 < delay_time + 25) PORTB = 0;`, polling the timer `polls` times. */
  method OutputWait(port: uint8, writes: seq<uint8>, polls: nat) returns (port': uint8, writes': seq<uint8>)
    requires writes != [] && port == writes[|writes| - 1]
    ensures writes' == writes + Repeat(PortBOff, polls)
    ensures port' == writes'[|writes'| - 1]
  {
    var k := 0;
    port', writes' := port, writes;
    while k < polls
      invariant k <= polls
      invariant writes' == writes + Repeat(PortBOff, k)
      invariant writes' != [] && port' == writes'[|writes'| - 1]
    {
      port', writes' := PortBOff, writes' + [PortBOff];
      k := k + 1;
    }
  }

  /** The controller of the main loop, with the variables that persist between passes. */
  class IgnitionController {
    var led: uint8
    var mapIndex: uint8
    var rpm: uint16
    var portB: uint8
    var portBWrites: seq<uint8>
    const uart: Uart

    /** The register value is the last value written to it. */
    ghost predicate Valid()
      reads this
    {
      portBWrites != [] && portB == portBWrites[|portBWrites| - 1]
    }

    ghost function Abstract(): State
      reads this, uart
    {
      State(led, mapIndex, rpm, portBWrites, uart.sent)
    }

    /**
      The start of `main()`: port B cleared, counters zero. `map_index` is
      not initialised by the firmware; `initialIndex` stands for its value.
    */
    constructor (initialIndex: uint8)
      ensures Valid() && fresh(uart)
      ensures Abstract() == State(0, initialIndex, 0, [PortBOff], [])
    {
      led, mapIndex, rpm := 0, initialIndex, 0;
      portB, portBWrites := PortBOff, [PortBOff];
      uart := new Uart();
    }

    /** The body of the `if` on the trigger pin: timing chain, LED counter, limiter and output. */
    method Fire(t: Trigger)
      requires Valid() && t.pulse > 0
      modifies this
      ensures Valid()
      ensures var c := ComputeCycle(t.pulse);
        var counted := CountedLed(old(led), t.delayPolls);
        && rpm == c.rpm && mapIndex == c.mapIndex
        && led == (if counted == 1 then 0 else counted)
        && portBWrites == old(portBWrites) + CycleWrites(counted, c.fires, t.dwellPolls)
    {
      var c := ComputeCycle(t.pulse);
      rpm, mapIndex := c.rpm, c.mapIndex;

      var counted := DelayWait(led, t.delayPolls);
      led := counted;

      var port, writes := portB, portBWrites;
      if led == 1 {
        port, writes := PortBLed, writes + [PortBLed];
        led := 0;
      }
      if rpm > RevLimiter {
        // Ignition stays off while the timer runs up to the cut time.
      } else {
        port, writes := PortBIgnition, writes + [PortBIgnition];
      }

      ghost var gated := writes;
      assert gated == old(portBWrites) + (if counted == 1 then [PortBLed] else [])
        + (if c.fires then [PortBIgnition] else []);
      port, writes := OutputWait(port, writes, t.dwellPolls);
      assert writes == old(portBWrites) + CycleWrites(counted, c.fires, t.dwellPolls);
      portB, portBWrites := port, writes;
    }

    /** One pass of the `while (true)` loop. */
    method Cycle(t: Trigger)
      requires Valid() && ValidTrigger(t)
      modifies this, uart
      ensures Valid()
      ensures Abstract() == Step(old(Abstract()), t)
    {
      if t.pinStillHigh {
        Fire(t);
      }
      uart.TransmitFrame(mapIndex, rpm);
    }

    /** A sequence of passes of the `while (true)` loop. */
    method RunCycles(ts: seq<Trigger>)
      requires Valid()
      requires forall i :: 0 <= i < |ts| ==> ValidTrigger(ts[i])
      modifies this, uart
      ensures Valid()
      ensures Abstract() == Run(old(Abstract()), ts)
    {
      var n := 0;
      while n < |ts|
        invariant n <= |ts| && Valid()
        invariant Abstract() == Run(old(Abstract()), ts[..n])
      {
        Cycle(ts[n]);
        assert ts[..n + 1][..n] == ts[..n];
        n := n + 1;
      }
      assert ts[..n] == ts;
    }
  }
}
