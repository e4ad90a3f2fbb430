/**
  The serial telemetry of the controller: how a 16-bit value and a
  NUL-terminated string become bytes on the UART, the six-byte frame sent
  once per cycle, and a decoder for that frame and for a stream of frames.
*/
module Telemetry {
  import opened MachineTypes

  /** The line feed byte that separates the fields of a frame. */
  const LineFeed: uint8 := 10

  /** The C string literal `"\n"`: a line feed and its terminating NUL. */
  const NewlineString: seq<uint8> := [LineFeed, 0]

  /** The bytes `uart_transmit_uint16` sends: high byte first, then low byte. */
  function EncodeUint16(data: uint16): (bytes: seq<uint8>)
    ensures |bytes| == 2
    ensures (bytes[0] as int) * 0x100 + bytes[1] == data
  {
    [data / 0x100, data % 0x100]
  }

  /** On a 16-bit word, the shifted-and-masked high byte and the masked low byte are its base-256 digits. */
  lemma ByteSplit(w: bv16)
    ensures ((w >> 8) & 0xFF) as int == (w as int) / 0x100
    ensures (w as int) == 0x100 * (((w >> 8) & 0xFF) as int) + (w & 0xFF) as int
  {
  }

  /** The shift-and-mask expressions of `uart_transmit_uint16` compute exactly these two bytes. */
  lemma EncodeUint16IsShiftMask(w: bv16)
    ensures EncodeUint16(w as int) == [((w >> 8) & 0xFF) as int, (w & 0xFF) as int]
  {
    ByteSplit(w);
    var x, hi, lo := w as int, ((w >> 8) & 0xFF) as int, (w & 0xFF) as int;
    assert x == 0x100 * hi + lo && hi == x / 0x100;
  }

  /** Reassembles a 16-bit value from its high and low byte. */
  function DecodeUint16(hi: uint8, lo: uint8): (data: uint16)
    ensures EncodeUint16(data) == [hi, lo]
  {
    (hi as int) * 0x100 + lo
  }

  /** Decoding undoes encoding. */
  lemma DecodeEncodeUint16(data: uint16)
    ensures DecodeUint16(EncodeUint16(data)[0], EncodeUint16(data)[1]) == data
  {
  }

  /** Position of the first NUL byte of a C string. */
  function FirstNul(s: seq<uint8>): (k: nat)
    requires 0 in s
    ensures k < |s| && s[k] == 0
    ensures forall j :: 0 <= j < k ==> s[j] != 0
  {
    if s[0] == 0 then 0 else 1 + FirstNul(s[1..])
  }

  /** The bytes `uart_transmit_string` sends: everything before the first NUL. */
  function CStringBytes(s: seq<uint8>): (bytes: seq<uint8>)
    requires 0 in s
    ensures 0 !in bytes
    ensures bytes + [0] <= s
  {
    s[..FirstNul(s)]
  }

  /** The string `"\n"` sends a single line feed. */
  lemma NewlineStringBytes()
    ensures CStringBytes(NewlineString) == [LineFeed]
  {
    assert FirstNul(NewlineString) == 1 by {
      assert NewlineString[1..] == [0];
    }
  }

  /** The frame one cycle sends: index, line feed, speed, and two line feeds. */
  function Frame(mapIndex: uint8, rpm: uint16): (bytes: seq<uint8>)
    ensures bytes == [mapIndex, LineFeed, rpm / 0x100, rpm % 0x100, LineFeed, LineFeed]
  {
    NewlineStringBytes();
    [mapIndex] + CStringBytes(NewlineString) + EncodeUint16(rpm)
      + CStringBytes(NewlineString) + CStringBytes(NewlineString)
  }

  /** One telemetry record: the table index and the stored speed of a cycle. */
  datatype Report = Report(mapIndex: uint8, rpm: uint16)

  /** Reads one frame; `None` unless the bytes have the frame's length and separators. */
  function DecodeFrame(bytes: seq<uint8>): (r: Option<Report>)
    ensures r.Some? ==> Frame(r.value.mapIndex, r.value.rpm) == bytes
  {
    if |bytes| == 6 && bytes[1] == LineFeed && bytes[4] == LineFeed && bytes[5] == LineFeed
    then Some(Report(bytes[0], DecodeUint16(bytes[2], bytes[3])))
    else None
  }

  /** Decoding a frame returns the index and speed it was built from. */
  lemma DecodeFrameRoundTrip(mapIndex: uint8, rpm: uint16)
    ensures DecodeFrame(Frame(mapIndex, rpm)) == Some(Report(mapIndex, rpm))
  {
  }

  /** The bytes of a sequence of records, frame after frame. */
  function Frames(reports: seq<Report>): (bytes: seq<uint8>)
    ensures |bytes| == 6 * |reports|
  {
    if reports == [] then []
    else Frames(reports[..|reports| - 1]) + Frame(reports[|reports| - 1].mapIndex, reports[|reports| - 1].rpm)
  }

  /** Splits a byte stream into six-byte frames and decodes each; `None` if any frame is malformed. */
  function DecodeFrames(bytes: seq<uint8>): (r: Option<seq<Report>>)
    decreases |bytes|
  {
    if bytes == [] then Some([])
    else if |bytes| < 6 then None
    else
      match (DecodeFrame(bytes[..6]), DecodeFrames(bytes[6..]))
      case (Some(first), Some(rest)) => Some([first] + rest)
      case _ => None
  }

  /** A stream of frames decodes back to the records it was built from. */
  lemma {:induction false} DecodeFramesRoundTrip(reports: seq<Report>)
    ensures DecodeFrames(Frames(reports)) == Some(reports)
  {
    if reports != [] {
      var bytes := Frames(reports);
      var head := Frame(reports[0].mapIndex, reports[0].rpm);
      FramesCons(reports);
      assert bytes[..6] == head && bytes[6..] == Frames(reports[1..]);
      DecodeFrameRoundTrip(reports[0].mapIndex, reports[0].rpm);
      DecodeFramesRoundTrip(reports[1..]);
      assert [reports[0]] + reports[1..] == reports;
    }
  }

  /** The frames of a nonempty sequence start with the frame of its first record. */
  lemma {:induction false} FramesCons(reports: seq<Report>)
    requires reports != []
    ensures Frames(reports) == Frame(reports[0].mapIndex, reports[0].rpm) + Frames(reports[1..])
  {
    if |reports| > 1 {
      var init := reports[..|reports| - 1];
      FramesCons(init);
      assert init[1..] == reports[1..][..|reports[1..]| - 1];
    } else {
      assert reports[..0] == [];
      assert reports[1..] == [];
    }
  }

  /**
    The serial port, with the bytes written to the transmit register so far.
    The wait for an empty transmit buffer is not modelled.
  */
  class Uart {
    var sent: seq<uint8>

    constructor ()
      ensures sent == []
    {
      sent := [];
    }

    /** `uart_transmit_char`: sends one byte. */
    method TransmitChar(data: uint8)
      modifies this
      ensures sent == old(sent) + [data]
    {
      sent := sent + [data];
    }

    /** `uart_transmit_uint16`: sends the high byte, then the low byte. */
    method TransmitUint16(data: uint16)
      modifies this
      ensures sent == old(sent) + EncodeUint16(data)
    {
      TransmitChar((data / 0x100) % 0x100);
      TransmitChar(data % 0x100);
    }

    /** `uart_transmit_string`: sends the bytes of a NUL-terminated string, up to the NUL. */
    method TransmitString(s: seq<uint8>)
      requires 0 in s
      modifies this
      ensures sent == old(sent) + CStringBytes(s)
    {
      var i := 0;
      while s[i] != 0
        invariant i <= FirstNul(s)
        invariant sent == old(sent) + s[..i]
        decreases FirstNul(s) - i
      {
        TransmitChar(s[i]);
        assert s[..i + 1] == s[..i] + [s[i]];
        i := i + 1;
      }
    }

    /** The transmit block at the end of each cycle of the main loop. */
    method TransmitFrame(mapIndex: uint8, rpm: uint16)
      modifies this
      ensures sent == old(sent) + Frame(mapIndex, rpm)
    {
      TransmitChar(mapIndex);
      TransmitString(NewlineString);
      TransmitUint16(rpm);
      TransmitString(NewlineString);
      TransmitString(NewlineString);
    }
  }
}
