/**
 * The wire protocol between the driver and an HD44780 run in 4-bit mode
 * behind an 8-bit I2C port expander (the "backpack"). Each byte written to
 * the expander sets its eight output pins at once:
 *
 *   bit 0  RS         register select (0 instruction, 1 data)
 *   bit 2  E          enable strobe; the controller latches on its falling edge
 *   bit 3  backlight  switches the backlight transistor
 *   bits 4..7         data lines D4..D7
 *
 * A controller byte travels as two frames, high nibble first, each put on
 * the port and then pulsed on E. `Wire` gives the exact bytes written for a
 * sequence of controller bytes; `Latched` and `Assemble` are the
 * controller's side of the same protocol, used to show that it receives
 * exactly what the driver meant to send.
 */
module Backpack {

  const RsBit: bv8 := 0x01
  const EnableBit: bv8 := 0x04
  const BacklightBit: bv8 := 0x08

  /** The two values of lcd_send_byte's mode argument. */
  datatype Mode = Command | Character

  /** LCD_COMMAND is 0, LCD_CHARACTER is 1: the mode lands on the RS pin. */
  function ModeBit(mode: Mode): bv8
  {
    if mode == Command then 0 else 1
  }

  /** One byte for the controller, with the register it is meant for. */
  datatype ControllerByte = ControllerByte(value: bv8, mode: Mode)

  /** The frame carrying the high nibble: data on D4..D7, RS from the mode,
      backlight always on, E low. */
  function HighFrame(value: bv8, mode: Mode): (f: bv8)
    ensures f & 0xF0 == value & 0xF0
    ensures f & 0x0F == ModeBit(mode) | BacklightBit
  {
    ModeBit(mode) | (value & 0xF0) | BacklightBit
  }

  /** The frame carrying the low nibble, moved up onto D4..D7. */
  function LowFrame(value: bv8, mode: Mode): (f: bv8)
    ensures f & 0xF0 == (value & 0x0F) << 4
    ensures f & 0x0F == ModeBit(mode) | BacklightBit
  {
    ModeBit(mode) | ((value << 4) & 0xF0) | BacklightBit
  }

  /** The plain write of a frame followed by lcd_toggle_enable's two writes. */
  function Strobe(frame: bv8): seq<bv8>
  {
    [frame, frame | EnableBit, frame & !EnableBit]
  }

  /** The six bus writes of one lcd_send_byte call. */
  function Frames(c: ControllerByte): (w: seq<bv8>)
    ensures |w| == 6
  {
    Strobe(HighFrame(c.value, c.mode)) + Strobe(LowFrame(c.value, c.mode))
  }

  /** The pins of a frame built for `mode`, with E raised or not: the
      backlight bit is set, RS equals the mode, and raising E leaves every
      other pin as it was. */
  lemma FrameBits(f: bv8, mode: Mode)
    requires f & 0x0F == ModeBit(mode) | BacklightBit
    ensures f & EnableBit == 0 && f & !EnableBit == f
    ensures f & BacklightBit != 0 && f & RsBit == ModeBit(mode)
    ensures (f | EnableBit) & EnableBit != 0
    ensures (f | EnableBit) & BacklightBit != 0 && (f | EnableBit) & RsBit == ModeBit(mode)
    ensures (f | EnableBit) & 0xF0 == f & 0xF0
  {
  }

  /** Dropping E after the strobe puts the frame back exactly as it was. */
  lemma FrameShape(c: ControllerByte)
    ensures var h, l := HighFrame(c.value, c.mode), LowFrame(c.value, c.mode);
            Frames(c) == [h, h | EnableBit, h, l, l | EnableBit, l]
  {
    StrobeShape(HighFrame(c.value, c.mode), c.mode);
    StrobeShape(LowFrame(c.value, c.mode), c.mode);
  }

  lemma StrobeEndsLow(f: bv8, mode: Mode)
    requires f & 0x0F == ModeBit(mode) | BacklightBit
    ensures Strobe(f) != [] && Strobe(f)[|Strobe(f)| - 1] & EnableBit == 0
  {
    FrameBits(f, mode);
  }

  lemma StrobeShape(f: bv8, mode: Mode)
    requires f & 0x0F == ModeBit(mode) | BacklightBit
    ensures Strobe(f) == [f, f | EnableBit, f]
  {
    FrameBits(f, mode);
  }

  /** The two frames together carry the whole byte and agree on RS: the
      high frame's data lines followed by the low frame's give back the
      value, and both RS pins show the mode. */
  lemma FrameRoundTrip(value: bv8, mode: Mode)
    ensures (HighFrame(value, mode) & 0xF0) | ((LowFrame(value, mode) & 0xF0) >> 4) == value
    ensures HighFrame(value, mode) & RsBit == LowFrame(value, mode) & RsBit == ModeBit(mode)
  {
  }

  /** Every bus write for a sequence of controller bytes sent in order. */
  function Wire(cs: seq<ControllerByte>): (w: seq<bv8>)
    ensures |w| == 6 * |cs|
  {
    if cs == [] then [] else Frames(cs[0]) + Wire(cs[1..])
  }

  /** Command-mode transfers of the given bytes. */
  function Commanded(bs: seq<bv8>): seq<ControllerByte>
  {
    seq(|bs|, i requires 0 <= i < |bs| => ControllerByte(bs[i], Command))
  }

  /** Character-mode transfers of the given bytes. */
  function Characters(bs: seq<bv8>): seq<ControllerByte>
  {
    seq(|bs|, i requires 0 <= i < |bs| => ControllerByte(bs[i], Character))
  }

  lemma CharactersAppend(a: seq<bv8>, b: seq<bv8>)
    ensures Characters(a + b) == Characters(a) + Characters(b)
  {
    assert forall i | 0 <= i < |a + b| :: Characters(a + b)[i] == (Characters(a) + Characters(b))[i];
  }

  /** Sending byte `i` of a pattern extends the characters sent by one. */
  lemma CharactersStep(start: seq<ControllerByte>, pattern: seq<bv8>, i: int)
    requires 0 <= i < |pattern|
    ensures start + Characters(pattern[..i]) + [ControllerByte(pattern[i], Character)]
            == start + Characters(pattern[..i + 1])
  {
    assert pattern[..i + 1] == pattern[..i] + [pattern[i]];
    CharactersAppend(pattern[..i], [pattern[i]]);
  }

  /** The six writes of lcd_send_byte, in the order it makes them: the high
      frame, its strobe, the low frame, its strobe. */
  lemma FramesInOrder(t: seq<bv8>, c: ControllerByte)
    ensures var h, l := HighFrame(c.value, c.mode), LowFrame(c.value, c.mode);
            t + [h] + [h | EnableBit, h & !EnableBit] + [l] + [l | EnableBit, l & !EnableBit]
            == t + Frames(c)
  {
  }

  /** Sending one more byte extends the trace by its frames. */
  lemma WireSnoc(cs: seq<ControllerByte>, c: ControllerByte)
    ensures Wire(cs + [c]) == Wire(cs) + Frames(c)
  {
    assert Wire([c]) == Frames(c) + Wire([]);
    WireAppend(cs, [c]);
  }

  lemma {:induction false} WireAppend(a: seq<ControllerByte>, b: seq<ControllerByte>)
    ensures Wire(a + b) == Wire(a) + Wire(b)
  {
    if a == [] {
      assert a + b == b;
    } else {
      assert (a + b)[1..] == a[1..] + b;
      WireAppend(a[1..], b);
    }
  }

  /** Write `j` of byte `k`'s frames is write `6 * k + j` of the trace. */
  lemma {:induction false} WireAt(cs: seq<ControllerByte>, k: int, j: int)
    requires 0 <= k < |cs| && 0 <= j < 6
    ensures Wire(cs)[6 * k + j] == Frames(cs[k])[j]
  {
    if k > 0 {
      WireAt(cs[1..], k - 1, j);
    }
  }

  /** What holds of every single write in a trace: the backlight bit is set,
      RS matches the mode of the byte it belongs to, and E is high exactly
      on the second write of each three (the raised half of a strobe). */
  lemma WireShape(cs: seq<ControllerByte>)
    ensures forall i | 0 <= i < |Wire(cs)| :: Wire(cs)[i] & BacklightBit != 0
    ensures forall i | 0 <= i < |Wire(cs)| :: Wire(cs)[i] & RsBit == ModeBit(cs[i / 6].mode)
    ensures forall i | 0 <= i < |Wire(cs)| :: (Wire(cs)[i] & EnableBit != 0) <==> i % 3 == 1
  {
    forall i | 0 <= i < |Wire(cs)|
      ensures Wire(cs)[i] & BacklightBit != 0
      ensures Wire(cs)[i] & RsBit == ModeBit(cs[i / 6].mode)
      ensures (Wire(cs)[i] & EnableBit != 0) <==> i % 3 == 1
    {
      var k, j := i / 6, i % 6;
      WireAt(cs, k, j);
      FrameAt(cs[k], j);
      assert i % 3 == 1 <==> (j == 1 || j == 4);
    }
  }

  /** The pins of write `j` of a byte's frames. */
  lemma FrameAt(c: ControllerByte, j: int)
    requires 0 <= j < 6
    ensures Frames(c)[j] & BacklightBit != 0
    ensures Frames(c)[j] & RsBit == ModeBit(c.mode)
    ensures (Frames(c)[j] & EnableBit != 0) <==> (j == 1 || j == 4)
  {
    var h, l := HighFrame(c.value, c.mode), LowFrame(c.value, c.mode);
    FrameShape(c);
    FrameBits(h, c.mode);
    FrameBits(l, c.mode);
  }

  /** A trace of whole transfers always ends with E low. */
  lemma WireEndsLow(cs: seq<ControllerByte>)
    requires cs != []
    ensures Wire(cs)[|Wire(cs)| - 1] & EnableBit == 0
  {
    WireAt(cs, |cs| - 1, 5);
    FrameAt(cs[|cs| - 1], 5);
  }

  /** Four data bits and the RS level, as the controller samples them. */
  datatype Nibble = Nibble(bits: bv8, mode: Mode)

  /** The nibbles a 4-bit-mode controller latches from a sequence of port
      writes: one on every falling edge of E, taken from the data lines and
      RS while E was high. */
  function Latched(t: seq<bv8>): seq<Nibble>
  {
    if |t| < 2 then []
    else
      (if t[0] & EnableBit != 0 && t[1] & EnableBit == 0
       then [Nibble(t[0] >> 4, if t[0] & RsBit != 0 then Character else Command)]
       else [])
      + Latched(t[1..])
  }

  /** The controller joins nibbles in pairs, the first one being the high half. */
  function Assemble(ns: seq<Nibble>): seq<ControllerByte>
  {
    if |ns| < 2 then []
    else [ControllerByte((ns[0].bits << 4) | (ns[1].bits & 0x0F), ns[0].mode)] + Assemble(ns[2..])
  }

  /** The nibbles a sequence of controller bytes should arrive as. */
  function Nibbles(cs: seq<ControllerByte>): (ns: seq<Nibble>)
    ensures |ns| == 2 * |cs|
  {
    if cs == [] then []
    else [Nibble(cs[0].value >> 4, cs[0].mode), Nibble(cs[0].value & 0x0F, cs[0].mode)]
         + Nibbles(cs[1..])
  }

  /** Byte `k` arrives as nibbles `2k` (its high half) and `2k + 1`. */
  lemma {:induction false} NibblesAt(cs: seq<ControllerByte>, k: int)
    requires 0 <= k < |cs|
    ensures Nibbles(cs)[2 * k] == Nibble(cs[k].value >> 4, cs[k].mode)
    ensures Nibbles(cs)[2 * k + 1] == Nibble(cs[k].value & 0x0F, cs[k].mode)
  {
    if k > 0 {
      NibblesAt(cs[1..], k - 1);
    }
  }

  /** No edge is lost or invented where two traces meet, as long as the first
      one leaves E low. */
  lemma {:induction false} LatchedAppend(a: seq<bv8>, b: seq<bv8>)
    requires a != [] && a[|a| - 1] & EnableBit == 0
    ensures Latched(a + b) == Latched(a) + Latched(b)
  {
    if |a| == 1 {
      if b != [] {
        assert (a + b)[1..] == b;
      }
    } else {
      assert (a + b)[1..] == a[1..] + b;
      LatchedAppend(a[1..], b);
    }
  }

  /** One strobe of a frame built for `mode` latches exactly that frame's
      data nibble, in that mode. */
  lemma LatchedStrobe(f: bv8, mode: Mode)
    requires f & 0x0F == ModeBit(mode) | BacklightBit
    ensures Latched(Strobe(f)) == [Nibble(f >> 4, mode)]
  {
    var w := Strobe(f);
    var up := f | EnableBit;
    assert up >> 4 == f >> 4 && up & RsBit == f & RsBit;
    assert f & EnableBit == 0 && up & EnableBit != 0 && w[2] & EnableBit == 0;
    assert (if up & RsBit != 0 then Character else Command) == mode;
    assert Latched(w[1..][1..]) == [];
    assert Latched(w[1..]) == [Nibble(f >> 4, mode)];
  }

  /** The data lines of the two frames carry the value's two nibbles. */
  lemma FrameNibbles(value: bv8, mode: Mode)
    ensures HighFrame(value, mode) >> 4 == value >> 4
    ensures LowFrame(value, mode) >> 4 == value & 0x0F
  {
  }

  /** The two strobes of a byte latch one nibble each: the data lines of
      the high frame, then those of the low frame. */
  lemma LatchedStrobes(h: bv8, l: bv8, mode: Mode)
    requires h & 0x0F == ModeBit(mode) | BacklightBit
    requires l & 0x0F == ModeBit(mode) | BacklightBit
    ensures Latched(Strobe(h) + Strobe(l)) == [Nibble(h >> 4, mode), Nibble(l >> 4, mode)]
  {
    LatchedStrobe(h, mode);
    LatchedStrobe(l, mode);
    StrobeEndsLow(h, mode);
    LatchedAppend(Strobe(h), Strobe(l));
  }

  /** The six writes of a byte reach the controller as its two nibbles. */
  lemma LatchedFrames(c: ControllerByte)
    ensures Latched(Frames(c)) == Nibbles([c])
  {
    LatchedStrobes(HighFrame(c.value, c.mode), LowFrame(c.value, c.mode), c.mode);
    FrameNibbles(c.value, c.mode);
    NibblesOne(c);
  }

  lemma NibblesOne(c: ControllerByte)
    ensures Nibbles([c]) == [Nibble(c.value >> 4, c.mode), Nibble(c.value & 0x0F, c.mode)]
  {
    assert Nibbles([c]) == [Nibble(c.value >> 4, c.mode), Nibble(c.value & 0x0F, c.mode)] + Nibbles([]);
  }

  lemma {:induction false} LatchedWire(cs: seq<ControllerByte>)
    ensures Latched(Wire(cs)) == Nibbles(cs)
  {
    if cs != [] {
      FrameAt(cs[0], 5);
      LatchedAppend(Frames(cs[0]), Wire(cs[1..]));
      LatchedFrames(cs[0]);
      LatchedWire(cs[1..]);
    }
  }

  lemma {:induction false} AssembleNibbles(cs: seq<ControllerByte>)
    ensures Assemble(Nibbles(cs)) == cs
  {
    if cs != [] {
      var ns := Nibbles(cs);
      assert ns[2..] == Nibbles(cs[1..]);
      assert ((cs[0].value >> 4) << 4) | ((cs[0].value & 0x0F) & 0x0F) == cs[0].value;
      AssembleNibbles(cs[1..]);
    }
  }

  /** The protocol is correct: from the bus writes alone, the controller
      recovers every byte, in order, each in the register it was meant for. */
  lemma ControllerReceives(cs: seq<ControllerByte>)
    ensures Assemble(Latched(Wire(cs))) == cs
  {
    LatchedWire(cs);
    AssembleNibbles(cs);
  }

  /** Different transfer sequences never look the same on the bus. */
  lemma WireInjective(a: seq<ControllerByte>, b: seq<ControllerByte>)
    requires Wire(a) == Wire(b)
    ensures a == b
  {
    ControllerReceives(a);
    ControllerReceives(b);
  }
}
