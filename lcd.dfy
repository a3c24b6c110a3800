/**
 * The display driver: the LCD_I2C handle of lcd_i2c.c and pico_lcd_i2c.c,
 * with the bus modelled as the sequence of bytes written to the expander.
 * The two C files differ only in the cursor addressing rule (a `Policy`
 * chosen at construction), the strobe delay (not modelled) and which
 * operations they offer; every operation here appends to `trace` exactly
 * the writes of the controller bytes it is documented to send.
 */
module Lcd {
  import opened Hd44780
  import opened Backpack
  import opened Commands
  import opened Text

  class LcdI2c {
    /** I2C address of the expander; every write goes to it. */
    const address: bv8
    const policy: Policy

    /** Every byte written to the expander, oldest first. */
    var trace: seq<bv8>
    /** The controller bytes sent so far, in order. */
    ghost var sent: seq<ControllerByte>

    /** The bus carries exactly the frames of the bytes sent. */
    ghost predicate Valid()
      reads this
    {
      trace == Wire(sent)
    }

    constructor (address: bv8, policy: Policy)
      ensures Valid()
      ensures this.address == address && this.policy == policy
      ensures trace == [] && sent == []
    {
      this.address := address;
      this.policy := policy;
      trace := [];
      sent := [];
    }

    /** i2c_write_byte: one byte to the expander. */
    method WriteByte(value: bv8)
      modifies this
      ensures trace == old(trace) + [value]
      ensures sent == old(sent)
    {
      trace := trace + [value];
    }

    /** lcd_toggle_enable: raise E over the frame already on the port, then
        drop it again. */
    method ToggleEnable(frame: bv8)
      modifies this
      ensures trace == old(trace) + [frame | EnableBit, frame & !EnableBit]
      ensures sent == old(sent)
    {
      WriteByte(frame | EnableBit);
      WriteByte(frame & !EnableBit);
    }

    /** lcd_send_byte: the high nibble frame, then the low one, each written
        and strobed. */
    method SendByte(value: bv8, mode: Mode)
      requires Valid()
      modifies this
      ensures Valid()
      ensures sent == old(sent) + [ControllerByte(value, mode)]
      ensures trace == old(trace) + Frames(ControllerByte(value, mode))
    {
      var high := HighFrame(value, mode);
      var low := LowFrame(value, mode);
      WriteByte(high);
      ToggleEnable(high);
      WriteByte(low);
      ToggleEnable(low);
      FramesInOrder(old(trace), ControllerByte(value, mode));
      WireSnoc(sent, ControllerByte(value, mode));
      sent := sent + [ControllerByte(value, mode)];
    }

    /** lcd_clear */
    method Clear()
      requires Valid()
      modifies this
      ensures Valid()
      ensures sent == old(sent) + [ControllerByte(ClearDisplay, Command)]
      ensures trace == old(trace) + Frames(ControllerByte(ClearDisplay, Command))
    {
      SendByte(ClearDisplay, Command);
    }

    /** lcd_set_cursor, under this display's addressing policy. */
    method SetCursor(row: CInt, col: CInt)
      requires Valid()
      modifies this
      ensures Valid()
      ensures sent == old(sent) + CursorCommands(policy, row, col)
    {
      match policy
      case TwoLinePolicy =>
        SendByte(TwoLineCursorCommand(row, col), Command);
      case FourLinePolicy =>
        var command := FourLineCursorCommand(row, col);
        if command.None? {
          assert sent + [] == sent;
          return;
        }
        SendByte(command.value, Command);
    }

    /** lcd_char: one byte of character data. */
    method Char(c: bv8)
      requires Valid()
      modifies this
      ensures Valid()
      ensures sent == old(sent) + [ControllerByte(c, Character)]
      ensures trace == old(trace) + Frames(ControllerByte(c, Character))
    {
      SendByte(c, Character);
    }

    /** lcd_string: the characters of the NUL-terminated string `s`, one
        transfer each, in order. */
    method String(s: seq<bv8>)
      requires Valid()
      requires 0 in s
      modifies this
      ensures Valid()
      ensures sent == old(sent) + Characters(BeforeNul(s))
    {
      ghost var text := BeforeNul(s);
      ghost var start := sent;
      assert |text| < |s|;
      var i := 0;
      while s[i] != 0
        invariant 0 <= i <= |text|
        invariant Valid()
        invariant sent == start + Characters(text[..i])
        decreases |text| - i
      {
        Char(s[i]);
        CharactersStep(start, text, i);
        i := i + 1;
      }
      assert text[..i] == text;
    }

    /** lcd_backlight: the backlight flag, or zero, sent as a command. The
        frames themselves carry the backlight bit whatever the argument. */
    method Backlight(on: bool)
      requires Valid()
      modifies this
      ensures Valid()
      ensures sent == old(sent) + [ControllerByte(BacklightCommand(on), Command)]
    {
      if on {
        SendByte(BacklightBit, Command);
      } else {
        SendByte(0, Command);
      }
    }

    /** lcd_create_char (lcd_custom_char): upload an eight-row glyph into
        CGRAM slot `location`; a slot outside 0..7 sends nothing. */
    method CreateChar(location: bv8, charMap: array<bv8>)
      requires Valid()
      requires location < 8 ==> charMap.Length >= 8
      modifies this
      ensures Valid()
      ensures sent == old(sent) + GlyphUpload(location, charMap[..])
    {
      if location < 8 {
        ghost var pattern := charMap[..];
        SendByte(SetCgramAddr | (location << 3), Command);
        ghost var start := sent;
        for i := 0 to 8
          invariant Valid()
          invariant sent == start + Characters(pattern[..i])
        {
          SendByte(charMap[i], Character);
          CharactersStep(start, pattern, i);
        }
        GlyphUploadSent(old(sent), start, location, pattern);
      } else {
        assert sent + [] == sent;
      }
    }

    /** lcd_print (lcd_printf): `out` is the text vsnprintf produces from the
        format and its arguments; at most 31 bytes of it are kept in a
        32-byte buffer with a closing NUL, and the buffer is sent as a
        string. */
    method Print(out: seq<bv8>)
      requires Valid()
      modifies this
      ensures Valid()
      ensures sent == old(sent) + Characters(Printed(out))
    {
      var buffer := new bv8[BufferSize];
      var n := if |out| < BufferSize then |out| else BufferSize - 1;
      for i := 0 to n
        invariant buffer[..i] == out[..i]
        invariant trace == old(trace) && sent == old(sent)
      {
        buffer[i] := out[i];
      }
      buffer[n] := 0;
      ghost var buffered := Buffered(out);
      ghost var text := BeforeNul(buffered);
      assert buffer[..n + 1] == buffered;
      assert |text| < |buffered| by {
        assert buffered[n] in buffered;
      }
      assert buffer[..][..|text|] == text;
      BeforeNulUnique(buffer[..], text);
      String(buffer[..]);
    }

    /** lcd_cursor: display on, cursor and blink as asked. */
    method Cursor(visible: bool, blink: bool)
      requires Valid()
      modifies this
      ensures Valid()
      ensures sent == old(sent) + [ControllerByte(DisplayControlCommand(visible, blink), Command)]
    {
      if visible {
        if blink {
          SendByte(DisplayControl | DisplayOn | CursorOn | BlinkOn, Command);
        } else {
          SendByte(DisplayControl | DisplayOn | CursorOn, Command);
        }
      } else {
        SendByte(DisplayControl | DisplayOn, Command);
      }
    }

    /** lcd_init: the start-up sequence, ending with lcd_clear. */
    method Init()
      requires Valid()
      modifies this
      ensures Valid()
      ensures sent == old(sent) + Commanded(InitCommands)
      ensures |trace| == |old(trace)| + 48
    {
      SendByte(0x03, Command);
      SendByte(0x03, Command);
      SendByte(0x03, Command);
      SendByte(0x02, Command);
      SendByte(FunctionSet | TwoLine | Font5x10, Command);
      SendByte(DisplayControl | DisplayOn, Command);
      SendByte(EntryModeSet | EntryLeft, Command);
      Clear();
      InitSent(old(sent), sent);
    }
  }

  /** What holds of the bus at every point between operations: every frame
      has the backlight bit set, E is high on exactly every third write
      starting with the second, and the controller, latching on the falling
      edges of E, recovers exactly the bytes sent, in order and each in its
      register. */
  lemma TraceProperties(lcd: LcdI2c)
    requires lcd.Valid()
    ensures forall i | 0 <= i < |lcd.trace| :: lcd.trace[i] & BacklightBit != 0
    ensures forall i | 0 <= i < |lcd.trace| :: (lcd.trace[i] & EnableBit != 0) <==> i % 3 == 1
    ensures Assemble(Latched(lcd.trace)) == lcd.sent
  {
    WireShape(lcd.sent);
    ControllerReceives(lcd.sent);
  }
}
