# HD44780 over an I2C backpack: the command and protocol layer

This project models the core of a small C driver for character LCDs. The
displays have an HD44780-compatible controller, wired in 4-bit mode behind
an 8-bit I2C port expander (the "backpack"). The repository has two
near-duplicate drivers:

- `lcd_i2c.c` uses two-line cursor addressing.
- `pico_lcd_i2c.c` uses four-line addressing and rejects unknown rows.

Both are modelled by one class, `Lcd.LcdI2c`, whose `policy` field selects
the cursor rule. The I2C bus is the append-only field `trace`, holding every
byte written to the expander, in order.

Every operation is proved to append exactly the frames of the controller
bytes it sends. The ghost field `sent` holds those bytes, and the class
invariant is `trace == Wire(sent)`. The bytes are then checked against two
independent partners:

- `Hd44780.Decode` reads an instruction byte the way the controller does
  (Table 6 of the Hitachi HD44780U datasheet).
- `Backpack.Latched` and `Backpack.Assemble` are the controller's side of
  the wire. They latch one nibble on every falling edge of E and pair the
  nibbles up. `Backpack.ControllerReceives` proves that they recover
  exactly the bytes sent.

Modules:

- `Hd44780` (hd44780.dfy): opcodes, flags and the instruction decoder.
- `Backpack` (backpack.dfy): frame layout, the enable strobe, the trace of a
  byte sequence, and the controller's latching.
- `Text` (text.dfy): C strings up to their NUL, and the 32-byte print buffer.
- `Commands` (commands.dfy): the command bytes of each operation, as pure
  functions.
- `Lcd` (lcd.dfy): the driver itself, as a class whose methods write to the
  trace.

Three places where the code departs from the HD44780U datasheet or from
what its own names suggest. The model follows the code in each:

- The backlight bit 0x08 is a constant in every frame; no backlight state
  is kept. `lcd_backlight(true)` sends 0x08 as a command byte, and the
  controller reads that as "display control: display, cursor and blink
  off". So switching the backlight "on" blanks the display
  (`Commands.BacklightCommandMeaning`). `lcd_backlight(false)` sends 0x00,
  which is no instruction. A corrected version would need backlight state,
  which the code does not have, so the model keeps the code's behaviour.
- `lcd_init` sends 0x03 as a whole byte, so each of the first three steps
  reaches the controller as the nibbles 0x0 then 0x3
  (`Commands.InitResyncNibbles`). Figure 24 of the datasheet sends a lone
  0x3 nibble instead.
- The two-line rule adds 0x80 to the position, where the datasheet's
  set-DDRAM-address instruction or-s the opcode into a 7-bit address. It
  checks no range, so a large position wraps into other instructions
  (`Commands.TwoLineCursorOverflow`).

## Model

| member | source | states |
|---|---|---|
| Hd44780.DecodeTable | lcd_i2c.c:18-40 | Every instruction with in-range arguments, encoded in Table 6's layout from the driver's opcode and flag constants, decodes back to itself. This is the reference the command bytes below are read against. |
| Backpack.HighFrame | lcd_i2c.c:85 | The high frame carries the value's high nibble on D4..D7. Its low four bits are exactly RS = mode plus the backlight bit, so E is low. Same code in pico_lcd_i2c.c:91. |
| Backpack.LowFrame | lcd_i2c.c:86 | The low frame carries the value's low nibble moved onto D4..D7. Its low four bits are RS = mode plus the backlight bit. Same code in pico_lcd_i2c.c:92. |
| Backpack.FrameRoundTrip | lcd_i2c.c:85-86 | The high frame's data lines followed by the low frame's give back the value. Both frames have RS equal to the mode. |
| Backpack.FrameBits | lcd_i2c.c:77-79 | A frame never has E set, so clearing E leaves it as it was. Setting E changes no other pin. Backlight and RS are set as the mode says, both with and without E. |
| Backpack.StrobeShape | lcd_i2c.c:75-81 | The plain write plus lcd_toggle_enable's two writes are the frame, the frame with E, then the frame again. |
| Backpack.Frames | lcd_i2c.c:84-92 | One lcd_send_byte is exactly six bus writes. |
| Backpack.FrameShape | lcd_i2c.c:84-92 | The six writes are h, h with E, h, l, l with E, l. The falling write restores the frame exactly. Same code in pico_lcd_i2c.c:90-98. |
| Backpack.FrameAt | lcd_i2c.c:75-92 | Each of the six writes has the backlight bit set and RS equal to the mode. E is set on writes 2 and 5 only. |
| Backpack.FramesInOrder | lcd_i2c.c:88-91 | lcd_send_byte's four steps append exactly the six frames of the byte, in order. |
| Backpack.Wire | lcd_i2c.c:84-92 | Sending n bytes writes 6n bytes. |
| Backpack.WireAppend | lcd_i2c.c:84-92 | The trace of two byte sequences sent one after the other is the concatenation of their traces. |
| Backpack.WireSnoc | lcd_i2c.c:84-92 | Sending one more byte extends the trace by its six frames. |
| Backpack.WireAt | lcd_i2c.c:84-92 | Write 6k+j of a trace is write j of byte k's frames. |
| Backpack.WireShape | lcd_i2c.c:75-92 | In any trace, every write has the backlight bit set, including those of lcd_backlight(false). RS matches the mode of the byte the write belongs to. E is high exactly on every third write, starting with the second. |
| Backpack.WireEndsLow | lcd_i2c.c:79 | A trace of whole transfers always ends with E low. |
| Backpack.CharactersAppend | lcd_i2c.c:107-111 | Character transfers of a concatenation are the concatenation of the character transfers. |
| Backpack.Nibbles | lcd_i2c.c:84-92 | A byte sequence travels as twice as many nibbles. |
| Backpack.NibblesAt | lcd_i2c.c:85-86 | Byte k arrives as nibble 2k (its high half) and nibble 2k+1 (its low half), both in its mode. |
| Backpack.LatchedAppend | lcd_i2c.c:75-81 | When the first trace ends with E low, the controller latches from two traces joined together exactly what it latches from each: no falling edge is lost or invented at the seam. |
| Backpack.LatchedStrobe | lcd_i2c.c:75-81 | A frame followed by its strobe latches exactly one nibble: that frame's data lines, in that frame's mode. |
| Backpack.LatchedStrobes | lcd_i2c.c:88-91 | The two strobes of lcd_send_byte latch the high frame's nibble, then the low frame's. |
| Backpack.FrameNibbles | lcd_i2c.c:85-86 | The high frame's data lines hold the value's high nibble, and the low frame's hold its low nibble. |
| Backpack.LatchedFrames | lcd_i2c.c:84-92 | The six writes of one byte reach the controller as that byte's two nibbles, high first. |
| Backpack.LatchedWire | lcd_i2c.c:84-92 | Any trace reaches the controller as the nibbles of the bytes sent, in order. |
| Backpack.AssembleNibbles | lcd_i2c.c:85-86 | Pairing the nibbles of a byte sequence rebuilds the sequence. |
| Backpack.ControllerReceives | lcd_i2c.c:84-92 | From the bus writes alone, a controller in 4-bit mode recovers every byte sent, in order, each in its register. |
| Backpack.WireInjective | lcd_i2c.c:84-92 | Two different byte sequences never produce the same bus trace. |
| Text.BeforeNul | lcd_i2c.c:107-111 | A C string's characters are a prefix of the bytes, contain no NUL, and stop at the first NUL if there is one. |
| Text.BeforeNulUnique | lcd_i2c.c:108 | Those three properties determine the characters uniquely. |
| Text.Buffered | lcd_i2c.c:133-136 | vsnprintf into the 32-byte buffer keeps the output's first min(length, 31) bytes and ends them with a NUL. |
| Text.Printed | lcd_i2c.c:132-139 | The text lcd_print shows is the output's characters before its first NUL, cut to at most 31. It is either all of them or exactly 31. Same code in pico_lcd_i2c.c:131-138. |
| Commands.FourLineCursorCommand | pico_lcd_i2c.c:106-116 | The four-line rule sends nothing exactly when the row is not 0 to 3, negative rows included. Any byte it does send is a set-DDRAM-address instruction. |
| Commands.TwoLineCursorAddress | lcd_i2c.c:98-101 | For a position in 0..63, the two-line rule sets DDRAM to 0x00 plus the position on line 0, and to 0x40 plus the position for every other line value. |
| Commands.TwoLineCursorOverflow | lcd_i2c.c:98-101 | With no range check, line 1 position 0x41 sends 0x01, which clears the display. Line 0 position -1 sends 0x7F, which sets the CGRAM address. |
| Commands.FourLineCursorAddress | pico_lcd_i2c.c:106-116 | For rows 0 to 3 and a row start plus column below 0x80, the command is 0x80 plus that address and decodes as set-DDRAM to it. Rows start at 0x00, 0x40, 0x14 and 0x54. |
| Commands.FourLineCursorRule | pico_lcd_i2c.c:109-115 | For every column, rows 0 to 3 send 0x80 or-ed with the low byte of the row's start (0x00, 0x40, 0x14, 0x54) plus the column. |
| Commands.FourLineCursorExamples | pico_lcd_i2c.c:111-115 | Row 2, column 3 sends 0x97. Because the opcode is or-ed in, column 0x80 on row 0 sends the same byte as column 0. |
| Commands.PoliciesAgree | pico_lcd_i2c.c:106-116 | On rows 0 and 1 with a column in 0..63, the four-line rule sends the same byte as lcd_i2c.c's two-line rule (lcd_i2c.c:98-101). |
| Commands.CursorCommands | lcd_i2c.c:98-101 | lcd_set_cursor sends at most one byte, always a command. It sends none exactly under the four-line rule with a row outside 0 to 3 (pico_lcd_i2c.c:113). |
| Commands.DisplayControlCommand | lcd_i2c.c:142-153 | lcd_cursor's byte is 0x0F, 0x0E or 0x0C. It decodes as display on, cursor if visible, blink only if visible and asked for, so blink is ignored without the cursor. Same code in pico_lcd_i2c.c:140-152. |
| Commands.BacklightCommandMeaning | lcd_i2c.c:113-119 | Backlight on sends 0x08, which decodes as display control with display, cursor and blink off. Backlight off sends 0x00, which is no instruction. Every frame of either has the backlight bit set. |
| Commands.CgramAddressCommand | lcd_i2c.c:124 | For glyph slots 0 to 7, the command decodes as set-CGRAM-address to eight times the slot. Same value as pico_lcd_i2c.c:157. |
| Commands.GlyphUpload | lcd_i2c.c:122-129 | A slot of 8 or more sends nothing. Otherwise the upload is nine transfers: the CGRAM address command, then pattern bytes 0 to 7 in character mode, in index order. Same code in pico_lcd_i2c.c:155-166. |
| Commands.InitCommandsMeaning | lcd_i2c.c:155-166 | lcd_init's bytes are 0x03, 0x03, 0x03, 0x02, 0x2C, 0x0C, 0x06, 0x01. The last four decode as 4-bit two-line 5x10 function set, display on without cursor, left-to-right entry without shift, and clear. |
| Commands.InitResyncNibbles | lcd_i2c.c:156-159 | The first eight nibbles the controller latches are 0x0 0x3 0x0 0x3 0x0 0x3 0x0 0x2, all with RS low. |
| Lcd.LcdI2c.constructor | lcd_i2c.c:169-177 | A new handle keeps its address and addressing rule, and starts with an empty trace. |
| Lcd.LcdI2c.WriteByte | lcd_i2c.c:71-73 | One byte is appended to the trace, and nothing else changes. |
| Lcd.LcdI2c.ToggleEnable | lcd_i2c.c:75-81 | Appends the frame with E set, then the frame with E cleared. |
| Lcd.LcdI2c.SendByte | lcd_i2c.c:84-92 | Appends exactly the six frames of the byte in its mode, records the byte as sent, and keeps trace == Wire(sent). Same code in pico_lcd_i2c.c:90-98. |
| Lcd.LcdI2c.Clear | lcd_i2c.c:94-96 | Sends the single command byte 0x01 as its six frames. |
| Lcd.LcdI2c.SetCursor | lcd_i2c.c:98-101 | Sends exactly CursorCommands for the handle's rule: the two-line byte, or under pico_lcd_i2c.c:106-116 the four-line byte, or nothing for a rejected row. |
| Lcd.LcdI2c.Char | lcd_i2c.c:103-105 | Sends one character-mode byte as its six frames. |
| Lcd.LcdI2c.String | lcd_i2c.c:107-111 | Sends the characters before the first NUL, each as one character-mode byte, in order. Same code in pico_lcd_i2c.c:124-128. |
| Lcd.LcdI2c.Backlight | lcd_i2c.c:113-119 | Sends the single command byte 0x08 (on) or 0x00 (off). |
| Lcd.LcdI2c.CreateChar | lcd_i2c.c:122-129 | Sends exactly GlyphUpload: nothing for a slot of 8 or more, otherwise the address command and the eight pattern bytes. Also models lcd_custom_char, pico_lcd_i2c.c:155-166. |
| Lcd.LcdI2c.Print | lcd_i2c.c:132-139 | Copies at most 31 output bytes into a 32-byte buffer, adds a NUL, and sends exactly the characters of Printed(out). Also models lcd_printf, pico_lcd_i2c.c:131-138. |
| Lcd.LcdI2c.Cursor | lcd_i2c.c:142-153 | Sends the single command byte DisplayControlCommand(visible, blink). Same code in pico_lcd_i2c.c:140-152. |
| Lcd.LcdI2c.Init | lcd_i2c.c:155-166 | Sends exactly the eight init command bytes in command mode, as 48 bus writes, and nothing else. Same code in pico_lcd_i2c.c:168-180. |
| Lcd.TraceProperties | lcd_i2c.c:71-92 | At every point between operations, every write in the trace has the backlight bit set, and E is high exactly on every third write starting with the second. A controller latching on E's falling edges recovers exactly the bytes sent. |

## Left out

- Timing: the `sleep_us` delays of lcd_toggle_enable (1 µs in lcd_i2c.c, `LCD_DELAY_US` in pico_lcd_i2c.c) are not modelled. The trace holds the bytes written, not when they were written.
- Transport: `i2c_write_blocking` is modelled as appending the byte to `trace`. Its result is ignored by the code, and bus failures are not modelled. The I2C address is kept as a field, but writes do not record it.
- Formatting: the format semantics of `vsnprintf` are not modelled. `Print` takes the formatted output as its input and models only the 32-byte buffer and its truncation.
- Construction plumbing: `LCD_I2C_new`'s `malloc`, its zeroed-struct result on allocation failure, the function-pointer table, the global `lcd` / `lcd_global` handle variables, and the unused `cols` / `rows` fields of lcd_i2c.c.
- lcd_i2c.h is not part of this model: it holds declarations only.
- `Lcd.LcdI2c.SetCursor`: C ints are modelled as 32-bit values whose arithmetic wraps. Signed overflow, undefined in C, only happens for positions within 0xC0 of the largest int.
- `Lcd.LcdI2c.Char`: `char` is taken as its eight bits, which is what the conversion to `uint8_t` keeps on either signedness.
- `Lcd.LcdI2c.String`: requires the byte sequence to contain a NUL. Reading past the end of an unterminated C string is undefined, so the code offers nothing there.
- `Lcd.LcdI2c.CreateChar`: requires at least eight pattern bytes when the slot is 0 to 7, because the code reads `char_map[0..7]`. pico_lcd_i2c.c's `location >= 0` test is always true for a `uint8_t` and needs no model.
- `Backpack.ControllerReceives`: describes a controller that is already in 4-bit mode and in nibble step. What a controller powered up in 8-bit mode makes of the first bytes depends on its power-on state. The model states the nibbles it latches (`Commands.InitResyncNibbles`), not the mode changes they cause.
- `Hd44780.Decode`: covers writes to the instruction register only, not reads of the busy flag or the controller's display memory.
- Backlight state: lcd_backlight exists only in lcd_i2c.c. Neither driver keeps backlight state, so the model has none.
