/**
 * The command bytes the display operations send, as pure functions of
 * their arguments: cursor addressing under the two DDRAM layouts, the
 * display control byte of lcd_cursor, the backlight byte, the CGRAM upload
 * and the start-up sequence. Each is checked against the instruction the
 * controller decodes from it.
 */
module Commands {
  import opened Hd44780
  import opened Backpack

  datatype Option<T> = None | Some(value: T)

  /** The two DDRAM addressing rules: lcd_i2c.c's two-line rule and
      pico_lcd_i2c.c's four-line rule. */
  datatype Policy = TwoLinePolicy | FourLinePolicy

  /** A C int of the target: 32-bit two's complement. Its arithmetic is
      taken to wrap around (overflow is undefined in C and does not arise
      for the positions of a real panel). */
  type CInt = bv32

  /** The conversion of a C int to the uint8_t parameter of lcd_send_byte:
      its low eight bits. */
  function LowByte(x: CInt): bv8
  {
    (x & 0xFF) as bv8
  }

  /** lcd_i2c.c: line 0 starts at DDRAM 0x00 and every other line value at
      0x40; the set-DDRAM opcode is added, not or-ed, to the position. */
  function TwoLineCursorCommand(line: CInt, position: CInt): bv8
  {
    LowByte((if line == 0 then 0x80 else 0xC0) + position)
  }

  /** Where each row begins in DDRAM on a 20x4 panel: rows 2 and 3 continue
      the two 40-byte lines that rows 0 and 1 begin. */
  const FourLineRowStarts: seq<CInt> := [0x00, 0x40, 0x14, 0x54]

  /** pico_lcd_i2c.c: the row selects a start address, the column is added
      and the set-DDRAM opcode is or-ed in; any other row sends nothing.
      (`row < 4` on a bv32 is the unsigned comparison: rows 0 to 3, and no
      negative row.) */
  function FourLineCursorCommand(row: CInt, col: CInt): (r: Option<bv8>)
    ensures r.None? <==> !(row < 4)
    ensures r.Some? ==> Decode(r.value).DdramAddress?
  {
    var val :=
      if row == 0 then Some(0x00 + col)
      else if row == 1 then Some(0x40 + col)
      else if row == 2 then Some(0x00 + col + 0x14)
      else if row == 3 then Some(0x40 + col + 0x14)
      else None;
    match val
    case None => None
    case Some(v) => Some(SetDdramAddr | LowByte(v))
  }

  /** For a position inside the 64-byte line, the two-line rule sets the
      DDRAM address to the line's start plus the position; line 0 starts at
      0x00 and every other line value, negative ones included, at 0x40. */
  lemma TwoLineCursorAddress(line: CInt, position: CInt)
    requires position < 0x40
    ensures Decode(TwoLineCursorCommand(line, position))
            == DdramAddress((if line == 0 then 0x00 else 0x40) + position as bv8)
  {
  }

  /** The two-line rule does no range check: position 0x41 on line 1 sums
      to 0x101, whose low byte is the clear-display instruction, and
      position -1 on line 0 sums to 0x7F, a set-CGRAM-address instruction. */
  lemma TwoLineCursorOverflow()
    ensures Decode(TwoLineCursorCommand(1, 0x41)) == Clear
    ensures Decode(TwoLineCursorCommand(0, 0xFFFF_FFFF)) == CgramAddress(0x3F)
  {
  }

  /** For a row the four-line rule accepts and an address that fits in
      seven bits, the command sets the DDRAM address to the row's start plus
      the column. */
  lemma FourLineCursorAddress(row: CInt, col: CInt)
    requires row < 4 && col < 0x80 && FourLineRowStarts[row as int] + col < 0x80
    ensures FourLineCursorCommand(row, col)
            == Some(SetDdramAddr + (FourLineRowStarts[row as int] + col) as bv8)
    ensures Decode(FourLineCursorCommand(row, col).value)
            == DdramAddress((FourLineRowStarts[row as int] + col) as bv8)
  {
  }

  /** For every column, an accepted row sends the set-DDRAM opcode or-ed
      with the low byte of the row's start plus the column. */
  lemma FourLineCursorRule(row: CInt, col: CInt)
    ensures row < 4 ==>
              FourLineCursorCommand(row, col)
              == Some(SetDdramAddr | LowByte(FourLineRowStarts[row as int] + col))
  {
  }

  /** Two concrete rows: row 2, column 3 is DDRAM 0x17, sent as 0x97; and
      since the opcode is or-ed in, column 0x80 on row 0 sends 0x80, the
      same byte as column 0. */
  lemma FourLineCursorExamples()
    ensures FourLineCursorCommand(2, 3) == Some(0x97)
    ensures FourLineCursorCommand(0, 0x80) == FourLineCursorCommand(0, 0) == Some(0x80)
  {
  }

  /** On rows 0 and 1 with a position inside the line, both rules send the
      same byte. */
  lemma PoliciesAgree(row: CInt, col: CInt)
    requires row < 2 && col < 0x40
    ensures FourLineCursorCommand(row, col) == Some(TwoLineCursorCommand(row, col))
  {
  }

  /** What lcd_set_cursor sends under a policy: one command byte, or
      nothing for a row the four-line rule rejects. */
  function CursorCommands(policy: Policy, row: CInt, col: CInt): (cs: seq<ControllerByte>)
    ensures |cs| <= 1 && forall c | c in cs :: c.mode == Command
    ensures cs == [] <==> policy == FourLinePolicy && !(row < 4)
  {
    match policy
    case TwoLinePolicy => [ControllerByte(TwoLineCursorCommand(row, col), Command)]
    case FourLinePolicy =>
      match FourLineCursorCommand(row, col)
      case None => []
      case Some(b) => [ControllerByte(b, Command)]
  }

  /** lcd_cursor's command: display always on, the cursor when visible, and
      blinking only when visible and asked for. */
  function DisplayControlCommand(visible: bool, blink: bool): (r: bv8)
    ensures Decode(r) == Display(true, visible, visible && blink)
    ensures r == (if visible && blink then 0x0F else if visible then 0x0E else 0x0C)
  {
    if visible then
      if blink then DisplayControl | DisplayOn | CursorOn | BlinkOn
      else DisplayControl | DisplayOn | CursorOn
    else DisplayControl | DisplayOn
  }

  /** lcd_backlight's command byte: the backlight flag itself, or zero. */
  function BacklightCommand(on: bool): bv8
  {
    if on then BacklightBit else 0
  }

  /** What the controller makes of lcd_backlight: turning the backlight on
      sends a display control instruction with the display, cursor and
      blink all off, turning it off sends 0x00, which is no instruction; and
      every frame of either still has the backlight bit set. */
  lemma BacklightCommandMeaning(on: bool)
    ensures Decode(BacklightCommand(on))
            == if on then Display(false, false, false) else NoInstruction
    ensures forall i | 0 <= i < 6 ::
              Frames(ControllerByte(BacklightCommand(on), Command))[i] & BacklightBit != 0
  {
    forall i | 0 <= i < 6
      ensures Frames(ControllerByte(BacklightCommand(on), Command))[i] & BacklightBit != 0
    {
      FrameAt(ControllerByte(BacklightCommand(on), Command), i);
    }
  }

  /** The set-CGRAM-address command for glyph `location`: eight bytes of
      pattern per glyph. */
  function CgramAddressCommand(location: bv8): (r: bv8)
    requires location < 8
    ensures Decode(r) == CgramAddress(location * 8)
  {
    SetCgramAddr | (location << 3)
  }

  /** The transfers of lcd_create_char / lcd_custom_char: nothing for a
      location outside 0..7, otherwise the CGRAM address command followed by
      the eight pattern bytes as character data, in index order. */
  function GlyphUpload(location: bv8, pattern: seq<bv8>): (cs: seq<ControllerByte>)
    requires location < 8 ==> |pattern| >= 8
    ensures location >= 8 ==> cs == []
    ensures location < 8 ==> |cs| == 9 && cs[0].mode == Command
                             && Decode(cs[0].value) == CgramAddress(location * 8)
    ensures location < 8 ==> forall i | 0 <= i < 8 :: cs[i + 1] == ControllerByte(pattern[i], Character)
  {
    if location < 8 then [ControllerByte(CgramAddressCommand(location), Command)] + Characters(pattern[..8])
    else []
  }

  /** The address command followed by the eight pattern bytes is the whole
      upload. */
  lemma GlyphUploadSent(before: seq<ControllerByte>, start: seq<ControllerByte>, location: bv8, pattern: seq<bv8>)
    requires location < 8 && |pattern| >= 8
    requires start == before + [ControllerByte(SetCgramAddr | (location << 3), Command)]
    ensures start + Characters(pattern[..8]) == before + GlyphUpload(location, pattern)
  {
  }

  /** lcd_init's command bytes, in order; the first one is the 0x03 byte,
      sent as the two nibbles 0x0 and 0x3, and the last is lcd_clear's. */
  const InitCommands: seq<bv8> :=
    [0x03, 0x03, 0x03, 0x02,
     FunctionSet | TwoLine | Font5x10,
     DisplayControl | DisplayOn,
     EntryModeSet | EntryLeft,
     ClearDisplay]

  /** Sending the start-up bytes one at a time sends Commanded(InitCommands). */
  lemma InitSent(before: seq<ControllerByte>, after: seq<ControllerByte>)
    requires after == before + [ControllerByte(0x03, Command)] + [ControllerByte(0x03, Command)]
                     + [ControllerByte(0x03, Command)] + [ControllerByte(0x02, Command)]
                     + [ControllerByte(FunctionSet | TwoLine | Font5x10, Command)]
                     + [ControllerByte(DisplayControl | DisplayOn, Command)]
                     + [ControllerByte(EntryModeSet | EntryLeft, Command)]
                     + [ControllerByte(ClearDisplay, Command)]
    ensures after == before + Commanded(InitCommands)
  {
    assert Commanded(InitCommands) == [ControllerByte(0x03, Command), ControllerByte(0x03, Command),
                                       ControllerByte(0x03, Command), ControllerByte(0x02, Command),
                                       ControllerByte(FunctionSet | TwoLine | Font5x10, Command),
                                       ControllerByte(DisplayControl | DisplayOn, Command),
                                       ControllerByte(EntryModeSet | EntryLeft, Command),
                                       ControllerByte(ClearDisplay, Command)];
  }

  /** The start-up sequence ends in 4-bit mode with two lines and the 5x10
      font, the display on with no cursor, left-to-right entry without
      shift, and a cleared display. */
  lemma InitCommandsMeaning()
    ensures InitCommands == [0x03, 0x03, 0x03, 0x02, 0x2C, 0x0C, 0x06, 0x01]
    ensures Decode(InitCommands[4]) == Function(false, true, true)
    ensures Decode(InitCommands[5]) == Display(true, false, false)
    ensures Decode(InitCommands[6]) == EntryMode(true, false)
    ensures Decode(InitCommands[7]) == Clear
  {
  }

  /** The resynchronisation prefix reaches the controller as the nibbles
      0x0 0x3 0x0 0x3 0x0 0x3 0x0 0x2 with RS low: each 0x03 is a whole byte,
      so a zero nibble precedes every 0x3. */
  lemma InitResyncNibbles()
    ensures |Latched(Wire(Commanded(InitCommands)))| >= 8
    ensures Latched(Wire(Commanded(InitCommands)))[..8]
            == [Nibble(0x0, Command), Nibble(0x3, Command), Nibble(0x0, Command), Nibble(0x3, Command),
                Nibble(0x0, Command), Nibble(0x3, Command), Nibble(0x0, Command), Nibble(0x2, Command)]
  {
    var cs := Commanded(InitCommands);
    LatchedWire(cs);
    NibblesAt(cs, 0);
    NibblesAt(cs, 1);
    NibblesAt(cs, 2);
    NibblesAt(cs, 3);
  }
}
