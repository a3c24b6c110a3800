/**
 * The HD44780U instruction set, as in Table 6 of the Hitachi HD44780U
 * datasheet: the opcodes and flag bits the driver builds its command bytes
 * from, and a decoder that reads an instruction-register byte the way the
 * controller does (the highest set bit selects the instruction, the bits
 * below it are its arguments).
 */
module Hd44780 {

  // Instruction opcodes
  const ClearDisplay: bv8 := 0x01
  const ReturnHome: bv8 := 0x02
  const EntryModeSet: bv8 := 0x04
  const DisplayControl: bv8 := 0x08
  const CursorShift: bv8 := 0x10
  const FunctionSet: bv8 := 0x20
  const SetCgramAddr: bv8 := 0x40
  const SetDdramAddr: bv8 := 0x80

  // Flags of the entry mode set instruction
  const EntryShiftIncrement: bv8 := 0x01
  const EntryLeft: bv8 := 0x02

  // Flags of the display on/off control instruction
  const BlinkOn: bv8 := 0x01
  const CursorOn: bv8 := 0x02
  const DisplayOn: bv8 := 0x04

  // Flags of the cursor or display shift instruction
  const MoveRight: bv8 := 0x04
  const DisplayMove: bv8 := 0x08

  // Flags of the function set instruction
  const Font5x10: bv8 := 0x04
  const TwoLine: bv8 := 0x08
  const EightBitMode: bv8 := 0x10

  /** What an instruction-register byte asks the controller to do. */
  datatype Instruction =
    | NoInstruction                                        // 0000 0000: not in Table 6
    | Clear                                                // 0000 0001
    | Home                                                 // 0000 001-
    | EntryMode(increment: bool, shift: bool)              // 0000 01 I/D S
    | Display(display: bool, cursor: bool, blink: bool)    // 0000 1 D C B
    | Shift(displayMove: bool, right: bool)                // 0001 S/C R/L - -
    | Function(eightBit: bool, twoLines: bool, font5x10: bool)  // 001 DL N F - -
    | CgramAddress(address: bv8)                           // 01 AAAAAA
    | DdramAddress(address: bv8)                           // 1 AAAAAAA

  /** The instruction the controller executes for byte `b` written with RS = 0. */
  function Decode(b: bv8): Instruction
  {
    if b & SetDdramAddr != 0 then DdramAddress(b & 0x7F)
    else if b & SetCgramAddr != 0 then CgramAddress(b & 0x3F)
    else if b & FunctionSet != 0 then
      Function(b & EightBitMode != 0, b & TwoLine != 0, b & Font5x10 != 0)
    else if b & CursorShift != 0 then Shift(b & DisplayMove != 0, b & MoveRight != 0)
    else if b & DisplayControl != 0 then
      Display(b & DisplayOn != 0, b & CursorOn != 0, b & BlinkOn != 0)
    else if b & EntryModeSet != 0 then
      EntryMode(b & EntryLeft != 0, b & EntryShiftIncrement != 0)
    else if b & ReturnHome != 0 then Home
    else if b & ClearDisplay != 0 then Clear
    else NoInstruction
  }

  /** Decoding is faithful to the datasheet's encoding: every instruction
      with in-range arguments, written out in Table 6's bit layout, decodes
      back to itself. */
  lemma DecodeTable(i: Instruction)
    requires i.CgramAddress? ==> i.address < 0x40
    requires i.DdramAddress? ==> i.address < 0x80
    ensures Decode(Encode(i)) == i
  {
    match i
    case DdramAddress(a) =>
      assert Encode(i) & 0x7F == a;
    case CgramAddress(a) =>
      assert Encode(i) & 0x80 == 0 && Encode(i) & 0x3F == a;
    case _ =>
  }

  /** Table 6's bit layout of an instruction; used only to state DecodeTable. */
  function Encode(i: Instruction): bv8
  {
    match i
    case NoInstruction => 0
    case Clear => ClearDisplay
    case Home => ReturnHome
    case EntryMode(inc, s) =>
      EntryModeSet | (if inc then EntryLeft else 0) | (if s then EntryShiftIncrement else 0)
    case Display(d, c, b) =>
      DisplayControl | (if d then DisplayOn else 0) | (if c then CursorOn else 0) | (if b then BlinkOn else 0)
    case Shift(m, r) =>
      CursorShift | (if m then DisplayMove else 0) | (if r then MoveRight else 0)
    case Function(e, t, f) =>
      FunctionSet | (if e then EightBitMode else 0) | (if t then TwoLine else 0) | (if f then Font5x10 else 0)
    case CgramAddress(a) => SetCgramAddr | (a & 0x3F)
    case DdramAddress(a) => SetDdramAddr | (a & 0x7F)
  }
}
