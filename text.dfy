/**
 * C strings as the driver sees them: byte sequences read up to the first
 * NUL, and the 32-byte stack buffer that formatted output is cut down to.
 */
module Text {

  /** Size of the buffer lcd_print / lcd_printf format into: 31 characters
      and the terminating NUL. */
  const BufferSize := 32

  /** The characters of a C string: everything before the first NUL byte
      (the whole sequence when it holds none). */
  function BeforeNul(s: seq<bv8>): (r: seq<bv8>)
    ensures |r| <= |s| && r == s[..|r|]
    ensures 0 !in r
    ensures |r| < |s| ==> s[|r|] == 0
  {
    if s == [] || s[0] == 0 then [] else [s[0]] + BeforeNul(s[1..])
  }

  /** The three properties of BeforeNul's contract pin its result down. */
  lemma BeforeNulUnique(s: seq<bv8>, r: seq<bv8>)
    requires |r| <= |s| && r == s[..|r|]
    requires 0 !in r
    requires |r| < |s| ==> s[|r|] == 0
    ensures BeforeNul(s) == r
  {
  }

  /** What vsnprintf leaves in the buffer for output `out`: at most
      BufferSize - 1 of its bytes, then a NUL. */
  function Buffered(out: seq<bv8>): (buf: seq<bv8>)
    ensures 1 <= |buf| <= BufferSize && buf[|buf| - 1] == 0
    ensures |buf| - 1 <= |out| && buf[..|buf| - 1] == out[..|buf| - 1]
    ensures |buf| - 1 == |out| || |buf| == BufferSize
  {
    (if |out| < BufferSize then out else out[..BufferSize - 1]) + [0]
  }

  /** The text that reaches the display for formatted output `out`: its
      characters before the first NUL, cut to the first 31. */
  function Printed(out: seq<bv8>): (r: seq<bv8>)
    ensures |r| < BufferSize
    ensures |r| <= |BeforeNul(out)| && r == BeforeNul(out)[..|r|]
    ensures |r| == |BeforeNul(out)| || |r| == BufferSize - 1
  {
    var text := BeforeNul(Buffered(out));
    var full := BeforeNul(out);
    var n := if |full| < BufferSize then |full| else BufferSize - 1;
    BeforeNulUnique(Buffered(out), full[..n]);
    text
  }
}
