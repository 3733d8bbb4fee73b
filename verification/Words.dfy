/** Machine words and their little-endian byte images.

    Every 32-bit field of the program, signed or not, is kept as its unsigned bit
    pattern, so that the C value -1 is 0xffffffff here.  `long`, and with it
    `struct timeval`, has the 32-bit width of the ARM build. */
module Words {
  const TWO_8 := 0x100
  const TWO_16 := 0x1_0000
  const TWO_32 := 0x1_0000_0000

  type u8 = x: int | 0 <= x < TWO_8
  type u16 = x: int | 0 <= x < TWO_16
  type u32 = x: int | 0 <= x < TWO_32

  /** The pattern of -1. */
  const MINUS_ONE: u32 := 0xffff_ffff

  type bytes = seq<u8>

  function Wrap32(x: int): u32 {
    x % TWO_32
  }

  /** struct timeval of the 32-bit build: eight bytes in memory. */
  datatype Timeval = Timeval(sec: u32, usec: u32)

  datatype Option<+T> = None | Some(value: T)

  function Le16(x: u16): (b: bytes)
    ensures |b| == 2
  {
    [x % TWO_8, x / TWO_8]
  }

  function Le32(x: u32): (b: bytes)
    ensures |b| == 4
  {
    Le16(x % TWO_16) + Le16(x / TWO_16)
  }

  function LeTimeval(t: Timeval): (b: bytes)
    ensures |b| == 8
  {
    Le32(t.sec) + Le32(t.usec)
  }

  function Get16(b: bytes, at: nat): u16
    requires at + 2 <= |b|
  {
    b[at] + b[at + 1] * TWO_8
  }

  function Get32(b: bytes, at: nat): u32
    requires at + 4 <= |b|
  {
    Get16(b, at) + Get16(b, at + 2) * TWO_16
  }

  function GetTimeval(b: bytes, at: nat): Timeval
    requires at + 8 <= |b|
  {
    Timeval(Get32(b, at), Get32(b, at + 4))
  }

  /** Reading back what was laid out at an offset gives the word again. */
  lemma ReadBack16(b: bytes, at: nat, x: u16)
    requires at + 2 <= |b| && b[at..at + 2] == Le16(x)
    ensures Get16(b, at) == x
  {
    assert b[at] == b[at..at + 2][0] && b[at + 1] == b[at..at + 2][1];
  }

  lemma ReadBack32(b: bytes, at: nat, x: u32)
    requires at + 4 <= |b| && b[at..at + 4] == Le32(x)
    ensures Get32(b, at) == x
  {
    assert b[at..at + 2] == b[at..at + 4][..2] == Le16(x % TWO_16);
    assert b[at + 2..at + 4] == b[at..at + 4][2..] == Le16(x / TWO_16);
    ReadBack16(b, at, x % TWO_16);
    ReadBack16(b, at + 2, x / TWO_16);
  }

  lemma ReadBackTimeval(b: bytes, at: nat, t: Timeval)
    requires at + 8 <= |b| && b[at..at + 8] == LeTimeval(t)
    ensures GetTimeval(b, at) == t
  {
    assert b[at..at + 4] == b[at..at + 8][..4] == Le32(t.sec);
    assert b[at + 4..at + 8] == b[at..at + 8][4..] == Le32(t.usec);
    ReadBack32(b, at, t.sec);
    ReadBack32(b, at + 4, t.usec);
  }
}
