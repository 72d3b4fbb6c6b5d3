/** Unsigned machine integers of the Rust code, as ranges of `int`.
    Arithmetic on them is written out explicitly: `wrapping_add` reduces
    modulo 2^8, and a plain `+` on a `u16` that would leave the range is a
    debug-mode panic. */
module Words {

  type u8 = x: int | 0 <= x < 0x100
  type u16 = x: int | 0 <= x < 0x1_0000

  /** `u8::wrapping_add`. */
  function WrappingAdd(a: u8, b: u8): (r: u8)
    ensures a + b < 0x100 ==> r == a + b
    ensures a + b >= 0x100 ==> r == a + b - 0x100
  {
    (a + b) % 0x100
  }

  /** Low byte of a word (`data & 0xff`). */
  function Lo(w: u16): u8 { w % 0x100 }

  /** High byte of a word (`data >> 8`). */
  function Hi(w: u16): u8 { w / 0x100 }

  /** Little-endian join (`(hi << 8) | lo`). */
  function Join(lo: u8, hi: u8): u16 { hi * 0x100 + lo }

  lemma SplitJoin(w: u16)
    ensures Join(Lo(w), Hi(w)) == w
  {
  }

  lemma JoinSplit(lo: u8, hi: u8)
    ensures Lo(Join(lo, hi)) == lo && Hi(Join(lo, hi)) == hi
  {
  }
}
