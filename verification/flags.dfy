/** The one-byte status register and its six named flags (cpu/src/lib.rs).
    The register is a `bv8` because the source only ever touches it with
    masks; the value whose flags are computed is an ordinary byte. */
module Flags {
  import opened Words

  datatype Flag = Negative | Overflow | Decimal | InterruptDisable | Zero | Carry

  /** Fixed bit position of each flag: N=7, V=6, D=3, I=2, Z=1, C=0. */
  function Position(f: Flag): (i: nat)
    ensures i < 8 && i != 4 && i != 5
  {
    match f
    case Negative => 7
    case Overflow => 6
    case Decimal => 3
    case InterruptDisable => 2
    case Zero => 1
    case Carry => 0
  }

  /** Bit `i` of `b`, counted from the least significant bit. */
  predicate Bit(b: bv8, i: nat)
    requires i < 8
  {
    (b >> i) & 1 == 1
  }

  /** Two status bytes that agree on every bit are equal. */
  lemma BitsDetermine(a: bv8, b: bv8)
    requires forall i :: 0 <= i < 8 ==> Bit(a, i) == Bit(b, i)
    ensures a == b
  {
    assert Bit(a, 0) == Bit(b, 0) && Bit(a, 1) == Bit(b, 1);
    assert Bit(a, 2) == Bit(b, 2) && Bit(a, 3) == Bit(b, 3);
    assert Bit(a, 4) == Bit(b, 4) && Bit(a, 5) == Bit(b, 5);
    assert Bit(a, 6) == Bit(b, 6) && Bit(a, 7) == Bit(b, 7);
  }

  /** `get_flag`: the status byte masked down to the flag's bit, so it is
      nonzero exactly when the flag is set and has no other bit. */
  function GetFlag(status: bv8, f: Flag): (r: bv8)
    ensures r != 0 <==> Bit(status, Position(f))
    ensures forall i :: 0 <= i < 8 && i != Position(f) ==> !Bit(r, i)
  {
    match f
    case Negative => status & 0x80
    case Overflow => status & 0x40
    case Decimal => status & 0x08
    case InterruptDisable => status & 0x04
    case Zero => status & 0x02
    case Carry => status & 0x01
  }

  /** `set_flag`: turns the flag's bit on and leaves the other seven alone. */
  function SetFlag(status: bv8, f: Flag): (r: bv8)
    ensures Bit(r, Position(f))
    ensures forall i :: 0 <= i < 8 && i != Position(f) ==> Bit(r, i) == Bit(status, i)
  {
    match f
    case Negative => status | 0x80
    case Overflow => status | 0x40
    case Decimal => status | 0x08
    case InterruptDisable => status | 0x04
    case Zero => status | 0x02
    case Carry => status | 0x01
  }

  /** `unset_flag`: turns the flag's bit off and leaves the other seven alone. */
  function UnsetFlag(status: bv8, f: Flag): (r: bv8)
    ensures !Bit(r, Position(f))
    ensures forall i :: 0 <= i < 8 && i != Position(f) ==> Bit(r, i) == Bit(status, i)
  {
    match f
    case Negative => status & 0x7F
    case Overflow => status & 0xBF
    case Decimal => status & 0xF7
    case InterruptDisable => status & 0xFB
    case Zero => status & 0xFD
    case Carry => status & 0xFE
  }

  /** After `set_flag`, `get_flag` reports the flag; after `unset_flag` it
      does not; and neither disturbs what `get_flag` says of another flag. */
  lemma GetAfterSetAndUnset(status: bv8, f: Flag, g: Flag)
    ensures GetFlag(SetFlag(status, f), f) != 0
    ensures GetFlag(UnsetFlag(status, f), f) == 0
    ensures f != g ==> GetFlag(SetFlag(status, f), g) == GetFlag(status, g)
    ensures f != g ==> GetFlag(UnsetFlag(status, f), g) == GetFlag(status, g)
  {
    if f != g {
      assert Position(f) != Position(g);
      var s, u := SetFlag(status, f), UnsetFlag(status, f);
      BitsDetermine(GetFlag(s, g), GetFlag(status, g));
      BitsDetermine(GetFlag(u, g), GetFlag(status, g));
    }
  }

  /** Setting a flag twice is the same as setting it once. */
  lemma SetIdempotent(status: bv8, f: Flag)
    ensures SetFlag(SetFlag(status, f), f) == SetFlag(status, f)
  {
  }

  /** Clearing a flag twice is the same as clearing it once. */
  lemma UnsetIdempotent(status: bv8, f: Flag)
    ensures UnsetFlag(UnsetFlag(status, f), f) == UnsetFlag(status, f)
  {
  }

  /** `after` is `before` with Zero and Negative recomputed from the byte
      `v` (Zero iff v == 0, Negative iff bit 7 of v) and no other bit moved. */
  ghost predicate ZeroNegativeFrom(before: bv8, after: bv8, v: u8) {
    && (Bit(after, Position(Zero)) <==> v == 0)
    && (Bit(after, Position(Negative)) <==> v >= 0x80)
    && forall i :: 0 <= i < 8 && i != Position(Zero) && i != Position(Negative) ==> Bit(after, i) == Bit(before, i)
  }

  /** `update_zero_and_negative_flags`. */
  function UpdateZeroAndNegative(status: bv8, value: u8): (r: bv8)
    ensures ZeroNegativeFrom(status, r, value)
  {
    var s1 := if value == 0 then SetFlag(status, Zero) else UnsetFlag(status, Zero);
    if value as bv8 & 0x80 != 0 then SetFlag(s1, Negative) else UnsetFlag(s1, Negative)
  }

  /** The recomputed status byte is determined by the old one and the value. */
  lemma ZeroNegativeUnique(before: bv8, a1: bv8, a2: bv8, v: u8)
    requires ZeroNegativeFrom(before, a1, v) && ZeroNegativeFrom(before, a2, v)
    ensures a1 == a2
  {
    forall i | 0 <= i < 8
      ensures Bit(a1, i) == Bit(a2, i)
    {
      if i != Position(Zero) && i != Position(Negative) {
        assert Bit(a1, i) == Bit(before, i) && Bit(a2, i) == Bit(before, i);
      }
    }
    BitsDetermine(a1, a2);
  }
}
