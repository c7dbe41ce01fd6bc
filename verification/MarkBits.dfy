/**
  The mark byte of a collectable object (`lgc.h`): how the collector's colors
  are held in bits, and that the bit tricks do to the colors what they should.
 */
module MarkBits {
  import opened GcModel

  const WHITEBITS: bv8 := 0x03
  const BLACKMASK: bv8 := 0x04
  const FIXEDMASK: bv8 := 0x20
  const SFIXEDMASK: bv8 := 0x40
  const MASKMARKS: bv8 := 0xf8

  /** At most one of the three color bits is set. */
  predicate WellMarked(m: bv8) {
    m & 0x07 == 0 || m & 0x07 == 1 || m & 0x07 == 2 || m & 0x07 == 4
  }

  function ColorOf(m: bv8): Color {
    if m & WHITEBITS != 0 then White(m & 0x02 != 0) else if m & BLACKMASK != 0 then Black else Gray
  }

  /** `currentwhite` during collection: one white, and the bit of fixed objects. */
  predicate WellCurrent(cw: bv8) {
    cw == 0x01 | FIXEDMASK || cw == 0x02 | FIXEDMASK
  }

  function WhiteOf(cw: bv8): bool {
    cw & 0x02 != 0
  }

  function OtherWhite(cw: bv8): (r: bv8)
    ensures WellCurrent(cw) ==> WellCurrent(r) && WhiteOf(r) == !WhiteOf(cw)
  {
    cw ^ WHITEBITS
  }

  /** The colors and the two kinds of fixed objects by the number of their bit. */
  lemma BitNumbers()
    ensures ColorOf(1 << 0) == White(false) && ColorOf(1 << 1) == White(true) && ColorOf(1 << 2) == Black
    ensures ColorOf(0) == Gray && FIXEDMASK == 1 << 5 && SFIXEDMASK == 1 << 6
    ensures WHITEBITS == 3 && MASKMARKS == !(WHITEBITS | BLACKMASK)
  {
  }

  /** `isdead`: the object has the white that is not current. */
  lemma DeadBits(m: bv8, cw: bv8)
    requires WellMarked(m) && WellCurrent(cw)
    ensures m & OtherWhite(cw) & WHITEBITS != 0 <==> ColorOf(m) == White(!WhiteOf(cw))
  {
    if cw == 0x01 | FIXEDMASK { assert OtherWhite(cw) == 0x22; } else { assert OtherWhite(cw) == 0x21; }
  }

  /** The test of `sweeplist`: only an object of the other white that is not fixed
      is erased; fixed objects are spared because `currentwhite` has their bit. */
  lemma SweepTest(m: bv8, cw: bv8)
    requires WellMarked(m) && WellCurrent(cw)
    ensures (m ^ WHITEBITS) & OtherWhite(cw) == 0 <==> ColorOf(m) == White(!WhiteOf(cw)) && m & FIXEDMASK == 0
  {
    if cw == 0x01 | FIXEDMASK { assert OtherWhite(cw) == 0x22; } else { assert OtherWhite(cw) == 0x21; }
  }

  /** When the state is closed, both whites and the bit of super-fixed objects are
      current: everything but the main thread is erased. */
  lemma SweepAllTest(m: bv8)
    ensures (m ^ WHITEBITS) & OtherWhite(WHITEBITS | SFIXEDMASK) == 0 <==> m & SFIXEDMASK == 0
  {
    assert OtherWhite(WHITEBITS | SFIXEDMASK) == 0x40;
  }

  class Header {
    var marked: bv8

    /** The color changes, and no other bit. */
    twostate predicate Paints(c: Color)
      reads this
    {
      WellMarked(marked) && ColorOf(marked) == c && marked & MASKMARKS == old(marked) & MASKMARKS
    }

    /** `makewhite` */
    method MakeWhite(cw: bv8)
      requires WellCurrent(cw)
      modifies this
      ensures Paints(White(WhiteOf(cw)))
    {
      marked := (marked & MASKMARKS) | (cw & WHITEBITS);
    }

    /** `white2gray`, and `stringmark` */
    method White2Gray()
      requires WellMarked(marked) && ColorOf(marked).White?
      modifies this
      ensures Paints(Gray)
    {
      marked := marked & !WHITEBITS;
    }

    /** `gray2black` */
    method Gray2Black()
      requires WellMarked(marked) && ColorOf(marked).Gray?
      modifies this
      ensures Paints(Black)
    {
      marked := marked | BLACKMASK;
    }

    /** `black2gray` */
    method Black2Gray()
      requires WellMarked(marked) && ColorOf(marked).Black?
      modifies this
      ensures Paints(Gray)
    {
      marked := marked & !BLACKMASK;
    }

    /** `changewhite`: a dead object comes back to life. */
    method ChangeWhite()
      requires WellMarked(marked) && ColorOf(marked).White?
      modifies this
      ensures Paints(White(!old(ColorOf(marked)).w))
    {
      marked := marked ^ WHITEBITS;
    }
  }
}
