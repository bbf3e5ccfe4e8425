/** The word operations of the Mersenne Twister (Random.cpp), and what they do to single bits. */
module MersenneBits {

  type Word = bv32

  /** The word 624 places after x, given its successor x1 and the word xm 397 places after it. */
  function Twist(x: Word, x1: Word, xm: Word): Word {
    var y := (x & 0x8000_0000) | (x1 & 0x7FFF_FFFF);
    xm ^ (y >> 1) ^ (if y & 1 == 1 then 0x9908_B0DF else 0)
  }

  // ---------- tempering ----------

  function Xor(a: Word, b: Word): Word { a ^ b }
  function Shr11(y: Word): Word { y >> 11 }
  function Shr18(y: Word): Word { y >> 18 }
  function Shr22(y: Word): Word { y >> 22 }
  function Shr30(y: Word): Word { y >> 30 }
  function TimesF(y: Word): Word { 1812433253 * y }

  function Right11(y: Word): Word { Xor(y, Shr11(y)) }
  function Left7(y: Word): Word { y ^ ((y << 7) & 0x9D2C_5680) }
  function Left15(y: Word): Word { y ^ ((y << 15) & 0xEFC6_0000) }
  function Right18(y: Word): Word { Xor(y, Shr18(y)) }

  function Temper(x: Word): Word {
    Right18(Left15(Left7(Right11(x))))
  }

  function Undo11(y: Word): Word { Xor(Right11(y), Shr22(y)) }

  function Undo7(y: Word): Word {
    var a := y ^ ((y << 7) & 0x9D2C_5680);
    var b := y ^ ((a << 7) & 0x9D2C_5680);
    var c := y ^ ((b << 7) & 0x9D2C_5680);
    y ^ ((c << 7) & 0x9D2C_5680)
  }

  /** The steps of tempering undone, last first; two of them undo themselves. */
  function Untemper(z: Word): Word {
    Undo11(Undo7(Left15(Right18(z))))
  }

  lemma Undone7(y: Word)
    ensures Undo7(Left7(y)) == y && Left7(Undo7(y)) == y
  {}

  lemma Undone15(y: Word)
    ensures Left15(Left15(y)) == y
  {}

  lemma Shifts(y: Word)
    ensures Shr11(Shr11(y)) == Shr22(y) && Shr22(Shr11(y)) == 0 && Shr11(Shr22(y)) == 0
    ensures Shr22(Shr22(y)) == 0 && Shr18(Shr18(y)) == 0
  {}

  lemma ShiftXor11(a: Word, b: Word)
    ensures Shr11(Xor(a, b)) == Xor(Shr11(a), Shr11(b))
  {}

  lemma ShiftXor18(a: Word, b: Word)
    ensures Shr18(Xor(a, b)) == Xor(Shr18(a), Shr18(b))
  {}

  lemma ShiftXor22(a: Word, b: Word)
    ensures Shr22(Xor(a, b)) == Xor(Shr22(a), Shr22(b))
  {}

  lemma XorLaws(a: Word, b: Word, c: Word)
    ensures Xor(Xor(a, b), Xor(b, c)) == Xor(a, c) && Xor(Xor(a, b), b) == a && Xor(a, 0) == a
    ensures Xor(Xor(a, b), c) == Xor(Xor(a, c), b)
  {}

  lemma Undone18(y: Word)
    ensures Right18(Right18(y)) == y
  {
    Shifts(y);
    ShiftXor18(y, Shr18(y));
    XorLaws(y, Shr18(y), 0);
    XorLaws(Shr18(y), 0, 0);
    hide Xor, Shr18, Shr11, Shr22;
  }

  lemma Undone11(y: Word)
    ensures Undo11(Right11(y)) == y && Right11(Undo11(y)) == y
  {
    var s, t := Shr11(y), Shr22(y);
    Shifts(y);
    ShiftXor11(y, s);
    ShiftXor22(y, s);
    ShiftXor11(Xor(y, s), t);
    XorLaws(y, s, t);
    XorLaws(y, t, 0);
    XorLaws(s, t, 0);
    XorLaws(t, 0, 0);
    XorLaws(Xor(y, s), t, Xor(s, t));
    hide Xor, Shr18, Shr11, Shr22;
  }

  /** Tempering loses nothing: it is a bijection on words. */
  lemma TemperInvertible(x: Word)
    ensures Untemper(Temper(x)) == x && Temper(Untemper(x)) == x
  {
    Undone11(x);
    Undone7(Right11(x));
    Undone15(Left7(Right11(x)));
    Undone18(Left15(Left7(Right11(x))));
    Undone18(x);
    Undone15(Right18(x));
    Undone7(Left15(Right18(x)));
    Undone11(Undo7(Left15(Right18(x))));
    hide Right11, Left7, Left15, Right18, Undo11, Undo7;
  }

  // ---------- bit by bit ----------

  /** Bit i of a word, bit 0 being the lowest. */
  function Bit(x: Word, i: Word): bool
    requires i < 32
  {
    (x >> i) & 1 == 1
  }

  /** z at bit i: the bit of xm, the next higher bit of the joined word (the top bit of x and the others of x1, with
      0 shifted in), and, if the joined word is odd, the bit of the constant a; added without carry. */
  predicate TwistAt(x: Word, x1: Word, xm: Word, z: Word, i: Word)
    requires i < 32
  {
    Bit(z, i) == ((Bit(xm, i) != (i != 31 && (if i == 30 then Bit(x, 31) else Bit(x1, i + 1))))
                  != (Bit(x1, 0) && Bit(0x9908_B0DF, i)))
  }

  /** y at bit i: the bit of x, and its bit u places higher, added without carry. */
  predicate RightAt(x: Word, y: Word, u: Word, i: Word)
    requires u < 32 && i < 32
  {
    Bit(y, i) == (Bit(x, i) != (i < 32 - u && Bit(x, i + u)))
  }

  /** y at bit i: the bit of x, and its bit s places lower if the mask lets it through. */
  predicate LeftAt(x: Word, y: Word, s: Word, mask: Word, i: Word)
    requires i < 32
  {
    Bit(y, i) == (Bit(x, i) != (i >= s && Bit(x, i - s) && Bit(mask, i)))
  }

  ghost predicate AddedRight(x: Word, y: Word, u: Word)
    requires u < 32
  {
    forall i: Word | i < 32 :: RightAt(x, y, u, i)
  }

  ghost predicate AddedLeft(x: Word, y: Word, s: Word, mask: Word) {
    forall i: Word | i < 32 :: LeftAt(x, y, s, mask, i)
  }

  lemma RawTwist(x: Word, x1: Word, xm: Word, y: Word, i: Word)
    requires i < 32 && y == (x & 0x8000_0000) | (x1 & 0x7FFF_FFFF)
    ensures (((xm ^ (y >> 1) ^ (if y & 1 == 1 then 0x9908_B0DF else 0)) >> i) & 1 == 1)
         == ((((xm >> i) & 1 == 1)
              != (i != 31 && (if i == 30 then (x >> 31) & 1 == 1 else (x1 >> (i + 1)) & 1 == 1)))
             != ((x1 >> 0) & 1 == 1 && ((0x9908_B0DF as Word) >> i) & 1 == 1))
  {}

  lemma TwistBits(x: Word, x1: Word, xm: Word, i: Word)
    requires i < 32
    ensures TwistAt(x, x1, xm, Twist(x, x1, xm), i)
  {
    RawTwist(x, x1, xm, (x & 0x8000_0000) | (x1 & 0x7FFF_FFFF), i);
  }

  lemma Raw11(x: Word, i: Word)
    requires i < 32
    ensures (((x ^ (x >> 11)) >> i) & 1 == 1) == (((x >> i) & 1 == 1) != (i < 21 && (x >> (i + 11)) & 1 == 1))
  {}

  lemma Bits11(x: Word)
    ensures AddedRight(x, Right11(x), 11)
  {
    forall i: Word | i < 32 ensures RightAt(x, Right11(x), 11, i) { Raw11(x, i); }
    hide RightAt;
  }

  lemma Raw18(x: Word, i: Word)
    requires i < 32
    ensures (((x ^ (x >> 18)) >> i) & 1 == 1) == (((x >> i) & 1 == 1) != (i < 14 && (x >> (i + 18)) & 1 == 1))
  {}

  lemma Bits18(x: Word)
    ensures AddedRight(x, Right18(x), 18)
  {
    forall i: Word | i < 32 ensures RightAt(x, Right18(x), 18, i) { Raw18(x, i); }
    hide RightAt;
  }

  lemma Raw30(x: Word, i: Word)
    requires i < 32
    ensures (((x ^ (x >> 30)) >> i) & 1 == 1) == (((x >> i) & 1 == 1) != (i < 2 && (x >> (i + 30)) & 1 == 1))
  {}

  lemma Bits30(x: Word)
    ensures AddedRight(x, Xor(x, Shr30(x)), 30)
  {
    forall i: Word | i < 32 ensures RightAt(x, Xor(x, Shr30(x)), 30, i) { Raw30(x, i); }
    hide RightAt;
  }

  lemma Raw7(x: Word, i: Word)
    requires i < 32
    ensures (((x ^ ((x << 7) & 0x9D2C_5680)) >> i) & 1 == 1)
         == (((x >> i) & 1 == 1) != (i >= 7 && (x >> (i - 7)) & 1 == 1 && ((0x9D2C_5680 as Word) >> i) & 1 == 1))
  {}

  lemma Bits7(x: Word)
    ensures AddedLeft(x, Left7(x), 7, 0x9D2C_5680)
  {
    forall i: Word | i < 32 ensures LeftAt(x, Left7(x), 7, 0x9D2C_5680, i) { Raw7(x, i); }
    hide LeftAt;
  }

  lemma Raw15(x: Word, i: Word)
    requires i < 32
    ensures (((x ^ ((x << 15) & 0xEFC6_0000)) >> i) & 1 == 1)
         == (((x >> i) & 1 == 1) != (i >= 15 && (x >> (i - 15)) & 1 == 1 && ((0xEFC6_0000 as Word) >> i) & 1 == 1))
  {}

  lemma BitIs(x: Word, i: Word)
    requires i < 32
    ensures Bit(x, i) == ((x >> i) & 1 == 1)
  {}

  lemma Bit15(x: Word, z: Word, i: Word)
    requires i < 32 && z == x ^ ((x << 15) & 0xEFC6_0000)
    ensures Bit(z, i) == (Bit(x, i) != (i >= 15 && Bit(x, i - 15) && Bit(0xEFC6_0000, i)))
  {
    BitIs(z, i);
    BitIs(x, i);
    BitIs(0xEFC6_0000, i);
    if i >= 15 { BitIs(x, i - 15); }
    hide Bit;
    Raw15(x, i);
  }

  lemma Left15At(x: Word, z: Word, i: Word)
    requires i < 32 && z == x ^ ((x << 15) & 0xEFC6_0000)
    ensures LeftAt(x, z, 15, 0xEFC6_0000, i)
  {
    Bit15(x, z, i);
    hide Bit;
  }

  lemma Bits15(x: Word)
    ensures AddedLeft(x, Left15(x), 15, 0xEFC6_0000)
  {
    var z := Left15(x);
    forall i: Word | i < 32 ensures LeftAt(x, z, 15, 0xEFC6_0000, i) { Left15At(x, z, i); }
    hide LeftAt, Left15;
  }

  /** The four steps of tempering in their order, with u = 11, s = 7, t = 15 and l = 18. */
  lemma TemperBits(x: Word) returns (y1: Word, y2: Word, y3: Word)
    ensures AddedRight(x, y1, 11) && AddedLeft(y1, y2, 7, 0x9D2C_5680)
    ensures AddedLeft(y2, y3, 15, 0xEFC6_0000) && AddedRight(y3, Temper(x), 18)
  {
    y1 := Right11(x);
    y2 := Left7(y1);
    y3 := Left15(y2);
    Bits11(x);
    Bits7(y1);
    Bits15(y2);
    Bits18(y3);
    hide AddedRight, AddedLeft, Right11, Left7, Left15, Right18;
  }
}
