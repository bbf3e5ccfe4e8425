/** The checksum of tool.cpp: a table-driven loop that stands for the division of polynomials over
    the field of two elements (Appendix A of the Redis Cluster Specification). */
module Crc16 {

  type Byte = bv8
  type Word = bv16

  // ---------- the table ----------

  /** Entry i of a row of sixteen. */
  function Pick(i: bv8,
                v0: Word, v1: Word, v2: Word, v3: Word, v4: Word, v5: Word, v6: Word, v7: Word,
                v8: Word, v9: Word, v10: Word, v11: Word, v12: Word, v13: Word, v14: Word, v15: Word): Word
  {
    if i < 8 then
      if i < 4 then (if i < 2 then (if i == 0 then v0 else v1) else (if i == 2 then v2 else v3))
      else (if i < 6 then (if i == 4 then v4 else v5) else (if i == 6 then v6 else v7))
    else
      if i < 12 then (if i < 10 then (if i == 8 then v8 else v9) else (if i == 10 then v10 else v11))
      else (if i < 14 then (if i == 12 then v12 else v13) else (if i == 14 then v14 else v15))
  }

  /** crc16tab, sixteen entries to a case. */
  function Table(i: Byte): Word {
    match i >> 4
    case 0 => Pick(i & 15,
      0x0000, 0x1021, 0x2042, 0x3063, 0x4084, 0x50a5, 0x60c6, 0x70e7,
      0x8108, 0x9129, 0xa14a, 0xb16b, 0xc18c, 0xd1ad, 0xe1ce, 0xf1ef)
    case 1 => Pick(i & 15,
      0x1231, 0x0210, 0x3273, 0x2252, 0x52b5, 0x4294, 0x72f7, 0x62d6,
      0x9339, 0x8318, 0xb37b, 0xa35a, 0xd3bd, 0xc39c, 0xf3ff, 0xe3de)
    case 2 => Pick(i & 15,
      0x2462, 0x3443, 0x0420, 0x1401, 0x64e6, 0x74c7, 0x44a4, 0x5485,
      0xa56a, 0xb54b, 0x8528, 0x9509, 0xe5ee, 0xf5cf, 0xc5ac, 0xd58d)
    case 3 => Pick(i & 15,
      0x3653, 0x2672, 0x1611, 0x0630, 0x76d7, 0x66f6, 0x5695, 0x46b4,
      0xb75b, 0xa77a, 0x9719, 0x8738, 0xf7df, 0xe7fe, 0xd79d, 0xc7bc)
    case 4 => Pick(i & 15,
      0x48c4, 0x58e5, 0x6886, 0x78a7, 0x0840, 0x1861, 0x2802, 0x3823,
      0xc9cc, 0xd9ed, 0xe98e, 0xf9af, 0x8948, 0x9969, 0xa90a, 0xb92b)
    case 5 => Pick(i & 15,
      0x5af5, 0x4ad4, 0x7ab7, 0x6a96, 0x1a71, 0x0a50, 0x3a33, 0x2a12,
      0xdbfd, 0xcbdc, 0xfbbf, 0xeb9e, 0x9b79, 0x8b58, 0xbb3b, 0xab1a)
    case 6 => Pick(i & 15,
      0x6ca6, 0x7c87, 0x4ce4, 0x5cc5, 0x2c22, 0x3c03, 0x0c60, 0x1c41,
      0xedae, 0xfd8f, 0xcdec, 0xddcd, 0xad2a, 0xbd0b, 0x8d68, 0x9d49)
    case 7 => Pick(i & 15,
      0x7e97, 0x6eb6, 0x5ed5, 0x4ef4, 0x3e13, 0x2e32, 0x1e51, 0x0e70,
      0xff9f, 0xefbe, 0xdfdd, 0xcffc, 0xbf1b, 0xaf3a, 0x9f59, 0x8f78)
    case 8 => Pick(i & 15,
      0x9188, 0x81a9, 0xb1ca, 0xa1eb, 0xd10c, 0xc12d, 0xf14e, 0xe16f,
      0x1080, 0x00a1, 0x30c2, 0x20e3, 0x5004, 0x4025, 0x7046, 0x6067)
    case 9 => Pick(i & 15,
      0x83b9, 0x9398, 0xa3fb, 0xb3da, 0xc33d, 0xd31c, 0xe37f, 0xf35e,
      0x02b1, 0x1290, 0x22f3, 0x32d2, 0x4235, 0x5214, 0x6277, 0x7256)
    case 10 => Pick(i & 15,
      0xb5ea, 0xa5cb, 0x95a8, 0x8589, 0xf56e, 0xe54f, 0xd52c, 0xc50d,
      0x34e2, 0x24c3, 0x14a0, 0x0481, 0x7466, 0x6447, 0x5424, 0x4405)
    case 11 => Pick(i & 15,
      0xa7db, 0xb7fa, 0x8799, 0x97b8, 0xe75f, 0xf77e, 0xc71d, 0xd73c,
      0x26d3, 0x36f2, 0x0691, 0x16b0, 0x6657, 0x7676, 0x4615, 0x5634)
    case 12 => Pick(i & 15,
      0xd94c, 0xc96d, 0xf90e, 0xe92f, 0x99c8, 0x89e9, 0xb98a, 0xa9ab,
      0x5844, 0x4865, 0x7806, 0x6827, 0x18c0, 0x08e1, 0x3882, 0x28a3)
    case 13 => Pick(i & 15,
      0xcb7d, 0xdb5c, 0xeb3f, 0xfb1e, 0x8bf9, 0x9bd8, 0xabbb, 0xbb9a,
      0x4a75, 0x5a54, 0x6a37, 0x7a16, 0x0af1, 0x1ad0, 0x2ab3, 0x3a92)
    case 14 => Pick(i & 15,
      0xfd2e, 0xed0f, 0xdd6c, 0xcd4d, 0xbdaa, 0xad8b, 0x9de8, 0x8dc9,
      0x7c26, 0x6c07, 0x5c64, 0x4c45, 0x3ca2, 0x2c83, 0x1ce0, 0x0cc1)
    case _ => Pick(i & 15,
      0xef1f, 0xff3e, 0xcf5d, 0xdf7c, 0xaf9b, 0xbfba, 0x8fd9, 0x9ff8,
      0x6e17, 0x7e36, 0x4e55, 0x5e74, 0x2e93, 0x3eb2, 0x0ed1, 0x1ef0)
  }

  // ---------- words as polynomials ----------

  function Xor(a: Word, b: Word): Word { a ^ b }
  function Double(c: Word): Word { c << 1 }
  predicate TopBit(c: Word) { c & 0x8000 != 0 }

  /** Multiplication by x modulo x^16 + x^12 + x^5 + 1. */
  function Shift(c: Word): Word {
    if TopBit(c) then Xor(Double(c), 0x1021) else Double(c)
  }

  function ShiftBy(c: Word, n: nat): Word
    decreases n
  {
    if n == 0 then c else ShiftBy(Shift(c), n - 1)
  }

  function Shift8(c: Word): Word {
    Shift(Shift(Shift(Shift(Shift(Shift(Shift(Shift(c))))))))
  }

  function Top(b: Byte): Word { (b as Word) << 8 }
  function Wide(b: Byte): Word { b as Word }
  function High(c: Word): Byte { (c >> 8) as Byte }
  function Low(c: Word): Byte { (c & 0xFF) as Byte }

  lemma XorZero(a: Word)
    ensures Xor(a, a) == 0 && Xor(a, 0) == a
  {}

  lemma XorSwap(a: Word, b: Word)
    ensures Xor(a, b) == Xor(b, a)
  {}

  lemma XorAssoc(a: Word, b: Word, c: Word)
    ensures Xor(a, Xor(b, c)) == Xor(Xor(a, b), c)
  {}

  lemma XorMoves(a: Word, b: Word, c: Word)
    ensures Xor(Xor(a, c), Xor(b, c)) == Xor(a, b) && Xor(Xor(a, c), b) == Xor(Xor(a, b), c)
            && Xor(a, Xor(b, c)) == Xor(Xor(a, b), c)
  {
    XorAssoc(a, b, c);
    XorAssoc(a, c, b);
    XorSwap(b, c);
    XorAssoc(Xor(a, c), b, c);
    XorAssoc(Xor(a, b), c, c);
    XorZero(c);
    XorZero(Xor(a, b));
    hide Xor;
  }

  lemma DoubleXor(a: Word, b: Word)
    ensures Double(Xor(a, b)) == Xor(Double(a), Double(b))
  {}

  lemma TopBitXor(a: Word, b: Word)
    ensures TopBit(Xor(a, b)) == (TopBit(a) != TopBit(b))
  {}

  /** The shift is linear, although it reduces on a condition. */
  lemma ShiftLinear(a: Word, b: Word)
    ensures Shift(Xor(a, b)) == Xor(Shift(a), Shift(b))
  {
    DoubleXor(a, b);
    TopBitXor(a, b);
    XorMoves(Double(a), Double(b), 0x1021);
    hide Xor, Double, TopBit;
  }

  lemma {:induction false} ShiftByLinear(a: Word, b: Word, n: nat)
    ensures ShiftBy(Xor(a, b), n) == Xor(ShiftBy(a, n), ShiftBy(b, n))
    decreases n
  {
    if n > 0 {
      ShiftLinear(a, b);
      ShiftByLinear(Shift(a), Shift(b), n - 1);
    }
  }

  lemma ShiftOnlyZero(c: Word)
    ensures Shift(c) == 0 <==> c == 0
  {}

  /** The shift is invertible: it sends no two words to the same. */
  lemma {:induction false} ShiftByInjective(a: Word, b: Word, n: nat)
    requires ShiftBy(a, n) == ShiftBy(b, n)
    ensures a == b
    decreases n
  {
    if n > 0 {
      ShiftByInjective(Shift(a), Shift(b), n - 1);
      ShiftInjective(a, b);
    }
  }

  lemma ShiftInjective(a: Word, b: Word)
    requires Shift(a) == Shift(b)
    ensures a == b
  {
    ShiftLinear(a, b);
    XorZero(Shift(a));
    ShiftOnlyZero(Xor(a, b));
    XorMoves(a, b, b);
    XorZero(b);
    XorZero(a);
    hide Xor, Shift;
    XorEqual(a, b);
  }

  lemma XorEqual(a: Word, b: Word)
    requires Xor(a, b) == 0
    ensures a == b
  {}

  lemma Shift8Is(c: Word)
    ensures Shift8(c) == ShiftBy(c, 8)
  {
    hide Shift;
    var c4 := Shift(Shift(Shift(Shift(c))));
    assert ShiftBy(c, 8) == ShiftBy(Shift(Shift(c)), 6) == ShiftBy(c4, 4);
    assert ShiftBy(c4, 4) == ShiftBy(Shift(Shift(c4)), 2) == ShiftBy(Shift8(c), 0);
  }

  // ---------- the table stands for eight shifts ----------

  lemma LowHalf(i: Byte)
    requires i < 128
    ensures Table(i) == Shift8(Top(i))
  {}

  lemma HighHalf(i: Byte)
    requires i >= 128
    ensures Table(i) == Shift8(Top(i))
  {}

  lemma TableIs(i: Byte)
    ensures Table(i) == Shift8(Top(i))
  {
    hide Table, Shift8;
    if i < 128 { LowHalf(i); } else { HighHalf(i); }
  }

  lemma LowShifted(b: Byte)
    ensures Shift8(Wide(b)) == Top(b)
  {}

  lemma Halves(c: Word, b: Byte)
    ensures Xor(Top(High(c)), Wide(Low(c))) == c
    ensures High(Xor(c, Top(b))) == High(c) ^ b && Low(Xor(c, Top(b))) == Low(c) && c << 8 == Top(Low(c))
  {}

  /** What the loop of crc16 does with a byte. */
  function ByteStep(crc: Word, b: Byte): Word {
    Xor(crc << 8, Table(High(crc) ^ b))
  }

  /** One step by table is the byte added at the top, and eight shifts. */
  lemma ByteStepIs(crc: Word, b: Byte)
    ensures ByteStep(crc, b) == ShiftBy(Xor(crc, Top(b)), 8)
  {
    var x := Xor(crc, Top(b));
    Halves(crc, b);
    Halves(x, 0);
    TableIs(High(x));
    LowShifted(Low(x));
    Shift8Is(Top(High(x)));
    Shift8Is(Wide(Low(x)));
    ShiftByLinear(Top(High(x)), Wide(Low(x)), 8);
    hide Xor, Shift8, ShiftBy, Table, Top, Wide, High, Low;
    XorSwap(Table(High(x)), Top(Low(x)));
  }

  // ---------- crc16 ----------

  /** The checksum of a string: each byte is added at the top of the word and shifted through it. */
  function Crc(s: seq<Byte>): Word {
    if s == [] then 0 else ShiftBy(Xor(Crc(s[..|s| - 1]), Top(s[|s| - 1])), 8)
  }

  method Crc16(buf: seq<Byte>) returns (crc: Word)
    ensures crc == Crc(buf)
  {
    crc := 0;
    var counter := 0;
    while counter < |buf|
      invariant 0 <= counter <= |buf| && crc == Crc(buf[..counter])
    {
      ByteStepIs(crc, buf[counter]);
      hide ByteStep, ShiftBy, Xor, Top;
      assert buf[..counter + 1][..counter] == buf[..counter];
      crc := ByteStep(crc, buf[counter]);
      counter := counter + 1;
    }
    assert buf[..counter] == buf;
  }

  method GetKeysSlots(key: seq<Byte>) returns (slot: Word)
    ensures slot == Crc(key) & 0x3FFF && slot < 16384
  {
    var crc := Crc16(key);
    slot := crc & 0x3FFF;
  }

  lemma {:induction false} CrcApart(s: seq<Byte>, t: seq<Byte>, n: nat)
    requires n <= |s| == |t| && s[n..] == t[n..] && Crc(s[..n]) != Crc(t[..n])
    ensures Crc(s) != Crc(t)
    decreases |s| - n
  {
    hide Xor, ShiftBy, Top;
    if n < |s| {
      assert s[..n + 1][..n] == s[..n] && t[..n + 1][..n] == t[..n];
      assert s[n] == s[n..][0] == t[n..][0] == t[n];
      ByteApart(Crc(s[..n]), Crc(t[..n]), s[n]);
      assert s[n + 1..] == s[n..][1..] && t[n + 1..] == t[n..][1..];
      CrcApart(s, t, n + 1);
    } else {
      assert s[..n] == s && t[..n] == t;
    }
  }

  lemma ByteApart(c: Word, d: Word, b: Byte)
    requires c != d
    ensures ShiftBy(Xor(c, Top(b)), 8) != ShiftBy(Xor(d, Top(b)), 8)
  {
    hide Top;
    if ShiftBy(Xor(c, Top(b)), 8) == ShiftBy(Xor(d, Top(b)), 8) {
      ShiftByInjective(Xor(c, Top(b)), Xor(d, Top(b)), 8);
      XorCancel(c, d, Top(b));
    }
  }

  lemma XorCancel(a: Word, b: Word, c: Word)
    requires Xor(a, c) == Xor(b, c)
    ensures a == b
  {
    XorMoves(a, b, c);
    XorZero(Xor(a, c));
    XorEqual(a, b);
  }

  /** Two bytes go through the word as sixteen shifts of both together. */
  lemma TwoBytes(c: Word, b1: Byte, b2: Byte)
    ensures ShiftBy(Xor(ShiftBy(Xor(c, Top(b1)), 8), Top(b2)), 8)
            == ShiftBy(ShiftBy(Xor(Xor(c, Top(b1)), Wide(b2)), 8), 8)
  {
    LowShifted(b2);
    Shift8Is(Wide(b2));
    ShiftByLinear(Xor(c, Top(b1)), Wide(b2), 8);
    hide Xor, ShiftBy, Shift8, Top, Wide;
  }

  /** Checksum high byte, then low byte, appended to any string give checksum 0. */
  lemma AppendedGivesZero(s: seq<Byte>)
    ensures Crc(s + [High(Crc(s)), Low(Crc(s))]) == 0
  {
    var c := Crc(s);
    var b1, b2 := High(c), Low(c);
    var w := s + [b1, b2];
    assert w[..|w| - 1] == s + [b1] && (s + [b1])[..|s|] == s;
    TwoBytes(c, b1, b2);
    Halves(c, 0);
    XorMoves(c, Wide(b2), Top(b1));
    XorMoves(c, Top(b1), Wide(b2));
    XorZero(c);
    assert ShiftBy(0, 8) == 0 by { ShiftByZero(8); }
    hide Xor, ShiftBy, High, Low, Top, Wide;
  }

  lemma {:induction false} ShiftByZero(n: nat)
    ensures ShiftBy(0, n) == 0
  {
    ShiftOnlyZero(0);
    if n > 0 { ShiftByZero(n - 1); }
  }

  lemma SamePair(c: Word, a1: Byte, a2: Byte, b1: Byte, b2: Byte)
    requires Xor(Xor(c, Top(a1)), Wide(a2)) == Xor(Xor(c, Top(b1)), Wide(b2))
    ensures a1 == b1 && a2 == b2
  {
    var x, y := Xor(c, Top(a1)), Xor(c, Top(b1));
    XorMoves(c, Wide(a2), Top(a1));
    XorMoves(c, Wide(b2), Top(b1));
    PairParts(c, a1, a2);
    PairParts(c, b1, b2);
    hide Xor, Top, Wide, High, Low;
    ByteCancel(High(c), a1, b1);
    ByteCancel(Low(c), a2, b2);
  }

  lemma PairParts(c: Word, a1: Byte, a2: Byte)
    ensures High(Xor(Xor(c, Top(a1)), Wide(a2))) == High(c) ^ a1 && Low(Xor(Xor(c, Top(a1)), Wide(a2))) == Low(c) ^ a2
  {}

  lemma ByteCancel(c: Byte, a: Byte, b: Byte)
    requires c ^ a == c ^ b
    ensures a == b
  {}

  /** Any change that stays within two consecutive bytes changes the checksum. */
  lemma TwoByteChangeDetected(s: seq<Byte>, t: seq<Byte>, i: nat)
    requires |s| == |t| && s != t && i < |s|
    requires forall j | 0 <= j < |s| && j != i && j != i + 1 :: s[j] == t[j]
    ensures Crc(s) != Crc(t)
  {
    assert s[..i] == t[..i];
    assert s[..i + 1][..i] == s[..i] && t[..i + 1][..i] == t[..i];
    if i + 1 == |s| {
      assert s[..i + 1] == s && t[..i + 1] == t && s[i] != t[i];
      PairApart(Crc(s[..i]), s[i], 0, t[i], 0);
      hide ShiftBy, Xor, Top;
    } else {
      assert s[..i + 2][..i + 1] == s[..i + 1] && t[..i + 2][..i + 1] == t[..i + 1] && s[i + 2..] == t[i + 2..];
      PairApart(Crc(s[..i]), s[i], s[i + 1], t[i], t[i + 1]);
      hide ShiftBy, Xor, Top;
      CrcApart(s, t, i + 2);
    }
  }

  lemma PairApart(c: Word, a1: Byte, a2: Byte, b1: Byte, b2: Byte)
    requires a1 != b1 || a2 != b2
    ensures ShiftBy(Xor(ShiftBy(Xor(c, Top(a1)), 8), Top(a2)), 8)
            != ShiftBy(Xor(ShiftBy(Xor(c, Top(b1)), 8), Top(b2)), 8)
  {
    TwoBytes(c, a1, a2);
    TwoBytes(c, b1, b2);
    var x, y := Xor(Xor(c, Top(a1)), Wide(a2)), Xor(Xor(c, Top(b1)), Wide(b2));
    if ShiftBy(ShiftBy(x, 8), 8) == ShiftBy(ShiftBy(y, 8), 8) {
      ShiftByInjective(ShiftBy(x, 8), ShiftBy(y, 8), 8);
      ShiftByInjective(x, y, 8);
      SamePair(c, a1, a2, b1, b2);
    }
  }

  // ---------- bit by bit ----------

  /** The bits of a string, the highest of each byte first. */
  function Bits(s: seq<Byte>): (r: seq<bool>)
    ensures |r| == 8 * |s|
  {
    if s == [] then [] else Bits(s[..|s| - 1]) + BitsFrom(s[|s| - 1], 8)
  }

  function BitsFrom(b: Byte, n: nat): (r: seq<bool>)
    ensures |r| == n
    decreases n
  {
    if n == 0 then [] else [b & 0x80 != 0] + BitsFrom(b << 1, n - 1)
  }

  function Bit15(b: bool): Word { if b then 0x8000 else 0 }

  /** The register after one bit more, and after several. */
  function BitStep(c: Word, b: bool): Word { Shift(Xor(c, Bit15(b))) }

  function Feed(c: Word, m: seq<bool>): Word {
    if m == [] then c else BitStep(Feed(c, m[..|m| - 1]), m[|m| - 1])
  }

  lemma {:induction false} FeedFirst(c: Word, b: bool, m: seq<bool>)
    ensures Feed(c, [b] + m) == Feed(BitStep(c, b), m)
    decreases |m|
  {
    hide BitStep;
    var w := [b] + m;
    if m != [] {
      FeedFirst(c, b, m[..|m| - 1]);
      assert w[..|w| - 1] == [b] + m[..|m| - 1];
    } else {
      assert w[..0] == [];
    }
  }

  lemma {:induction false} FeedMore(c: Word, m: seq<bool>, l: seq<bool>)
    ensures Feed(c, m + l) == Feed(Feed(c, m), l)
    decreases |l|
  {
    hide BitStep;
    if l == [] {
      assert m + l == m;
    } else {
      var w := m + l;
      assert w[..|w| - 1] == m + l[..|l| - 1];
      FeedMore(c, m, l[..|l| - 1]);
    }
  }

  lemma TopSplit(b: Byte)
    ensures Top(b) == Xor(Bit15(b & 0x80 != 0), Top(b & 0x7F)) && Shift(Top(b & 0x7F)) == Top(b << 1)
  {}

  /** Feeding n bits of a byte leaves the rest of the byte to be added. */
  lemma {:induction false} FeedByte(c: Word, b: Byte, n: nat)
    ensures n <= 8 ==> ShiftBy(Xor(c, Top(b)), n) == Xor(Feed(c, BitsFrom(b, n)), Top(Left(b, n)))
    decreases n
  {
    if n == 0 {
      assert Left(b, 0) == b;
    } else {
      var bit := b & 0x80 != 0;
      FeedByte(BitStep(c, bit), b << 1, n - 1);
      FeedFirst(c, bit, BitsFrom(b << 1, n - 1));
      TopSplit(b);
      XorAssoc(c, Bit15(bit), Top(b & 0x7F));
      ShiftLinear(Xor(c, Bit15(bit)), Top(b & 0x7F));
      hide Xor, Shift, Top, Bit15;
    }
  }

  function Left(b: Byte, n: nat): Byte
    decreases n
  {
    if n == 0 then b else Left(b << 1, n - 1)
  }

  lemma LeftEight(b: Byte)
    ensures Left(b, 8) == 0
  {
    assert Left(b, 8) == Left(b << 1 << 1, 6) == Left(b << 1 << 1 << 1 << 1, 4);
    var c := b << 1 << 1 << 1 << 1;
    assert Left(c, 4) == Left(c << 1 << 1, 2) == c << 1 << 1 << 1 << 1;
  }

  /** The table-driven loop computes what feeding the bits one at a time computes. */
  lemma {:induction false} CrcIsBitwise(s: seq<Byte>)
    ensures Crc(s) == Feed(0, Bits(s))
  {
    if s != [] {
      var p, b := s[..|s| - 1], s[|s| - 1];
      CrcIsBitwise(p);
      FeedMore(0, Bits(p), BitsFrom(b, 8));
      FeedByte(Crc(p), b, 8);
      LeftEight(b);
      XorZero(Feed(Crc(p), BitsFrom(b, 8)));
      assert Top(0) == 0;
      hide Xor, ShiftBy, Top, Feed, Left;
    }
  }

  // ---------- division of polynomials ----------

  /** Coefficient k of x^16 + x^12 + x^5 + 1, from the highest on. */
  predicate G(k: int) { k == 0 || k == 4 || k == 11 || k == 16 }

  /** Coefficient k of a word as a polynomial of degree less than 16, from the highest on. */
  predicate Coefficient(c: Word, k: nat)
    decreases k
  {
    if k == 0 then TopBit(c) else Coefficient(Double(c), k - 1)
  }

  /** Coefficient j of q * G, a polynomial of |q| + 16 coefficients. */
  predicate TimesG(q: seq<bool>, j: int) {
    if q == [] then false
    else TimesG(q[..|q| - 1], j) != (q[|q| - 1] && G(j - (|q| - 1)))
  }

  /** Coefficient j of m * x^16. */
  predicate Times16(m: seq<bool>, j: int) { 0 <= j < |m| && m[j] }

  /** Coefficient j of a remainder, seen as a polynomial of n + 16 coefficients. */
  predicate Remainder(c: Word, n: nat, j: int) { 0 <= j - n < 16 && Coefficient(c, j - n) }

  /** m * x^16 == q * G + c. */
  ghost predicate Divides(m: seq<bool>, q: seq<bool>, c: Word) {
    |q| == |m| && forall j | 0 <= j < |m| + 16 :: Times16(m, j) == (TimesG(q, j) != Remainder(c, |m|, j))
  }

  function Quotient(m: seq<bool>): (q: seq<bool>)
    ensures |q| == |m|
  {
    if m == [] then []
    else
      var p := m[..|m| - 1];
      Quotient(p) + [TopBit(Feed(0, p)) != m[|m| - 1]]
  }

  lemma {:induction false} CoefficientXor(a: Word, b: Word, k: nat)
    ensures Coefficient(Xor(a, b), k) == (Coefficient(a, k) != Coefficient(b, k))
    decreases k
  {
    TopBitXor(a, b);
    DoubleXor(a, b);
    hide Xor, Double, TopBit;
    if k > 0 { CoefficientXor(Double(a), Double(b), k - 1); }
  }

  /** The words with a single coefficient or none, and G without its highest. */
  lemma Constants(k: nat)
    requires k <= 16
    ensures !Coefficient(0, k) && Coefficient(0x8000, k) == (k == 0) && Coefficient(0x1021, k) == G(k + 1)
    decreases k
  {
    assert Double(0) == 0 && Double(0x8000) == 0;
    if k > 0 {
      Constants(k - 1);
      assert Coefficient(0, k) == Coefficient(0, k - 1) && Coefficient(0x8000, k) == Coefficient(0, k - 1);
      PolyCoefficient(k);
    }
  }

  lemma FirstFour(c: Word)
    ensures Coefficient(c, 0) == (c & 0x8000 != 0) && Coefficient(c, 1) == (c & 0x4000 != 0)
    ensures Coefficient(c, 2) == (c & 0x2000 != 0) && Coefficient(c, 3) == (c & 0x1000 != 0)
  {
    assert Coefficient(c, 1) == TopBit(Double(c));
    assert Coefficient(c, 2) == Coefficient(Double(c), 1) == TopBit(Double(Double(c)));
    assert Coefficient(c, 3) == Coefficient(Double(Double(c)), 1) == TopBit(Double(Double(Double(c))));
  }

  lemma AfterFour(c: Word, k: nat)
    requires k >= 4
    ensures Coefficient(c, k) == Coefficient(c << 4, k - 4)
  {
    assert Coefficient(c, k) == Coefficient(Double(Double(c)), k - 2)
        == Coefficient(Double(Double(Double(Double(c)))), k - 4);
  }

  lemma PolyCoefficient(k: nat)
    requires k <= 16
    ensures Coefficient(0x1021, k) == G(k + 1)
  {
    FirstFour(0x1021);
    FirstFour(0x0210);
    FirstFour(0x2100);
    FirstFour(0x1000);
    FirstFour(0);
    if k >= 4 { AfterFour(0x1021, k); }
    if k >= 8 { AfterFour(0x0210, k - 4); }
    if k >= 12 { AfterFour(0x2100, k - 8); }
    if k >= 16 { AfterFour(0x1000, k - 12); }
    assert 0x1021 as Word << 4 == 0x0210 && 0x0210 as Word << 4 == 0x2100 && 0x2100 as Word << 4 == 0x1000
        && 0x1000 as Word << 4 == 0;
    hide Coefficient;
  }

  lemma {:induction false} Gone(c: Word, n: nat)
    requires n <= 16
    ensures Coefficient(c, n) == TopBit(Doubled(c, n))
    decreases n
  {
    hide Double, TopBit;
    if n > 0 { Gone(Double(c), n - 1); }
  }

  function Doubled(c: Word, n: nat): Word
    decreases n
  {
    if n == 0 then c else Doubled(Double(c), n - 1)
  }

  lemma DoubledAll(c: Word)
    ensures Doubled(c, 16) == 0
  {
    DoubledFour(c, 16);
    DoubledFour(c << 4, 12);
    DoubledFour(c << 4 << 4, 8);
    DoubledFour(c << 4 << 4 << 4, 4);
    assert c << 4 << 4 << 4 << 4 == 0;
  }

  lemma DoubledFour(c: Word, n: nat)
    requires n >= 4
    ensures Doubled(c, n) == Doubled(c << 4, n - 4)
  {
    assert Doubled(c, n) == Doubled(Double(Double(c)), n - 2) == Doubled(Double(Double(Double(Double(c)))), n - 4);
  }

  lemma AddedCoefficient(c: Word, b: bool, k: nat)
    requires k <= 16
    ensures Coefficient(Xor(c, Bit15(b)), k) == (Coefficient(c, k) != (k == 0 && b))
  {
    CoefficientXor(c, Bit15(b), k);
    Constants(k);
    assert Bit15(b) == if b then 0x8000 else 0;
    hide *;
  }

  lemma ShiftedCoefficient(d: Word, k: nat)
    requires k < 16
    ensures Coefficient(Shift(d), k) == (Coefficient(d, k + 1) != (Coefficient(d, 0) && G(k + 1)))
  {
    var low := Double(d);
    assert Coefficient(d, k + 1) == Coefficient(low, k);
    assert Shift(d) == if Coefficient(d, 0) then Xor(low, 0x1021) else low;
    CoefficientXor(low, 0x1021, k);
    Constants(k);
    hide *;
  }

  lemma NoCoefficient16(d: Word)
    ensures !Coefficient(d, 16)
  {
    Gone(d, 16);
    DoubledAll(d);
    assert !TopBit(0);
    hide *;
  }

  /** One bit more: what is shifted out decides whether G is subtracted. */
  lemma StepCoefficients(c: Word, b: bool, k: nat)
    requires k <= 16
    ensures ((k < 16 && Coefficient(c, k)) != (k == 0 && b))
            == (((TopBit(c) != b) && G(k)) != (k > 0 && Coefficient(BitStep(c, b), k - 1)))
  {
    hide Shift, Xor, Bit15, TopBit, Double;
    var d := Xor(c, Bit15(b));
    assert G(0) && TopBit(c) == Coefficient(c, 0) && BitStep(c, b) == Shift(d);
    AddedCoefficient(c, b, 0);
    AddedCoefficient(c, b, k);
    if k > 0 { ShiftedCoefficient(d, k - 1); }
    NoCoefficient16(d);
    hide *;
  }

  /** Long division: the register is what is left after the quotient so far. */
  lemma {:induction false} RegisterIsRemainder(m: seq<bool>)
    ensures Divides(m, Quotient(m), Feed(0, m))
    decreases |m|
  {
    if m == [] {
      forall j | 0 <= j < 16 ensures !Remainder(0, 0, j) { Constants(j); }
    } else {
      var n := |m| - 1;
      var p, b, q := m[..n], m[n], Quotient(m);
      var c := Feed(0, p);
      RegisterIsRemainder(p);
      assert q[..n] == Quotient(p) && q[n] == (TopBit(c) != b);
      hide Coefficient, BitStep, TopBit;
      forall j | 0 <= j < |m| + 16 ensures Times16(m, j) == (TimesG(q, j) != Remainder(Feed(0, m), |m|, j)) {
        if n <= j { StepCoefficients(c, b, j - n); }
        if j == n + 16 { TimesGHigh(q[..n], j); }
        assert j < n + 16 ==> Times16(p, j) == (TimesG(q[..n], j) != Remainder(c, n, j));
      }
    }
  }

  lemma {:induction false} TimesGHigh(q: seq<bool>, j: int)
    requires j >= |q| + 16
    ensures !TimesG(q, j)
    decreases |q|
  {
    if q != [] { TimesGHigh(q[..|q| - 1], j); }
  }

  /** The leading coefficients of q * G determine q. */
  lemma {:induction false} LeadingDecides(q: seq<bool>, r: seq<bool>, j: nat)
    requires |q| == |r| && j < |q| && q[..j] == r[..j]
    ensures TimesG(q, j) == TimesG(r, j) <==> q[j] == r[j]
    decreases |q|
  {
    var n := |q| - 1;
    if j < n {
      assert q[..n][..j] == q[..j] && r[..n][..j] == r[..j];
      LeadingDecides(q[..n], r[..n], j);
    } else {
      assert q[..n] == r[..n];
    }
  }

  lemma {:induction false} SameQuotient(m: seq<bool>, q: seq<bool>, c: Word, r: seq<bool>, d: Word, n: nat)
    requires Divides(m, q, c) && Divides(m, r, d) && n <= |m|
    ensures q[..n] == r[..n]
    decreases n
  {
    if n > 0 {
      SameQuotient(m, q, c, r, d, n - 1);
      LeadingDecides(q, r, n - 1);
      assert Times16(m, n - 1) == TimesG(q, n - 1) == TimesG(r, n - 1);
      assert q[..n] == q[..n - 1] + [q[n - 1]] && r[..n] == r[..n - 1] + [r[n - 1]];
    }
  }

  lemma {:induction false} OnlyZero(c: Word, n: nat)
    requires (forall k | 0 <= k < n :: !Coefficient(c, k)) && Doubled(c, n) == 0
    ensures c == 0
    decreases n
  {
    if n > 0 {
      assert !Coefficient(c, 0);
      forall k | 0 <= k < n - 1 ensures !Coefficient(Double(c), k) { assert !Coefficient(c, k + 1); }
      OnlyZero(Double(c), n - 1);
    }
  }

  lemma SameCoefficients(c: Word, d: Word)
    requires forall k | 0 <= k < 16 :: Coefficient(c, k) == Coefficient(d, k)
    ensures c == d
  {
    forall k | 0 <= k < 16 ensures !Coefficient(Xor(c, d), k) { CoefficientXor(c, d, k); }
    DoubledAll(Xor(c, d));
    OnlyZero(Xor(c, d), 16);
    XorEqual(c, d);
  }

  lemma OnlyRemainder(m: seq<bool>, q: seq<bool>, c: Word, r: seq<bool>, d: Word)
    requires Divides(m, q, c) && Divides(m, r, d)
    ensures c == d
  {
    SameQuotient(m, q, c, r, d, |m|);
    assert q[..|m|] == q && r[..|m|] == r;
    hide TimesG, Times16, Coefficient;
    forall k | 0 <= k < 16 ensures Coefficient(c, k) == Coefficient(d, k) {
      assert Times16(m, |m| + k) == (TimesG(q, |m| + k) != Remainder(c, |m|, |m| + k));
      assert Times16(m, |m| + k) == (TimesG(r, |m| + k) != Remainder(d, |m|, |m| + k));
    }
    SameCoefficients(c, d);
  }

  /** The checksum of a string is the remainder of its bits, times x^16, divided by
      x^16 + x^12 + x^5 + 1: for every string, exactly one word is. */
  lemma CrcIsRemainder(s: seq<Byte>, c: Word)
    ensures c == Crc(s) <==> exists q :: Divides(Bits(s), q, c)
  {
    CrcIsBitwise(s);
    RegisterIsRemainder(Bits(s));
    if q :| Divides(Bits(s), q, c) {
      OnlyRemainder(Bits(s), q, c, Quotient(Bits(s)), Crc(s));
    }
  }
}
