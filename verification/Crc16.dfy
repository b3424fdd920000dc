/**
  Exclusive or on non-negative integers, bit by bit, and the laws of it that the
  CRC proofs use.
 */
module BitArith {
  import opened Basics

  function Xor(a: nat, b: nat): nat
    decreases a, b
  {
    if a == 0 then b else if b == 0 then a
    else (a + b) % 2 + 2 * Xor(a / 2, b / 2)
  }

  lemma XorUnfold(a: nat, b: nat)
    requires a != 0 && b != 0
    ensures Xor(a, b) == (a + b) % 2 + 2 * Xor(a / 2, b / 2)
  {}

  lemma XorHalves(a: nat, b: nat)
    ensures Xor(a, b) % 2 == (a + b) % 2
    ensures Xor(a, b) / 2 == Xor(a / 2, b / 2)
  {
    hide Xor;
    if a == 0 || b == 0 {
      XorZero(a); XorZero(b); XorZero(a / 2); XorZero(b / 2);
    } else {
      XorUnfold(a, b);
    }
  }

  lemma XorZero(a: nat)
    ensures Xor(a, 0) == Xor(0, a) == a
  {}

  lemma SameHalves(a: nat, b: nat)
    requires a % 2 == b % 2 && a / 2 == b / 2
    ensures a == b
  {}

  lemma Parity(a: nat, b: nat, c: nat, x: nat, y: nat)
    requires x % 2 == (a + b) % 2 && y % 2 == (b + c) % 2
    ensures (x + c) % 2 == (a + y) % 2
  {}

  lemma {:induction false} XorComm(a: nat, b: nat)
    ensures Xor(a, b) == Xor(b, a)
    decreases a
  {
    if a != 0 && b != 0 {
      XorComm(a / 2, b / 2);
    }
  }

  lemma {:induction false} XorAssoc(a: nat, b: nat, c: nat)
    ensures Xor(Xor(a, b), c) == Xor(a, Xor(b, c))
    decreases a
  {
    if a != 0 && b != 0 && c != 0 {
      var x, y := Xor(a, b), Xor(b, c);
      XorHalves(a, b); XorHalves(b, c);
      XorHalves(x, c); XorHalves(a, y);
      XorAssoc(a / 2, b / 2, c / 2);
      Parity(a, b, c, x, y);
      SameHalves(Xor(x, c), Xor(a, y));
    }
  }

  lemma {:induction false} XorSelf(a: nat)
    ensures Xor(a, a) == 0
  {
    if a != 0 {
      XorSelf(a / 2);
    }
  }

  lemma XorCancel(a: nat, b: nat, c: nat)
    requires Xor(a, c) == Xor(b, c)
    ensures a == b
  {
    hide Xor;
    XorAssoc(a, c, c); XorAssoc(b, c, c); XorSelf(c); XorZero(a); XorZero(b);
  }

  /** (a ^ b) ^ (c ^ d) == (a ^ c) ^ (b ^ d) */
  lemma XorSwap(a: nat, b: nat, c: nat, d: nat)
    ensures Xor(Xor(a, b), Xor(c, d)) == Xor(Xor(a, c), Xor(b, d))
  {
    hide Xor;
    XorAssoc(a, b, Xor(c, d)); XorAssoc(b, c, d);
    XorComm(b, c); XorAssoc(c, b, d);
    XorAssoc(a, c, Xor(b, d));
  }

  lemma {:induction false} XorBound(a: nat, b: nat, n: nat)
    requires a < Pow2(n) && b < Pow2(n)
    ensures Xor(a, b) < Pow2(n)
    decreases n
  {
    if a != 0 && b != 0 {
      XorBound(a / 2, b / 2, n - 1);
    }
  }

  /** Xor of two numbers whose set bits do not meet is their sum. */
  lemma {:induction false} XorDisjoint(h: nat, l: nat, n: nat)
    requires l < Pow2(n)
    ensures Xor(Pow2(n) * h, l) == Pow2(n) * h + l
    decreases n
  {
    if n != 0 {
      var m := Pow2(n - 1) * h;
      XorDisjoint(h, l / 2, n - 1);
      XorDouble(m, l);
      MulTwice(Pow2(n - 1), h);
    }
  }

  lemma XorDouble(m: nat, l: nat)
    requires Xor(m, l / 2) == m + l / 2
    ensures Xor(2 * m, l) == 2 * m + l
  {
    XorHalves(2 * m, l);
    SameHalves(Xor(2 * m, l), 2 * m + l);
  }

  lemma MulTwice(p: int, h: int)
    ensures (2 * p) * h == 2 * (p * h)
  {}

  /** Xor with a byte leaves everything above the low byte alone. */
  lemma XorByte(c: nat, b: byte)
    ensures Xor(c, b) / 256 == c / 256
    ensures Xor(c, b) == Xor(256 * (c / 256), Xor(c, b) % 256)
  {
    hide Xor;
    Pow2Values();
    var h, l := c / 256, c % 256;
    var m := Xor(l, b);
    XorDisjoint(h, l, 8);
    XorAssoc(256 * h, l, b);
    XorBound(l, b, 8);
    XorDisjoint(h, m, 8);
    assert Xor(c, b) == 256 * h + m;
  }

  /** A value folded into one or both sides of an xor comes out of it once or not at all. */
  lemma XorFold(x: nat, y: nat, p: nat)
    ensures Xor(Xor(x, p), Xor(y, p)) == Xor(x, y)
    ensures Xor(Xor(x, p), y) == Xor(x, Xor(y, p)) == Xor(Xor(x, y), p)
  {
    hide Xor;
    XorSwap(x, p, y, p); XorSelf(p); XorZero(Xor(x, y));
    XorAssoc(x, p, y); XorComm(p, y); XorAssoc(x, y, p);
  }

  /** Each bit of an exclusive or is one exactly when one of the two bits is. */
  lemma {:induction false} XorBit(a: nat, b: nat, i: nat)
    ensures Bit(Xor(a, b), i) == (Bit(a, i) + Bit(b, i)) % 2
    decreases i
  {
    hide Xor, Bit;
    BitStep(Xor(a, b), if i > 0 then i - 1 else 0);
    BitStep(a, if i > 0 then i - 1 else 0);
    BitStep(b, if i > 0 then i - 1 else 0);
    XorHalves(a, b);
    if i > 0 {
      XorBit(a / 2, b / 2, i - 1);
    }
  }
}

/**
  The Modbus CRC-16 of src/pymod/protocol/adu_rtu.py: polynomial 0xA001, initial
  value 0xFFFF, bits taken least significant first.
 */
module Crc16 {
  import opened Basics
  import opened BitArith

  const POLY: nat := 0xA001
  const INIT: nat := 0xFFFF

  /** One bit step: shift right and, when a one falls out, fold in the polynomial. */
  function Shift(c: nat): nat
  {
    if c % 2 == 1 then Xor(c / 2, POLY) else c / 2
  }

  function ShiftN(c: nat, n: nat): nat
    decreases n
  {
    if n == 0 then c else ShiftN(Shift(c), n - 1)
  }

  /** The bit-serial definition: one byte is xored in, then eight bit steps. */
  function StepByte(c: nat, b: nat): nat
  {
    ShiftN(Xor(c, b), 8)
  }

  /** The CRC register after feeding `data` to a register that held `c`. */
  function Feed(c: nat, data: seq<byte>): nat
  {
    if data == [] then c
    else StepByte(Feed(c, data[..|data| - 1]), data[|data| - 1])
  }

  /** CRC-16 by the bit-serial definition. */
  function CrcBitSerial(data: seq<byte>): nat
  {
    Feed(INIT, data)
  }

  // ---------- linearity and injectivity of the bit step ----------

  lemma ShiftLinear(a: nat, b: nat)
    ensures Shift(Xor(a, b)) == Xor(Shift(a), Shift(b))
  {
    hide Xor;
    XorHalves(a, b);
    XorFold(a / 2, b / 2, POLY);
  }

  lemma {:induction false} ShiftNLinear(a: nat, b: nat, n: nat)
    ensures ShiftN(Xor(a, b), n) == Xor(ShiftN(a, n), ShiftN(b, n))
    decreases n
  {
    hide Xor;
    if n != 0 {
      ShiftLinear(a, b);
      ShiftNLinear(Shift(a), Shift(b), n - 1);
    }
  }

  /** Bits above position n pass through n steps unchanged. */
  lemma {:induction false} ShiftNHigh(h: nat, n: nat)
    ensures ShiftN(Pow2(n) * h, n) == h
    decreases n
  {
    if n != 0 {
      var m := Pow2(n - 1) * h;
      assert Pow2(n) * h == 2 * m;
      assert Shift(2 * m) == m;
      ShiftNHigh(h, n - 1);
    }
  }

  /** A one falling out always sets the top bit, because the polynomial has it. */
  lemma ShiftTopBit(c: nat)
    requires c < 0x1_0000
    ensures Shift(c) < 0x1_0000
    ensures Shift(c) >= 0x8000 <==> c % 2 == 1
  {
    hide Xor;
    Pow2Values();
    var h, r := c / 2, 0x2001;
    XorDisjoint(1, r, 15);
    XorAssoc(h, 0x8000, r); XorComm(h, 0x8000); XorAssoc(0x8000, h, r);
    XorBound(h, r, 15);
    XorDisjoint(1, Xor(h, r), 15);
  }

  lemma ShiftInjective(a: nat, b: nat)
    requires a < 0x1_0000 && b < 0x1_0000 && Shift(a) == Shift(b)
    ensures a == b
  {
    hide Xor;
    ShiftTopBit(a); ShiftTopBit(b);
    if a % 2 == 1 {
      XorCancel(a / 2, b / 2, POLY);
    }
  }

  lemma {:induction false} ShiftNInjective(a: nat, b: nat, n: nat)
    requires a < 0x1_0000 && b < 0x1_0000
    ensures ShiftN(a, n) < 0x1_0000
    ensures ShiftN(a, n) == ShiftN(b, n) ==> a == b
    decreases n
  {
    if n != 0 {
      ShiftTopBit(a); ShiftTopBit(b);
      ShiftNInjective(Shift(a), Shift(b), n - 1);
      if Shift(a) == Shift(b) {
        ShiftInjective(a, b);
      }
    }
  }

  lemma XorWord(c: nat, b: nat)
    requires c < 0x1_0000 && b < 0x1_0000
    ensures Xor(c, b) < 0x1_0000
  {
    Pow2Values();
    XorBound(c, b, 16);
  }

  lemma {:induction false} FeedBound(c: nat, data: seq<byte>)
    requires c < 0x1_0000
    ensures Feed(c, data) < 0x1_0000
  {
    hide Xor;
    if data != [] {
      var p := Feed(c, data[..|data| - 1]);
      FeedBound(c, data[..|data| - 1]);
      XorWord(p, data[|data| - 1]);
      ShiftNInjective(Xor(p, data[|data| - 1]), 0, 8);
    }
  }

  // ---------- the table-driven form ----------

  /** The inner loop of the table builder: eight bit steps from `b`. */
  method BuildEntry(b: byte) returns (crc: nat)
    ensures crc == ShiftN(b, 8)
  {
    hide Xor;
    crc := b;
    for i := 0 to 8
      invariant ShiftN(crc, 8 - i) == ShiftN(b, 8)
    {
      if crc % 2 == 1 {
        crc := Xor(crc / 2, 0xA001);
      } else {
        crc := crc / 2;
      }
    }
  }

  method BuildTable() returns (table: seq<nat>)
    ensures |table| == 256 && forall i :: 0 <= i < 256 ==> table[i] == ShiftN(i, 8)
  {
    table := [];
    for b := 0 to 256
      invariant |table| == b && forall i :: 0 <= i < b ==> table[i] == ShiftN(i, 8)
    {
      var crc := BuildEntry(b);
      table := table + [crc];
    }
  }

  /** One table lookup does the work of xoring a byte and eight bit steps. */
  lemma TableStep(crc: nat, b: byte)
    ensures Xor(crc / 256, ShiftN(Xor(crc, b) % 256, 8)) == StepByte(crc, b)
  {
    hide Xor;
    Pow2Values();
    var h, m := crc / 256, Xor(crc, b) % 256;
    XorByte(crc, b);
    ShiftNLinear(256 * h, m, 8);
    ShiftNHigh(h, 8);
  }

  /** The table-driven loop computes the bit-serial CRC of every byte string. */
  method Crc(data: seq<byte>) returns (crc: nat)
    ensures crc == CrcBitSerial(data)
  {
    var table := BuildTable();
    crc := 0xFFFF;
    for i := 0 to |data|
      invariant crc == Feed(INIT, data[..i])
    {
      TableStep(crc, data[i]);
      assert data[..i + 1][..i] == data[..i];
      crc := Xor(crc / 256, table[Xor(crc, data[i]) % 256]);
    }
    assert data[..|data|] == data;
  }

  // ---------- bit streams ----------

  /** Bit `j` of a byte string in transmission order. */
  function BitAt(s: seq<byte>, j: nat): (b: nat)
    requires j < 8 * |s|
    ensures b <= 1
  {
    Bit(s[j / 8], j % 8)
  }

  function BitsOf(s: seq<byte>): (bs: seq<nat>)
    ensures |bs| == 8 * |s|
    ensures forall j :: 0 <= j < |bs| ==> bs[j] == BitAt(s, j)
  {
    seq(8 * |s|, j requires 0 <= j < 8 * |s| => BitAt(s, j))
  }

  /** Feeding bits one at a time: each is xored into the low end, then one bit step. */
  function FeedBits(c: nat, bs: seq<nat>): nat
    decreases |bs|
  {
    if bs == [] then c else FeedBits(Shift(Xor(c, bs[0])), bs[1..])
  }

  /** The number a run of bits spells, least significant first. */
  function BitsValue(bs: seq<nat>): nat
  {
    if bs == [] then 0 else bs[0] + 2 * BitsValue(bs[1..])
  }

  predicate AreBits(bs: seq<nat>)
  {
    forall j :: 0 <= j < |bs| ==> bs[j] <= 1
  }

  lemma {:induction false} FeedBitsAppend(c: nat, a: seq<nat>, b: seq<nat>)
    ensures FeedBits(c, a + b) == FeedBits(FeedBits(c, a), b)
    decreases |a|
  {
    if a == [] {
      assert a + b == b;
    } else {
      assert (a + b)[1..] == a[1..] + b;
      FeedBitsAppend(Shift(Xor(c, a[0])), a[1..], b);
    }
  }

  /** Feeding n bits is xoring in the number they spell and taking n steps. */
  lemma {:induction false} FeedBitsValue(c: nat, bs: seq<nat>)
    requires AreBits(bs)
    ensures FeedBits(c, bs) == ShiftN(Xor(c, BitsValue(bs)), |bs|)
    decreases |bs|
  {
    hide Xor;
    if bs == [] {
      XorZero(c);
    } else {
      Pow2Values();
      var v := BitsValue(bs[1..]);
      var x := Xor(c, bs[0]);
      XorDisjoint(v, bs[0], 1); XorComm(2 * v, bs[0]);
      XorAssoc(c, bs[0], 2 * v);
      ShiftLinear(x, 2 * v);
      assert Shift(2 * v) == v;
      FeedBitsValue(Shift(x), bs[1..]);
    }
  }

  lemma {:induction false} BitsValueInjective(a: seq<nat>, b: seq<nat>)
    requires AreBits(a) && AreBits(b) && |a| == |b|
    ensures BitsValue(a) < Pow2(|a|)
    ensures BitsValue(a) == BitsValue(b) ==> a == b
  {
    if a != [] {
      BitsValueInjective(a[1..], b[1..]);
      if BitsValue(a) == BitsValue(b) {
        assert a == [a[0]] + a[1..] && b == [b[0]] + b[1..];
      }
    }
  }

  lemma ByteBits(b: byte)
    ensures BitsValue(BitsOf([b])) == b
  {
    BitsValueOfBits(b, BitsOf([b]));
    Pow2Values();
  }

  /** The bits of v spell v again. */
  lemma {:induction false} BitsValueOfBits(v: nat, bs: seq<nat>)
    requires v < Pow2(|bs|)
    requires forall j :: 0 <= j < |bs| ==> bs[j] == Bit(v, j)
    ensures BitsValue(bs) == v
    decreases |bs|
  {
    if bs != [] {
      BitStep(v, 0);
      forall j | 0 <= j < |bs[1..]|
        ensures bs[1..][j] == Bit(v / 2, j)
      {
        BitStep(v, j);
        assert bs[1..][j] == bs[j + 1];
      }
      BitsValueOfBits(v / 2, bs[1..]);
    }
  }

  /** The byte-wise and the bit-wise views of the CRC agree. */
  lemma {:induction false} FeedIsFeedBits(c: nat, data: seq<byte>)
    ensures Feed(c, data) == FeedBits(c, BitsOf(data))
  {
    if data != [] {
      var n := |data| - 1;
      var init, last := data[..n], data[n];
      assert BitsOf(data) == BitsOf(init) + BitsOf([last]) by {
        forall j | 0 <= j < 8 * |data|
          ensures BitsOf(data)[j] == (BitsOf(init) + BitsOf([last]))[j]
        {
          if j >= 8 * n {
            assert j / 8 == n && (j - 8 * n) / 8 == 0 && (j - 8 * n) % 8 == j % 8;
          }
        }
      }
      FeedIsFeedBits(c, init);
      FeedBitsAppend(c, BitsOf(init), BitsOf([last]));
      FeedBitsValue(FeedBits(c, BitsOf(init)), BitsOf([last]));
      ByteBits(last);
    }
  }

  lemma {:induction false} FeedBitsInjective(a: nat, b: nat, bs: seq<nat>)
    requires a < 0x1_0000 && b < 0x1_0000 && AreBits(bs)
    ensures FeedBits(a, bs) < 0x1_0000
    ensures FeedBits(a, bs) == FeedBits(b, bs) ==> a == b
    decreases |bs|
  {
    hide Xor;
    if bs != [] {
      var x, y := Xor(a, bs[0]), Xor(b, bs[0]);
      XorWord(a, bs[0]); XorWord(b, bs[0]);
      ShiftTopBit(x); ShiftTopBit(y);
      FeedBitsInjective(Shift(x), Shift(y), bs[1..]);
      if Shift(x) == Shift(y) {
        ShiftInjective(x, y);
        XorCancel(a, b, bs[0]);
      }
    }
  }

  /** Two different bit strings that differ only inside a window of at most 16 bits
      leave different CRC registers. */
  lemma BurstChangesRegister(c: nat, pre: seq<nat>, a: seq<nat>, b: seq<nat>, post: seq<nat>)
    requires c < 0x1_0000 && AreBits(pre) && AreBits(a) && AreBits(b) && AreBits(post)
    requires |a| == |b| <= 16 && a != b
    ensures FeedBits(c, pre + a + post) != FeedBits(c, pre + b + post)
  {
    hide Xor;
    FeedBitsAppend(c, pre + a, post); FeedBitsAppend(c, pre + b, post);
    FeedBitsAppend(c, pre, a); FeedBitsAppend(c, pre, b);
    var s := FeedBits(c, pre);
    FeedBitsInjective(c, c, pre);
    FeedBitsValue(s, a); FeedBitsValue(s, b);
    BitsValueInjective(a, b); BitsValueInjective(b, a);
    Pow2Monotone(|a|, 16); Pow2Values();
    var x, y := BitsValue(a), BitsValue(b);
    XorWord(s, x); XorWord(s, y);
    XorComm(s, x); XorComm(s, y);
    if Xor(s, x) == Xor(s, y) {
      XorCancel(x, y, s);
    }
    ShiftNInjective(Xor(s, x), Xor(s, y), |a|);
    ShiftNInjective(Xor(s, y), Xor(s, x), |a|);
    FeedBitsInjective(FeedBits(s, a), FeedBits(s, b), post);
  }

  lemma {:induction false} Pow2Monotone(m: nat, n: nat)
    requires m <= n
    ensures Pow2(m) <= Pow2(n)
    decreases n
  {
    if m < n {
      Pow2Monotone(m, n - 1);
    }
  }

  // ---------- the CRC as a polynomial remainder ----------

  /** The product of two polynomials with coefficients 0 and 1: one shifted copy of `g` per one bit
      of `q`, added without carries. */
  function CarrylessProduct(q: nat, g: nat): nat
    decreases q
  {
    if q == 0 then 0
    else Xor(if q % 2 == 1 then g else 0, 2 * CarrylessProduct(q / 2, g))
  }

  /** x^16 + x^15 + x^2 + 1, highest power in the lowest bit. */
  const GENERATOR: nat := 0x1_4003

  lemma AddTwice(h: nat)
    ensures Xor(POLY, Xor(h, POLY)) == h && Xor(Xor(POLY, h), POLY) == h
  {
    hide Xor;
    XorAssoc(h, POLY, POLY); XorSelf(POLY); XorZero(h);
    XorComm(POLY, Xor(h, POLY)); XorComm(POLY, h);
  }

  /** One bit step takes the leading coefficient away, together with a copy of the generator when
      that coefficient is one. */
  lemma StepDivides(v: nat)
    ensures v == Xor(if v % 2 == 1 then GENERATOR else 0, 2 * Shift(v))
  {
    hide Xor;
    var h := v / 2;
    if v % 2 == 1 {
      XorHalves(GENERATOR, 2 * Shift(v));
      AddTwice(h);
      SameHalves(v, Xor(GENERATOR, 2 * Shift(v)));
    } else {
      XorZero(v);
    }
  }

  /** The other way round: whatever is added to the generator, the step finds it again. */
  lemma StepRemoves(b: nat, m: nat)
    requires b <= 1
    ensures var v := Xor(if b == 1 then GENERATOR else 0, 2 * m);
            v % 2 == b && Shift(v) == m
  {
    hide Xor;
    if b == 1 {
      XorHalves(GENERATOR, 2 * m);
      AddTwice(m);
    } else {
      XorZero(2 * m);
    }
  }

  lemma XorDoubles(a: nat, b: nat)
    ensures 2 * Xor(a, b) == Xor(2 * a, 2 * b)
  {
    hide Xor;
    XorHalves(2 * a, 2 * b);
    SameHalves(2 * Xor(a, b), Xor(2 * a, 2 * b));
  }

  predicate Quotient(v: nat, n: nat, r: nat, q: nat)
  {
    q < Pow2(n) && v == Xor(CarrylessProduct(q, GENERATOR), Pow2(n) * r)
  }

  lemma DoubledQuotient(b: nat, q: nat, n: nat, r: nat)
    requires b <= 1
    ensures Xor(CarrylessProduct(2 * q + b, GENERATOR), Pow2(n + 1) * r)
            == Xor(if b == 1 then GENERATOR else 0, 2 * Xor(CarrylessProduct(q, GENERATOR), Pow2(n) * r))
  {
    hide Xor;
    var g, p, t := if b == 1 then GENERATOR else 0, CarrylessProduct(q, GENERATOR), Pow2(n) * r;
    if 2 * q + b == 0 {
      XorZero(0);
    }
    XorAssoc(g, 2 * p, 2 * t);
    XorDoubles(p, t);
    MulTwice(Pow2(n), r);
  }

  /** `n` bit steps are the division of a polynomial by the generator: what is left is the
      remainder, and it is the only one. */
  lemma {:induction false} ShiftNIsRemainder(v: nat, n: nat, r: nat)
    ensures ShiftN(v, n) == r <==> exists q: nat :: Quotient(v, n, r, q)
    decreases n
  {
    hide Xor, CarrylessProduct;
    if n == 0 {
      NoSteps(v, r);
    } else {
      ShiftNIsRemainder(Shift(v), n - 1, r);
      if ShiftN(v, n) == r {
        var q: nat :| Quotient(Shift(v), n - 1, r, q);
        StepDivides(v);
        DoubledQuotient(v % 2, q, n - 1, r);
        assert Quotient(v, n, r, 2 * q + v % 2);
      }
      if exists q: nat :: Quotient(v, n, r, q) {
        var q: nat :| Quotient(v, n, r, q);
        DoubledQuotient(q % 2, q / 2, n - 1, r);
        StepRemoves(q % 2, Xor(CarrylessProduct(q / 2, GENERATOR), Pow2(n - 1) * r));
        assert Quotient(Shift(v), n - 1, r, q / 2);
      }
    }
  }

  lemma NoSteps(v: nat, r: nat)
    ensures v == r <==> exists q: nat :: Quotient(v, 0, r, q)
  {
    assert CarrylessProduct(0, GENERATOR) == 0;
    if v == r {
      assert Quotient(v, 0, r, 0);
    }
  }

  /** The CRC is the remainder of the message, its first sixteen bits inverted, modulo the
      generator. First transmitted bit is the highest coefficient. */
  lemma CrcIsRemainder(data: seq<byte>, r: nat)
    ensures CrcBitSerial(data) == r <==> exists q: nat ::
              && q < Pow2(8 * |data|)
              && Xor(0xFFFF, BitsValue(BitsOf(data))) == Xor(CarrylessProduct(q, 0x1_4003), Pow2(8 * |data|) * r)
  {
    hide Xor, CarrylessProduct, ShiftN, BitsOf, BitsValue, FeedBits, Feed;
    var n, v := 8 * |data|, Xor(0xFFFF, BitsValue(BitsOf(data)));
    FeedIsFeedBits(INIT, data);
    FeedBitsValue(INIT, BitsOf(data));
    ShiftNIsRemainder(v, n, r);
    assert CrcBitSerial(data) == ShiftN(v, n);
    if CrcBitSerial(data) == r {
      var q: nat :| Quotient(v, n, r, q);
      assert q < Pow2(8 * |data|) && v == Xor(CarrylessProduct(q, 0x1_4003), Pow2(8 * |data|) * r);
      assert exists q: nat :: q < Pow2(8 * |data|) && v == Xor(CarrylessProduct(q, 0x1_4003), Pow2(8 * |data|) * r);
    } else {
      forall q: nat
        ensures !(q < Pow2(8 * |data|) && v == Xor(CarrylessProduct(q, 0x1_4003), Pow2(8 * |data|) * r))
      {
        assert !Quotient(v, n, r, q);
      }
      assert !exists q: nat :: q < Pow2(8 * |data|) && v == Xor(CarrylessProduct(q, 0x1_4003), Pow2(8 * |data|) * r);
    }
  }
}
