/**
  The register codec of src/pymod/codec/_common.py and src/pymod/codec/values.py. A float
  stays the 4- or 8-byte pattern that struct would turn into a number; given for an integer
  type, its 8-byte pattern is read as the IEEE 754 double that it is.
 */
module RegisterCodec {
  import opened Basics
  import opened Errors
  import opened Packing

  datatype Order = Big | Little

  datatype DType = UInt16 | Int16 | UInt32 | Int32 | UInt64 | Int64 | Float32 | Float64

  datatype Value = Num(n: int) | Pattern(raw: seq<byte>) | Truth(b: bool)

  function RegsPerItem(d: DType): (n: nat)
    ensures n == 1 || n == 2 || n == 4
  {
    match d
    case UInt16 | Int16 => 1
    case UInt32 | Int32 | Float32 => 2
    case UInt64 | Int64 | Float64 => 4
  }

  predicate IsFloat(d: DType) { d.Float32? || d.Float64? }

  predicate IsSigned(d: DType) { d.Int16? || d.Int32? || d.Int64? }

  /** Lowest and highest value of an integer type. */
  function IntRange(d: DType): (int, int)
    requires !IsFloat(d)
  {
    match d
    case UInt16 => (0, 0xFFFF)
    case Int16 => (-0x8000, 0x7FFF)
    case UInt32 => (0, 0xFFFF_FFFF)
    case Int32 => (-0x8000_0000, 0x7FFF_FFFF)
    case UInt64 => (0, 0xFFFF_FFFF_FFFF_FFFF)
    case Int64 => (-0x8000_0000_0000_0000, 0x7FFF_FFFF_FFFF_FFFF)
  }

  // ---------- registers and bytes ----------

  function Reversed<T>(s: seq<T>): (r: seq<T>)
    ensures |r| == |s|
    ensures forall i :: 0 <= i < |s| ==> r[i] == s[|s| - 1 - i]
  {
    seq(|s|, i requires 0 <= i < |s| => s[|s| - 1 - i])
  }

  function Ordered<T>(s: seq<T>, wo: Order): (r: seq<T>)
    ensures |r| == |s|
  {
    if wo.Little? then Reversed(s) else s
  }

  /** One register in two bytes: `to_bytes(2, order)`. */
  function RegisterBytes(r: word, bo: Order): (s: seq<byte>)
    ensures |s| == 2
  {
    if bo.Big? then [r / 256, r % 256] else [r % 256, r / 256]
  }

  /** Two bytes as one register: `from_bytes(s, order)`. */
  function BytesRegister(a: byte, b: byte, bo: Order): word
  {
    if bo.Big? then Word16(b, a) else Word16(a, b)
  }

  predicate AreWords(regs: seq<int>)
  {
    forall i :: 0 <= i < |regs| ==> 0 <= regs[i] <= 0xFFFF
  }

  function JoinRegisters(regs: seq<word>, bo: Order): (s: seq<byte>)
    ensures |s| == 2 * |regs|
  {
    seq(2 * |regs|, k requires 0 <= k < 2 * |regs| => RegisterBytes(regs[k / 2], bo)[k % 2])
  }

  function RegistersToBytes(regs: seq<int>, wo: Order, bo: Order): (r: Result<seq<byte>, Error>)
    ensures r.Ok? <==> AreWords(regs)
    ensures r.Ok? ==> |r.value| == 2 * |regs|
  {
    if !AreWords(regs) then Err(ValueError)
    else
      var ws: seq<word> := seq(|regs|, i requires 0 <= i < |regs| => regs[i]);
      Ok(JoinRegisters(Ordered(ws, wo), bo))
  }

  function SplitRegisters(raw: seq<byte>, bo: Order): (regs: seq<word>)
    requires |raw| % 2 == 0
    ensures |regs| == |raw| / 2
  {
    seq(|raw| / 2, k requires 0 <= k < |raw| / 2 => BytesRegister(raw[2 * k], raw[2 * k + 1], bo))
  }

  function BytesToRegisters(raw: seq<byte>, wo: Order, bo: Order): (r: Result<seq<word>, Error>)
    ensures r.Ok? <==> |raw| % 2 == 0
    ensures r.Ok? ==> |r.value| == |raw| / 2
  {
    if |raw| % 2 != 0 then Err(ValueError)
    else Ok(Ordered(SplitRegisters(raw, bo), wo))
  }

  lemma OrderedInvolution<T>(s: seq<T>, wo: Order)
    ensures Ordered(Ordered(s, wo), wo) == s
  {}

  lemma JoinAt(regs: seq<word>, bo: Order, h: nat)
    requires h < |regs|
    ensures JoinRegisters(regs, bo)[2 * h] == RegisterBytes(regs[h], bo)[0]
    ensures JoinRegisters(regs, bo)[2 * h + 1] == RegisterBytes(regs[h], bo)[1]
  {
    assert 2 * h / 2 == h && 2 * h % 2 == 0;
    assert (2 * h + 1) / 2 == h && (2 * h + 1) % 2 == 1;
  }

  lemma SplitJoin(regs: seq<word>, bo: Order)
    ensures SplitRegisters(JoinRegisters(regs, bo), bo) == regs
  {
    hide JoinRegisters;
    var s := JoinRegisters(regs, bo);
    forall k | 0 <= k < |regs|
      ensures SplitRegisters(s, bo)[k] == regs[k]
    {
      JoinAt(regs, bo, k);
    }
  }

  lemma RegisterOfBytes(a: byte, b: byte, bo: Order)
    ensures RegisterBytes(BytesRegister(a, b, bo), bo) == [a, b]
  {}

  lemma JoinSplit(raw: seq<byte>, bo: Order)
    requires |raw| % 2 == 0
    ensures JoinRegisters(SplitRegisters(raw, bo), bo) == raw
  {
    hide JoinRegisters, BytesRegister, RegisterBytes;
    var regs := SplitRegisters(raw, bo);
    forall k | 0 <= k < |raw|
      ensures JoinRegisters(regs, bo)[k] == raw[k]
    {
      var h := k / 2;
      JoinAt(regs, bo, h);
      RegisterOfBytes(raw[2 * h], raw[2 * h + 1], bo);
      assert k == 2 * h || k == 2 * h + 1;
    }
  }

  /** `bytes_to_registers` and `registers_to_bytes` undo each other, both ways round. */
  lemma BytesRegistersInverse(regs: seq<int>, raw: seq<byte>, wo: Order, bo: Order)
    ensures RegistersToBytes(regs, wo, bo) == Ok(raw) <==> BytesToRegisters(raw, wo, bo) == Ok(regs)
  {
    if RegistersToBytes(regs, wo, bo) == Ok(raw) {
      var ws: seq<word> := seq(|regs|, i requires 0 <= i < |regs| => regs[i]);
      assert ws == regs;
      SplitJoin(Ordered(ws, wo), bo); OrderedInvolution(ws, wo);
    }
    if BytesToRegisters(raw, wo, bo) == Ok(regs) {
      var ws := BytesToRegisters(raw, wo, bo).value;
      assert seq(|regs|, i requires 0 <= i < |regs| => regs[i]) == ws;
      OrderedInvolution(SplitRegisters(raw, bo), wo); JoinSplit(raw, bo);
    }
  }

  /** The range-checking loop in front of the flattening. */
  method RegistersToBytesLoop(regs: seq<int>, wo: Order, bo: Order) returns (r: Result<seq<byte>, Error>)
    ensures r == RegistersToBytes(regs, wo, bo)
  {
    var ws: seq<word> := [];
    for i := 0 to |regs|
      invariant ws == regs[..i]
      invariant AreWords(regs[..i])
    {
      if !(0 <= regs[i] <= 0xFFFF) {
        return Err(ValueError);
      }
      ws := ws + [regs[i]];
    }
    assert regs[..|regs|] == regs;
    assert ws == seq(|regs|, i requires 0 <= i < |regs| => regs[i]);
    r := Ok(JoinRegisters(if wo.Little? then Reversed(ws) else ws, bo));
  }

  method ReverseInPlace(regs: array<word>)
    modifies regs
    ensures regs[..] == Reversed(old(regs[..]))
  {
    var n := regs.Length;
    for i := 0 to n / 2
      invariant forall k :: 0 <= k < i || n - i <= k < n ==> regs[k] == old(regs[n - 1 - k])
      invariant forall k :: i <= k < n - i ==> regs[k] == old(regs[k])
    {
      var j := n - 1 - i;
      assert i < j;
      regs[i], regs[j] := regs[j], regs[i];
    }
  }

  /** Collecting the registers and then, for little word order, reversing the list in place. */
  method BytesToRegistersLoop(raw: seq<byte>, wo: Order, bo: Order) returns (r: Result<seq<word>, Error>)
    ensures r == BytesToRegisters(raw, wo, bo)
  {
    if |raw| % 2 != 0 {
      return Err(ValueError);
    }
    var n := |raw| / 2;
    var regs := new word[n](k requires 0 <= k < n => BytesRegister(raw[2 * k], raw[2 * k + 1], bo));
    assert regs[..] == SplitRegisters(raw, bo);
    if wo.Little? {
      ReverseInPlace(regs);
    }
    r := Ok(regs[..]);
  }

  // ---------- integers and bytes ----------

  function FromBE(s: seq<byte>): nat
  {
    if s == [] then 0 else 256 * FromBE(s[..|s| - 1]) + s[|s| - 1]
  }

  function FromLE(s: seq<byte>): nat
  {
    if s == [] then 0 else s[0] + 256 * FromLE(s[1..])
  }

  function ToBE(n: nat, len: nat): (s: seq<byte>)
    ensures |s| == len
    decreases len
  {
    if len == 0 then [] else ToBE(n / 256, len - 1) + [n % 256]
  }

  lemma {:induction false} FromToBE(n: nat, len: nat)
    requires n < Pow256(len)
    ensures FromBE(ToBE(n, len)) == n
    decreases len
  {
    if len != 0 {
      FromToBE(n / 256, len - 1);
      var s := ToBE(n, len);
      assert s[..len - 1] == ToBE(n / 256, len - 1);
    }
  }

  lemma {:induction false} ToFromBE(s: seq<byte>)
    ensures FromBE(s) < Pow256(|s|)
    ensures ToBE(FromBE(s), |s|) == s
  {
    if s != [] {
      var init, last := s[..|s| - 1], s[|s| - 1];
      ToFromBE(init);
      assert FromBE(s) / 256 == FromBE(init) && FromBE(s) % 256 == last;
      assert s == init + [last];
    }
  }

  lemma {:induction false} FromBEReversed(s: seq<byte>)
    ensures FromBE(Reversed(s)) == FromLE(s)
  {
    if s != [] {
      var r := Reversed(s);
      assert r[..|s| - 1] == Reversed(s[1..]);
      FromBEReversed(s[1..]);
    }
  }

  // ---------- one item ----------

  function DecodeOne(raw: seq<byte>, d: DType): Value
  {
    var u := FromBE(raw);
    if IsFloat(d) then Pattern(raw)
    else if IsSigned(d) && 2 * u >= Pow256(|raw|) then Num(u - Pow256(|raw|))
    else Num(u)
  }

  // A double as sign, mantissa and exponent: sign * mantissa * 2^exponent.

  datatype Double = NotFinite | Finite(negative: bool, mantissa: nat, exponent: int)

  function DoubleOf(raw: seq<byte>): Double
    requires |raw| == 8
  {
    var u := FromBE(raw);
    var e, m := u / 0x10_0000_0000_0000 % 0x800, u % 0x10_0000_0000_0000;
    if e == 0x7FF then NotFinite
    else if e == 0 then Finite(u >= 0x8000_0000_0000_0000, m, -1074)
    else Finite(u >= 0x8000_0000_0000_0000, m + 0x10_0000_0000_0000, e - 1075)
  }

  /** `int(value)` where `value.is_integer()`. */
  function WholeOf(x: Double): Option<int>
  {
    match x
    case NotFinite => None
    case Finite(negative, m, e) =>
      if e >= 0 then Some(Signed(negative, m * Pow2(e)))
      else if m % Pow2(-e) == 0 then Some(Signed(negative, m / Pow2(-e)))
      else None
  }

  function Signed(negative: bool, n: int): int { if negative then -n else n }

  /** The number itself. */
  function RealOf(x: Double): real
    requires x.Finite?
  {
    var m := Signed(x.negative, x.mantissa) as real;
    if x.exponent >= 0 then m * Pow2(x.exponent) as real else m / Pow2(-x.exponent) as real
  }

  /** A double counts as the integer `n` exactly when it is finite and equal to `n`. */
  lemma WholeIffInteger(x: Double, n: int)
    ensures WholeOf(x) == Some(n) <==> x.Finite? && RealOf(x) == n as real
  {
    if x.Finite? {
      hide Pow2;
      var m := Signed(x.negative, x.mantissa);
      if x.exponent >= 0 {
        SignedTimes(x.negative, x.mantissa, Pow2(x.exponent));
        assert RealOf(x) == (m * Pow2(x.exponent)) as real;
      } else {
        WholeQuotient(x.negative, x.mantissa, Pow2(-x.exponent), n);
      }
    }
  }

  /** Two to any power. */
  function TwoTo(k: int): real
  {
    if k >= 0 then Pow2(k) as real else 1.0 / Pow2(-k) as real
  }

  lemma TwoToNext(k: int)
    ensures TwoTo(k + 1) == 2.0 * TwoTo(k)
  {
    if k < 0 {
      var p := Pow2(-k - 1) as real;
      assert Pow2(-k) as real == 2.0 * p;
      assert 2.0 * (1.0 / (2.0 * p)) == 1.0 / p;
    }
  }

  lemma {:induction false} TwoToSum(k: int, n: nat)
    ensures TwoTo(k + n) == Pow2(n) as real * TwoTo(k)
    decreases n
  {
    hide TwoTo;
    if n != 0 {
      TwoToSum(k, n - 1);
      TwoToNext(k + n - 1);
      assert Pow2(n) as real == 2.0 * Pow2(n - 1) as real;
      Regroup(Pow2(n - 1) as real, TwoTo(k));
    }
  }

  lemma Regroup(x: real, y: real)
    ensures 2.0 * (x * y) == (2.0 * x) * y
  {}

  /** Which number eight bytes denote, by the fields of an IEEE 754 double: sign s, biased exponent
      e, fraction f. All ones in the exponent is no number. */
  lemma DoubleDenotes(raw: seq<byte>, s: nat, e: nat, f: nat)
    requires |raw| == 8 && s <= 1 && e < 2048 && f < 4503599627370496
    requires FromBE(raw) == s * 9223372036854775808 + e * 4503599627370496 + f
    ensures e == 2047 <==> DoubleOf(raw).NotFinite?
    ensures e != 2047 ==>
              RealOf(DoubleOf(raw))
              == (if s == 1 then -1.0 else 1.0)
                 * ((if e == 0 then 0.0 else 1.0) + f as real / 4503599627370496.0) * TwoTo(if e == 0 then -1022 else e - 1023)
  {
    hide FromBE, Pow2, TwoTo;
    Fields(FromBE(raw), s, e, f);
    if e != 2047 {
      var x := DoubleOf(raw);
      var m := f + if e == 0 then 0 else 4503599627370496;
      assert x == Finite(s == 1, m, if e == 0 then -1074 else e - 1075);
      RealIsScaled(x);
      TwoToSum(x.exponent, 52);
      Pow2Of52();
      Rescale(if s == 1 then -1.0 else 1.0, m as real, 4503599627370496.0, TwoTo(x.exponent));
      assert m as real / 4503599627370496.0 == (if e == 0 then 0.0 else 1.0) + f as real / 4503599627370496.0;
    }
  }

  lemma Fields(u: nat, s: nat, e: nat, f: nat)
    requires s <= 1 && e < 2048 && f < 4503599627370496 && u == s * 9223372036854775808 + e * 4503599627370496 + f
    ensures u / 0x10_0000_0000_0000 % 0x800 == e && u % 0x10_0000_0000_0000 == f && (u >= 0x8000_0000_0000_0000 <==> s == 1)
  {}

  lemma Pow2Of52()
    ensures Pow2(52) == 4503599627370496
  {
    assert Pow2(10) == 1024;
    assert Pow2(20) == 1048576;
    assert Pow2(30) == 1073741824;
    assert Pow2(40) == 1099511627776;
  }

  lemma RealIsScaled(x: Double)
    requires x.Finite?
    ensures RealOf(x) == (if x.negative then -1.0 else 1.0) * x.mantissa as real * TwoTo(x.exponent)
  {
    if x.exponent < 0 {
      var m, p := Signed(x.negative, x.mantissa) as real, Pow2(-x.exponent) as real;
      assert m / p == m * (1.0 / p);
    }
  }

  lemma Rescale(s: real, m: real, d: real, t: real)
    requires d != 0.0
    ensures s * m * t == s * (m / d) * (d * t)
  {
    assert m / d * d == m;
  }

  lemma SignedTimes(negative: bool, m: nat, p: nat)
    ensures Signed(negative, m * p) == Signed(negative, m) * p
  {}

  lemma WholeQuotient(negative: bool, m: nat, p: nat, n: int)
    requires p > 0
    ensures (m % p == 0 && Signed(negative, m / p) == n) <==> Signed(negative, m) as real / p as real == n as real
  {
    RealQuotient(Signed(negative, m), p, n);
    IntQuotient(negative, m, p, n);
  }

  lemma RealQuotient(k: int, p: nat, n: int)
    requires p > 0
    ensures k as real / p as real == n as real <==> k == n * p
  {
    var x, y, z := k as real, p as real, n as real;
    assert z * y == (n * p) as real;
    assert x / y * y == x;
    if x == z * y {
      assert (x / y - z) * y == 0.0;
    }
  }

  lemma IntQuotient(negative: bool, m: nat, p: nat, n: int)
    requires p > 0
    ensures m % p == 0 && Signed(negative, m / p) == n <==> Signed(negative, m) == n * p
  {
    if Signed(negative, m) == n * p {
      var q := Signed(negative, n);
      assert m == p * q by { SignedProduct(negative, n, p); }
      if q < 0 {
        MulAtLeast(p, -q);
      }
      DivUnique(m, p, q, 0);
    }
    if m % p == 0 && Signed(negative, m / p) == n {
      assert m == p * (m / p);
      SignedTimes(negative, m / p, p);
    }
  }

  lemma SignedProduct(negative: bool, n: int, p: nat)
    ensures Signed(negative, n * p) == p * Signed(negative, n)
  {}

  /** What the integer branches make of their argument: a bool is an int, and a float must be
      integer-valued. Anything else is left to the range test to refuse. */
  function Coerce(v: Value, d: DType): Value
  {
    if IsFloat(d) then v
    else match v
      case Num(_) => v
      case Truth(b) => Num(if b then 1 else 0)
      case Pattern(raw) =>
        if |raw| == 8 && WholeOf(DoubleOf(raw)).Some? then Num(WholeOf(DoubleOf(raw)).value) else v
  }

  /** The integer that a value stands for in an integer type: itself, 1 and 0 for True and False,
      and for a double the number it denotes if that is an integer. */
  lemma CoerceMeaning(v: Value, d: DType, n: int)
    requires !IsFloat(d)
    ensures Coerce(v, d) == Num(n) <==>
              || v == Num(n)
              || (v == Truth(true) && n == 1) || (v == Truth(false) && n == 0)
              || (v.Pattern? && |v.raw| == 8 && DoubleOf(v.raw).Finite? && RealOf(DoubleOf(v.raw)) == n as real)
  {
    hide DoubleOf, WholeOf, RealOf;
    if v.Pattern? && |v.raw| == 8 {
      WholeIffInteger(DoubleOf(v.raw), n);
    }
  }

  function CoerceAll(values: seq<Value>, d: DType): (r: seq<Value>)
    ensures |r| == |values|
  {
    seq(|values|, i requires 0 <= i < |values| => Coerce(values[i], d))
  }

  /** Values that are already of their type stay as they are. */
  lemma InRangeUnchanged(values: seq<Value>, d: DType)
    requires forall i :: 0 <= i < |values| ==> InRange(values[i], d)
    ensures CoerceAll(values, d) == values
  {
    assert forall i :: 0 <= i < |values| ==> InRange(values[i], d) && Coerce(values[i], d) == values[i];
  }

  predicate InRange(v: Value, d: DType)
  {
    if IsFloat(d) then v.Pattern? && |v.raw| == 2 * RegsPerItem(d)
    else v.Num? && IntRange(d).0 <= v.n <= IntRange(d).1
  }

  predicate Encodable(v: Value, d: DType) { InRange(Coerce(v, d), d) }

  function EncodeOne(v: Value, d: DType): (r: Result<seq<byte>, Error>)
    ensures r.Ok? <==> Encodable(v, d)
    ensures r.Ok? ==> |r.value| == 2 * RegsPerItem(d)
  {
    var w := Coerce(v, d);
    if !InRange(w, d) then Err(ValueError)
    else if IsFloat(d) then Ok(w.raw)
    else
      var n := 2 * RegsPerItem(d);
      PowerOfWidth(d);
      Ok(ToBE(if w.n < 0 then w.n + Pow256(n) else w.n, n))
  }

  /** The source's literal ranges are exactly the two's complement ranges of their width. */
  lemma PowerOfWidth(d: DType)
    requires !IsFloat(d)
    ensures var p := Pow256(2 * RegsPerItem(d));
            IntRange(d) == if IsSigned(d) then (-(p / 2), p / 2 - 1) else (0, p - 1)
    ensures Pow256(2 * RegsPerItem(d)) % 2 == 0
  {
    assert Pow256(2) == 0x1_0000;
    assert Pow256(4) == 0x1_0000_0000;
    assert Pow256(6) == 0x1_0000_0000_0000;
    assert Pow256(8) == 0x1_0000_0000_0000_0000;
  }

  lemma OneItemInverse(v: Value, raw: seq<byte>, d: DType)
    ensures EncodeOne(v, d) == Ok(raw) <==> |raw| == 2 * RegsPerItem(d) && DecodeOne(raw, d) == Coerce(v, d)
  {
    hide FromBE, ToBE, Pow256, IntRange, RegsPerItem, DoubleOf, WholeOf;
    if !IsFloat(d) {
      PowerOfWidth(d);
      var n, w := 2 * RegsPerItem(d), Coerce(v, d);
      if EncodeOne(v, d) == Ok(raw) {
        FromToBE(if w.n < 0 then w.n + Pow256(n) else w.n, n);
      }
      if |raw| == n && DecodeOne(raw, d) == w {
        ToFromBE(raw);
      }
    }
  }

  /** One item, all the way between a value and its registers. */
  function EncodeItem(v: Value, d: DType, wo: Order, bo: Order): (r: Result<seq<word>, Error>)
    ensures r.Ok? <==> Encodable(v, d)
    ensures r.Ok? ==> |r.value| == RegsPerItem(d)
  {
    var raw :- EncodeOne(v, d);
    BytesToRegisters(raw, wo, bo)
  }

  function DecodeItem(window: seq<int>, d: DType, wo: Order, bo: Order): (r: Result<Value, Error>)
    ensures r.Ok? <==> AreWords(window)
  {
    var raw :- RegistersToBytes(window, wo, bo);
    Ok(DecodeOne(raw, d))
  }

  lemma ItemInverse(v: Value, window: seq<int>, d: DType, wo: Order, bo: Order)
    requires |window| == RegsPerItem(d)
    ensures EncodeItem(v, d, wo, bo) == Ok(window) <==> DecodeItem(window, d, wo, bo) == Ok(Coerce(v, d))
  {
    hide EncodeOne, DecodeOne, BytesToRegisters, RegistersToBytes, Coerce;
    if EncodeItem(v, d, wo, bo) == Ok(window) {
      var raw := EncodeOne(v, d).value;
      BytesRegistersInverse(window, raw, wo, bo);
      OneItemInverse(v, raw, d);
    }
    if DecodeItem(window, d, wo, bo) == Ok(Coerce(v, d)) {
      var raw := RegistersToBytes(window, wo, bo).value;
      BytesRegistersInverse(window, raw, wo, bo);
      OneItemInverse(v, raw, d);
    }
  }

  // ---------- lists of items ----------

  function DecodeRegisters(regs: seq<int>, d: DType, wo: Order, bo: Order): Result<seq<Value>, Error>
  {
    if |regs| % RegsPerItem(d) != 0 then Err(ValueError)
    else DecodeWindows(regs, d, wo, bo)
  }

  function DecodeWindows(regs: seq<int>, d: DType, wo: Order, bo: Order): Result<seq<Value>, Error>
    requires |regs| % RegsPerItem(d) == 0
    decreases |regs|
  {
    var rpi := RegsPerItem(d);
    if regs == [] then Ok([])
    else
      WholeItems(|regs| - rpi, rpi);
      var v :- DecodeItem(regs[..rpi], d, wo, bo);
      var rest :- DecodeWindows(regs[rpi..], d, wo, bo);
      Ok([v] + rest)
  }

  function EncodeRegisters(values: seq<Value>, d: DType, wo: Order, bo: Order): (r: Result<seq<word>, Error>)
    ensures r.Ok? ==> |r.value| == |values| * RegsPerItem(d)
  {
    if values == [] then Ok([])
    else
      var regs :- EncodeItem(values[0], d, wo, bo);
      var rest :- EncodeRegisters(values[1..], d, wo, bo);
      Ok(regs + rest)
  }

  /** Encoding and decoding undo each other: a value list encodes to a register block exactly
      when the block decodes to the list, with whole-valued floats and bools for integer types
      turned into their integers. On values already of their type this is the identity. */
  lemma {:induction false} CodecBijection(values: seq<Value>, regs: seq<int>, d: DType, wo: Order, bo: Order)
    ensures EncodeRegisters(values, d, wo, bo) == Ok(regs) <==> DecodeRegisters(regs, d, wo, bo) == Ok(CoerceAll(values, d))
    ensures (forall i :: 0 <= i < |values| ==> InRange(values[i], d)) ==> CoerceAll(values, d) == values
  {
    if forall i :: 0 <= i < |values| ==> InRange(values[i], d) {
      InRangeUnchanged(values, d);
    }
    if EncodeRegisters(values, d, wo, bo) == Ok(regs) {
      DecodeAfterEncode(values, d, wo, bo);
    }
    if DecodeRegisters(regs, d, wo, bo) == Ok(CoerceAll(values, d)) {
      EncodeAfterDecode(regs, d, wo, bo);
      CoercedEncodesAlike(values, d, wo, bo);
    }
  }

  lemma CoerceCons(values: seq<Value>, d: DType)
    requires values != []
    ensures CoerceAll(values, d) == [Coerce(values[0], d)] + CoerceAll(values[1..], d)
  {
    hide Coerce;
  }

  lemma CoerceTwice(v: Value, d: DType)
    ensures Coerce(Coerce(v, d), d) == Coerce(v, d)
  {}

  lemma SameEncoding(v: Value, d: DType, wo: Order, bo: Order)
    ensures EncodeItem(Coerce(v, d), d, wo, bo) == EncodeItem(v, d, wo, bo)
  {
    CoerceTwice(v, d);
    hide Coerce, ToBE, BytesToRegisters;
  }

  lemma {:induction false} CoercedEncodesAlike(values: seq<Value>, d: DType, wo: Order, bo: Order)
    ensures EncodeRegisters(CoerceAll(values, d), d, wo, bo) == EncodeRegisters(values, d, wo, bo)
  {
    hide EncodeItem, Coerce;
    if values != [] {
      SameEncoding(values[0], d, wo, bo);
      CoercedEncodesAlike(values[1..], d, wo, bo);
      CoerceCons(values, d);
    }
  }

  lemma {:induction false} DecodeAfterEncode(values: seq<Value>, d: DType, wo: Order, bo: Order)
    requires EncodeRegisters(values, d, wo, bo).Ok?
    ensures DecodeRegisters(EncodeRegisters(values, d, wo, bo).value, d, wo, bo) == Ok(CoerceAll(values, d))
  {
    hide EncodeItem, DecodeItem, RegsPerItem, CoerceAll, Coerce;
    if values != [] {
      var rpi, regs := RegsPerItem(d), EncodeRegisters(values, d, wo, bo).value;
      var head := EncodeItem(values[0], d, wo, bo).value;
      var tail := EncodeRegisters(values[1..], d, wo, bo).value;
      DecodeAfterEncode(values[1..], d, wo, bo);
      WholeItems(|tail|, rpi);
      assert regs[..rpi] == head && regs[rpi..] == tail;
      ItemInverse(values[0], head, d, wo, bo);
      CoerceCons(values, d);
    }
  }

  lemma WholeItems(n: int, rpi: nat)
    requires rpi == 1 || rpi == 2 || rpi == 4
    ensures n % rpi == 0 <==> (n + rpi) % rpi == 0
    ensures n + rpi > 0 && (n + rpi) % rpi == 0 ==> n >= 0
  {
    if rpi == 1 {
      assert n % 1 == 0 && (n + 1) % 1 == 0;
    } else if rpi == 2 {
      assert (n + 2) % 2 == n % 2;
    } else {
      assert (n + 4) % 4 == n % 4;
    }
  }

  lemma {:induction false} EncodeAfterDecode(regs: seq<int>, d: DType, wo: Order, bo: Order)
    requires DecodeRegisters(regs, d, wo, bo).Ok?
    ensures EncodeRegisters(DecodeRegisters(regs, d, wo, bo).value, d, wo, bo) == Ok(regs)
    decreases |regs|
  {
    hide EncodeItem, DecodeItem, RegsPerItem, Coerce;
    if regs != [] {
      var rpi, values := RegsPerItem(d), DecodeRegisters(regs, d, wo, bo).value;
      WholeItems(|regs| - rpi, rpi);
      var v := DecodeItem(regs[..rpi], d, wo, bo).value;
      assert values[1..] == DecodeWindows(regs[rpi..], d, wo, bo).value;
      EncodeAfterDecode(regs[rpi..], d, wo, bo);
      DecodedAsIs(regs[..rpi], d, wo, bo);
      ItemInverse(v, regs[..rpi], d, wo, bo);
      assert regs == regs[..rpi] + regs[rpi..];
    }
  }

  lemma DecodedAsIs(window: seq<int>, d: DType, wo: Order, bo: Order)
    requires DecodeItem(window, d, wo, bo).Ok?
    ensures var v := DecodeItem(window, d, wo, bo).value; Coerce(v, d) == v
  {}

  /** Encoding succeeds exactly when every value is a number in range of its type. */
  lemma {:induction false} EncodeSucceeds(values: seq<Value>, d: DType, wo: Order, bo: Order)
    ensures EncodeRegisters(values, d, wo, bo).Ok? <==> forall i :: 0 <= i < |values| ==> Encodable(values[i], d)
  {
    hide EncodeItem, Encodable, RegsPerItem;
    if values != [] {
      EncodeSucceeds(values[1..], d, wo, bo);
      assert forall i :: 0 < i < |values| ==> values[i] == values[1..][i - 1];
    }
  }

  /** Decoding succeeds exactly on a whole number of items made of 16-bit registers. */
  lemma {:induction false} DecodeSucceeds(regs: seq<int>, d: DType, wo: Order, bo: Order)
    ensures DecodeRegisters(regs, d, wo, bo).Ok? <==> |regs| % RegsPerItem(d) == 0 && AreWords(regs)
    decreases |regs|
  {
    hide DecodeItem, RegsPerItem;
    if |regs| % RegsPerItem(d) == 0 && regs != [] {
      WholeItems(|regs| - RegsPerItem(d), RegsPerItem(d));
      var head, tail := regs[..RegsPerItem(d)], regs[RegsPerItem(d)..];
      DecodeSucceeds(tail, d, wo, bo);
      WordsSplit(head, tail);
      assert regs == head + tail;
    }
  }

  lemma WordsSplit(a: seq<int>, b: seq<int>)
    ensures AreWords(a + b) <==> AreWords(a) && AreWords(b)
  {
    if AreWords(a + b) {
      assert forall i :: 0 <= i < |a| ==> a[i] == (a + b)[i];
      assert forall i :: 0 <= i < |b| ==> b[i] == (a + b)[|a| + i];
    }
  }

  /** With both orders little, an item is the little-endian reading of its wire bytes. */
  lemma LittleLittleIsWireLE(window: seq<word>)
    ensures RegistersToBytes(window, Little, Little) == Ok(Reversed(PackWords(window)))
    ensures FromBE(RegistersToBytes(window, Little, Little).value) == FromLE(PackWords(window))
  {
    assert seq(|window|, i requires 0 <= i < |window| => window[i]) == window;
    JoinLittleReversed(window);
    FromBEReversed(PackWords(window));
  }

  lemma JoinLittleReversed(window: seq<word>)
    ensures JoinRegisters(Reversed(window), Little) == Reversed(PackWords(window))
  {
    hide JoinRegisters, PackWords;
    var n := |window|;
    forall k | 0 <= k < 2 * n
      ensures JoinRegisters(Reversed(window), Little)[k] == Reversed(PackWords(window))[k]
    {
      var h := k / 2;
      JoinAt(Reversed(window), Little, h);
      PackAt(window, n - 1 - h);
      assert k == 2 * h || k == 2 * h + 1;
    }
  }

  // ---------- the loops ----------

  /** What is collected so far, in front of what is still to come. */
  function Prepend<T>(xs: seq<T>, r: Result<seq<T>, Error>): Result<seq<T>, Error>
  {
    if r.Ok? then Ok(xs + r.value) else r
  }

  lemma PrependLaws<T>(a: seq<T>, b: seq<T>, r: Result<seq<T>, Error>)
    ensures Prepend([], r) == r
    ensures Prepend(a, Prepend(b, r)) == Prepend(a + b, r)
    ensures Prepend(a, Ok([])) == Ok(a)
  {
    if r.Ok? {
      assert [] + r.value == r.value;
      assert a + (b + r.value) == (a + b) + r.value;
    }
    assert a + [] == a;
  }

  method DecodeRegistersLoop(regs: seq<int>, d: DType, wo: Order, bo: Order) returns (r: Result<seq<Value>, Error>)
    ensures r == DecodeRegisters(regs, d, wo, bo)
  {
    hide DecodeWindows, DecodeOne, RegistersToBytes, RegsPerItem, AreWords;
    var rpi := RegsPerItem(d);
    if |regs| % rpi != 0 {
      return Err(ValueError);
    }
    var values: seq<Value> := [];
    var i := 0;
    assert regs[0..] == regs;
    PrependLaws(values, [], DecodeWindows(regs, d, wo, bo));
    while i < |regs|
      invariant 0 <= i <= |regs| && (|regs| - i) % rpi == 0
      invariant DecodeWindows(regs, d, wo, bo) == Prepend(values, DecodeWindows(regs[i..], d, wo, bo))
    {
      WholeItems(|regs| - i - rpi, rpi);
      DecodeWindowsStep(regs, i, rpi, d, wo, bo);
      var raw := RegistersToBytesLoop(regs[i..i + rpi], wo, bo);
      if raw.Err? {
        return Err(raw.error);
      }
      var v := DecodeOne(raw.value, d);
      PrependLaws(values, [v], DecodeWindows(regs[i + rpi..], d, wo, bo));
      values := values + [v];
      i := i + rpi;
    }
    DecodeNothing(d, wo, bo);
    PrependLaws(values, [], Ok([]));
    r := Ok(values);
  }

  lemma DecodeNothing(d: DType, wo: Order, bo: Order)
    ensures DecodeWindows([], d, wo, bo) == Ok([])
  {}

  lemma DecodeWindowsStep(regs: seq<int>, i: nat, rpi: nat, d: DType, wo: Order, bo: Order)
    requires rpi == RegsPerItem(d) && i + rpi <= |regs|
    requires |regs[i..]| % rpi == 0 && |regs[i + rpi..]| % rpi == 0
    ensures DecodeWindows(regs[i..], d, wo, bo)
            == match DecodeItem(regs[i..i + rpi], d, wo, bo)
               case Ok(v) => Prepend([v], DecodeWindows(regs[i + rpi..], d, wo, bo))
               case Err(e) => Err(e)
  {
    hide DecodeItem, RegsPerItem;
    assert regs[i..][..rpi] == regs[i..i + rpi] && regs[i..][rpi..] == regs[i + rpi..];
  }

  method EncodeRegistersLoop(values: seq<Value>, d: DType, wo: Order, bo: Order) returns (r: Result<seq<word>, Error>)
    ensures r == EncodeRegisters(values, d, wo, bo)
  {
    hide EncodeOne, BytesToRegisters, RegsPerItem;
    var regs: seq<word> := [];
    assert values[0..] == values;
    PrependLaws(regs, [], EncodeRegisters(values, d, wo, bo));
    for i := 0 to |values|
      invariant EncodeRegisters(values, d, wo, bo) == Prepend(regs, EncodeRegisters(values[i..], d, wo, bo))
    {
      assert values[i..][0] == values[i] && values[i..][1..] == values[i + 1..];
      var raw := EncodeOne(values[i], d);
      if raw.Err? {
        return Err(raw.error);
      }
      var ws := BytesToRegistersLoop(raw.value, wo, bo);
      PrependLaws(regs, ws.value, EncodeRegisters(values[i + 1..], d, wo, bo));
      regs := regs + ws.value;
    }
    PrependLaws(regs, [], Ok([]));
    r := Ok(regs);
  }
}
