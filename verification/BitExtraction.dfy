/** Bit extraction from a register block of any length: src/pymod/codec/bits.py. */
module BitExtraction {
  import opened Basics
  import opened Errors
  import opened Packing
  import opened RegisterCodec

  datatype Numbering = LsbFirst | MsbFirst

  function ResolvePos(index: int, totalBits: nat, numbering: Numbering): Result<nat, Error>
  {
    if !(0 <= index < totalBits) then Err(ValueError)
    else if numbering.LsbFirst? then Ok(index)
    else Ok(totalBits - 1 - index)
  }

  function RegistersToInt(regs: seq<int>, wo: Order, bo: Order): Result<nat, Error>
  {
    var raw :- RegistersToBytes(regs, wo, bo);
    Ok(FromBE(raw))
  }

  function ExtractBit(regs: seq<int>, index: int, wo: Order, bo: Order, numbering: Numbering): Result<bool, Error>
  {
    if |regs| == 0 then Err(ValueError)
    else
      var pos :- ResolvePos(index, 16 * |regs|, numbering);
      var value :- RegistersToInt(regs, wo, bo);
      Ok(Bit(value, pos) == 1)
  }

  function ExtractBits(regs: seq<int>, indices: seq<int>, wo: Order, bo: Order, numbering: Numbering): Result<seq<bool>, Error>
  {
    if |regs| == 0 then Err(ValueError)
    else
      var value :- RegistersToInt(regs, wo, bo);
      PickBits(value, indices, 16 * |regs|, numbering)
  }

  function PickBits(value: nat, indices: seq<int>, totalBits: nat, numbering: Numbering): Result<seq<bool>, Error>
  {
    if indices == [] then Ok([])
    else
      var pos :- ResolvePos(indices[0], totalBits, numbering);
      var rest :- PickBits(value, indices[1..], totalBits, numbering);
      Ok([Bit(value, pos) == 1] + rest)
  }

  // ---------- the closed form ----------

  function SwapBytes(r: word): word
  {
    Word16(r / 256, r % 256)
  }

  /** The block as big-endian words, most significant first, whatever its layout was. */
  function NormalWords(regs: seq<word>, wo: Order, bo: Order): (ws: seq<word>)
    ensures |ws| == |regs|
  {
    seq(|regs|, i requires 0 <= i < |regs| =>
      var r := Ordered(regs, wo)[i]; if bo.Big? then r else SwapBytes(r))
  }

  function WordsValue(ws: seq<word>): nat
  {
    if ws == [] then 0 else 0x1_0000 * WordsValue(ws[..|ws| - 1]) + ws[|ws| - 1]
  }

  lemma BytesOfNormalWords(regs: seq<word>, wo: Order, bo: Order)
    ensures RegistersToBytes(regs, wo, bo) == Ok(PackWords(NormalWords(regs, wo, bo)))
  {
    assert seq(|regs|, i requires 0 <= i < |regs| => regs[i]) == regs;
    var raw := JoinRegisters(Ordered(regs, wo), bo);
    var ws := NormalWords(regs, wo, bo);
    forall k | 0 <= k < |raw|
      ensures raw[k] == PackWords(ws)[k]
    {
      assert ws[k / 2] == if bo.Big? then Ordered(regs, wo)[k / 2] else SwapBytes(Ordered(regs, wo)[k / 2]);
    }
    assert raw == PackWords(ws);
  }

  lemma {:induction false} FromBEPackWords(ws: seq<word>)
    ensures FromBE(PackWords(ws)) == WordsValue(ws)
  {
    if ws != [] {
      var n := |ws| - 1;
      var s := PackWords(ws);
      var a, b := s[..2 * n + 1], s[..2 * n];
      assert a[..2 * n] == b == PackWords(ws[..n]);
      assert s[2 * n + 1] == ws[n] % 256 && a[2 * n] == ws[n] / 256;
      assert FromBE(s) == 256 * FromBE(a) + s[2 * n + 1];
      assert FromBE(a) == 256 * FromBE(b) + a[2 * n];
      FromBEPackWords(ws[..n]);
    }
  }

  /** Bits of a number built from a high part and `k` low bits. */
  lemma {:induction false} BitConcat(a: nat, b: nat, k: nat, i: nat)
    requires b < Pow2(k)
    ensures Bit(Pow2(k) * a + b, i) == if i < k then Bit(b, i) else Bit(a, i - k)
    decreases k
  {
    if k != 0 {
      var v := Pow2(k) * a + b;
      var h := Pow2(k - 1) * a + b / 2;
      HalfConcat(a, b, Pow2(k - 1), v);
      if i == 0 {
        BitStep(v, 0); BitStep(b, 0);
      } else {
        BitStep(v, i - 1); BitStep(b, i - 1);
        BitConcat(a, b / 2, k - 1, i - 1);
      }
    }
  }

  lemma HalfConcat(a: nat, b: nat, p: nat, v: nat)
    requires v == (2 * p) * a + b
    ensures v / 2 == p * a + b / 2 && v % 2 == b % 2
  {
    assert v == 2 * (p * a) + b;
  }

  lemma {:induction false} WordsValueBit(ws: seq<word>, i: nat)
    requires i < 16 * |ws|
    ensures Bit(WordsValue(ws), i) == Bit(ws[|ws| - 1 - i / 16], i % 16)
  {
    var n := |ws| - 1;
    Pow2Values();
    BitConcat(WordsValue(ws[..n]), ws[n], 16, i);
    if i >= 16 {
      WordsValueBit(ws[..n], i - 16);
      assert (i - 16) / 16 == i / 16 - 1 && (i - 16) % 16 == i % 16;
    }
  }

  lemma SwapBytesBit(r: word, j: nat)
    requires j < 16
    ensures Bit(SwapBytes(r), j) == Bit(r, (j + 8) % 16)
  {
    hide Bit;
    Pow2Values();
    var hi, lo := r / 256, r % 256;
    assert SwapBytes(r) == Pow2(8) * lo + hi && r == Pow2(8) * hi + lo;
    BitConcat(lo, hi, 8, j);
    BitConcat(hi, lo, 8, (j + 8) % 16);
  }

  /** Where bit `i`, counted from the least significant end, lives: which register, and which
      bit inside it. */
  function BitHome(i: nat, n: nat, wo: Order, bo: Order): (int, int)
  {
    (if wo.Little? then i / 16 else n - 1 - i / 16,
     if bo.Little? then (i % 16 + 8) % 16 else i % 16)
  }

  /** Extraction without ever building the big integer. */
  lemma ExtractBitClosedForm(regs: seq<word>, index: int, wo: Order, bo: Order, numbering: Numbering)
    requires 0 <= index < 16 * |regs|
    ensures var n := |regs|;
            var i := if numbering.LsbFirst? then index else 16 * n - 1 - index;
            var (r, j) := BitHome(i, n, wo, bo);
            && 0 <= r < n && 0 <= j < 16
            && ExtractBit(regs, index, wo, bo, numbering) == Ok(Bit(regs[r], j) == 1)
  {
    hide Bit, RegistersToInt;
    RegistersToIntBit(regs, if numbering.LsbFirst? then index else 16 * |regs| - 1 - index, wo, bo);
  }

  lemma RegistersToIntBit(regs: seq<word>, i: nat, wo: Order, bo: Order)
    requires i < 16 * |regs|
    ensures var (r, j) := BitHome(i, |regs|, wo, bo);
            && 0 <= r < |regs| && 0 <= j < 16
            && RegistersToInt(regs, wo, bo).Ok?
            && Bit(RegistersToInt(regs, wo, bo).value, i) == Bit(regs[r], j)
  {
    hide Bit, FromBE, WordsValue, PackWords, RegistersToBytes;
    var n, ws := |regs|, NormalWords(regs, wo, bo);
    BytesOfNormalWords(regs, wo, bo);
    FromBEPackWords(ws);
    WordsValueBit(ws, i);
    var r := BitHome(i, n, wo, bo).0;
    assert ws[n - 1 - i / 16] == if bo.Big? then regs[r] else SwapBytes(regs[r]);
    SwapBytesBit(regs[r], i % 16);
  }

  /** Extraction fails exactly on an empty block, an index outside it, or a value that is no register. */
  lemma ExtractBitDomain(regs: seq<int>, index: int, wo: Order, bo: Order, numbering: Numbering)
    ensures ExtractBit(regs, index, wo, bo, numbering).Ok? <==> 0 <= index < 16 * |regs| && AreWords(regs)
  {}

  /** The list form is the single form at each index, in order. */
  lemma {:induction false} ExtractBitsPointwise(regs: seq<int>, indices: seq<int>, wo: Order, bo: Order, numbering: Numbering, bits: seq<bool>)
    ensures ExtractBits(regs, indices, wo, bo, numbering) == Ok(bits)
            <==> && |bits| == |indices| && regs != [] && AreWords(regs)
                 && forall k :: 0 <= k < |bits| ==> ExtractBit(regs, indices[k], wo, bo, numbering) == Ok(bits[k])
  {
    hide PickBits, Bit, ResolvePos, FromBE, RegistersToBytes;
    if regs != [] && AreWords(regs) {
      PickBitsPointwise(RegistersToInt(regs, wo, bo).value, indices, 16 * |regs|, numbering, bits);
    }
  }

  lemma {:induction false} PickBitsPointwise(value: nat, indices: seq<int>, total: nat, numbering: Numbering, bits: seq<bool>)
    ensures PickBits(value, indices, total, numbering) == Ok(bits)
            <==> && |bits| == |indices|
                 && forall k :: 0 <= k < |bits| ==>
                      && ResolvePos(indices[k], total, numbering).Ok?
                      && bits[k] == (Bit(value, ResolvePos(indices[k], total, numbering).value) == 1)
    decreases |indices|
  {
    if indices != [] && bits != [] {
      PickBitsPointwise(value, indices[1..], total, numbering, bits[1..]);
      assert bits == [bits[0]] + bits[1..];
      assert forall k :: 0 < k < |bits| ==> bits[k] == bits[1..][k - 1];
      assert forall k :: 0 < k < |indices| ==> indices[k] == indices[1..][k - 1];
      assert forall k :: 0 <= k < |bits[1..]| ==> bits[1..][k] == bits[k + 1] ;
      assert forall k :: 0 <= k < |indices[1..]| ==> indices[1..][k] == indices[k + 1];
    }
  }

  // ---------- rebuilding the integer ----------

  /** Sum of bits[i] * 2^i. */
  function Weighted(bits: seq<bool>): nat
  {
    if bits == [] then 0
    else Weighted(bits[..|bits| - 1]) + if bits[|bits| - 1] then Pow2(|bits| - 1) else 0
  }

  lemma {:induction false} WeightedIsMod(v: nat, bits: seq<bool>)
    requires forall i :: 0 <= i < |bits| ==> bits[i] == (Bit(v, i) == 1)
    ensures Weighted(bits) == v % Pow2(|bits|)
  {
    if bits != [] {
      var n := |bits| - 1;
      WeightedIsMod(v, bits[..n]);
      ModDouble(v, Pow2(n));
    }
  }

  lemma ModDouble(v: nat, p: nat)
    requires p > 0
    ensures v % (2 * p) == v % p + if v / p % 2 == 1 then p else 0
  {
    var q, r := v / p, v % p;
    assert v == p * q + r;
    assert q == 2 * (q / 2) + q % 2;
    assert v == (2 * p) * (q / 2) + (p * (q % 2) + r);
    DivUnique(v, 2 * p, q / 2, p * (q % 2) + r);
  }

  lemma {:induction false} WordsValueBound(ws: seq<word>)
    ensures WordsValue(ws) < Pow2(16 * |ws|)
  {
    if ws != [] {
      WordsValueBound(ws[..|ws| - 1]);
      Pow2Plus16(16 * (|ws| - 1));
    }
  }

  lemma Pow2Plus16(n: nat)
    ensures Pow2(n + 16) == 0x1_0000 * Pow2(n)
  {
    Pow2Plus4(n); Pow2Plus4(n + 4); Pow2Plus4(n + 8); Pow2Plus4(n + 12);
  }

  lemma Pow2Plus4(n: nat)
    ensures Pow2(n + 4) == 16 * Pow2(n)
  {
    assert Pow2(n + 2) == 2 * Pow2(n + 1);
    assert Pow2(n + 3) == 2 * Pow2(n + 2);
  }

  /** Weighting every bit of the block by its power of two gives back the block's unsigned value. */
  lemma BitsRebuildInteger(regs: seq<word>, wo: Order, bo: Order, bits: seq<bool>)
    requires |bits| == 16 * |regs|
    requires forall i :: 0 <= i < |bits| ==> ExtractBit(regs, i, wo, bo, LsbFirst) == Ok(bits[i])
    ensures RegistersToInt(regs, wo, bo) == Ok(Weighted(bits))
  {
    var v := RegistersToInt(regs, wo, bo).value;
    BytesOfNormalWords(regs, wo, bo);
    FromBEPackWords(NormalWords(regs, wo, bo));
    WordsValueBound(NormalWords(regs, wo, bo));
    forall i | 0 <= i < |bits|
      ensures bits[i] == (Bit(v, i) == 1)
    {
      assert ExtractBit(regs, i, wo, bo, LsbFirst) == Ok(bits[i]);
    }
    WeightedIsMod(v, bits);
    SmallMod(v, Pow2(|bits|));
  }

  lemma SmallMod(v: nat, p: nat)
    requires v < p
    ensures v % p == v
  {
    DivUnique(v, p, 0, v);
  }

  /** A decoded integer is the weighted sum of the bits that extraction finds in its registers; in a
      signed type the top bit counts negative. */
  lemma DecodedIsWeighted(regs: seq<word>, d: DType, wo: Order, bo: Order, bits: seq<bool>)
    requires !IsFloat(d) && |regs| == RegsPerItem(d) && |bits| == 16 * |regs|
    requires forall i :: 0 <= i < |bits| ==> ExtractBit(regs, i, wo, bo, LsbFirst) == Ok(bits[i])
    ensures DecodeRegisters(regs, d, wo, bo)
            == Ok([Num(Weighted(bits) - if IsSigned(d) && bits[|bits| - 1] then Pow2(|bits|) else 0)])
  {
    hide FromBE, Pow2, Pow256, Bit, RegistersToBytes, Weighted, DecodeWindows, PackWords, WordsValue;
    var n, raw := |regs|, RegistersToBytes(regs, wo, bo).value;
    var v, k := FromBE(raw), 16 * |regs| - 1;
    BitsRebuildInteger(regs, wo, bo, bits);
    BytesOfNormalWords(regs, wo, bo);
    FromBEPackWords(NormalWords(regs, wo, bo));
    WordsValueBound(NormalWords(regs, wo, bo));
    assert ExtractBit(regs, k, wo, bo, LsbFirst) == Ok(bits[k]);
    TopBit(v, k);
    Pow256IsPow2(2 * n);
    OneWindow(regs, d, wo, bo);
  }

  lemma OneWindow(regs: seq<word>, d: DType, wo: Order, bo: Order)
    requires |regs| == RegsPerItem(d)
    ensures DecodeRegisters(regs, d, wo, bo)
            == match RegistersToBytes(regs, wo, bo) case Ok(raw) => Ok([DecodeOne(raw, d)]) case Err(e) => Err(e)
  {
    hide RegistersToBytes, DecodeOne;
    assert regs[..|regs|] == regs && regs[|regs|..] == [];
    DecodeNothing(d, wo, bo);
    var v := DecodeItem(regs, d, wo, bo).value;
    assert [v] + [] == [v];
  }

  /** The top bit of a number of k + 1 bits. */
  lemma TopBit(v: nat, k: nat)
    requires v < Pow2(k + 1)
    ensures Bit(v, k) == 1 <==> 2 * v >= Pow2(k + 1)
  {
    var p := Pow2(k);
    if v >= p {
      DivUnique(v, p, 1, v - p);
    } else {
      DivUnique(v, p, 0, v);
    }
  }

  lemma {:induction false} Pow256IsPow2(n: nat)
    ensures Pow256(n) == Pow2(8 * n)
  {
    if n != 0 {
      Pow256IsPow2(n - 1);
      Pow2Plus4(8 * (n - 1)); Pow2Plus4(8 * (n - 1) + 4);
    }
  }

  /** A decoded float is the byte pattern whose big-endian number has those bits. */
  lemma DecodedPatternIsWeighted(regs: seq<word>, d: DType, wo: Order, bo: Order, bits: seq<bool>)
    requires IsFloat(d) && |regs| == RegsPerItem(d) && |bits| == 16 * |regs|
    requires forall i :: 0 <= i < |bits| ==> ExtractBit(regs, i, wo, bo, LsbFirst) == Ok(bits[i])
    ensures DecodeRegisters(regs, d, wo, bo) == Ok([Pattern(ToBE(Weighted(bits), 2 * |regs|))])
  {
    hide FromBE, ToBE, RegistersToBytes, Weighted, DecodeWindows;
    BitsRebuildInteger(regs, wo, bo, bits);
    OneWindow(regs, d, wo, bo);
    ToFromBE(RegistersToBytes(regs, wo, bo).value);
  }
}
