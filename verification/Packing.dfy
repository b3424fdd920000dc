/** The byte-level building blocks of the PDU codecs: struct's ">H" and the coil bit packer. */
module Packing {
  import opened Basics

  // ---------- big-endian 16-bit words ----------

  function Be16(w: word): (s: seq<byte>)
    ensures |s| == 2
  {
    [w / 256, w % 256]
  }

  function FromBe16(s: seq<byte>, i: nat): word
    requires i + 2 <= |s|
  {
    Word16(s[i + 1], s[i])
  }

  function PackWords(ws: seq<word>): (s: seq<byte>)
    ensures |s| == 2 * |ws|
  {
    seq(2 * |ws|, k requires 0 <= k < 2 * |ws| => if k % 2 == 0 then ws[k / 2] / 256 else ws[k / 2] % 256)
  }

  function UnpackWords(s: seq<byte>): (ws: seq<word>)
    requires |s| % 2 == 0
    ensures |ws| == |s| / 2
  {
    seq(|s| / 2, k requires 0 <= k < |s| / 2 => FromBe16(s, 2 * k))
  }

  lemma PackAt(ws: seq<word>, h: nat)
    requires h < |ws|
    ensures PackWords(ws)[2 * h] == ws[h] / 256 && PackWords(ws)[2 * h + 1] == ws[h] % 256
  {
    assert 2 * h / 2 == h && 2 * h % 2 == 0;
    assert (2 * h + 1) / 2 == h && (2 * h + 1) % 2 == 1;
  }

  lemma UnpackPackWords(ws: seq<word>)
    ensures UnpackWords(PackWords(ws)) == ws
  {
    var s := PackWords(ws);
    forall k | 0 <= k < |ws|
      ensures UnpackWords(s)[k] == ws[k]
    {
      PackAt(ws, k);
    }
  }

  lemma PackUnpackWords(s: seq<byte>)
    requires |s| % 2 == 0
    ensures PackWords(UnpackWords(s)) == s
  {
    var ws := UnpackWords(s);
    forall k | 0 <= k < |s|
      ensures PackWords(ws)[k] == s[k]
    {
      var h := k / 2;
      assert ws[h] == FromBe16(s, 2 * h);
      assert k == 2 * h || k == 2 * h + 1;
    }
  }

  // ---------- coils, eight to a byte, first coil in the low bit ----------

  /** The byte that holds up to eight coils. */
  function PackByte(bits: seq<bool>): (b: nat)
    ensures b < Pow2(|bits|)
  {
    if bits == [] then 0 else (if bits[0] then 1 else 0) + 2 * PackByte(bits[1..])
  }

  /** Coils 8k .. 8k+7, as many as there are. */
  function Octet(bits: seq<bool>, k: nat): (o: seq<bool>)
    requires 8 * k <= |bits|
    ensures |o| <= 8
  {
    bits[8 * k..Min(8 * k + 8, |bits|)]
  }

  function PackBits(bits: seq<bool>): (s: seq<byte>)
    ensures |s| == (|bits| + 7) / 8
  {
    seq((|bits| + 7) / 8, k requires 0 <= k < (|bits| + 7) / 8 => PackOctet(Octet(bits, k)))
  }

  function PackOctet(bits: seq<bool>): byte
    requires |bits| <= 8
  {
    PowOfOctet(|bits|);
    PackByte(bits)
  }

  lemma PowOfOctet(n: nat)
    requires n <= 8
    ensures Pow2(n) <= 256
  {
    Pow2Values();
  }

  function UnpackBits(s: seq<byte>, count: nat): (bits: seq<bool>)
    requires count <= 8 * |s|
    ensures |bits| == count
  {
    seq(count, i requires 0 <= i < count => Bit(s[i / 8], i % 8) == 1)
  }

  lemma {:induction false} PackByteBit(bits: seq<bool>, t: nat)
    ensures Bit(PackByte(bits), t) == if t < |bits| && bits[t] then 1 else 0
    decreases |bits|
  {
    var b := PackByte(bits);
    if bits == [] {
      assert 0 / Pow2(t) == 0;
    } else if t == 0 {
      BitStep(b, 0);
    } else {
      BitStep(b, t - 1);
      assert b / 2 == PackByte(bits[1..]);
      PackByteBit(bits[1..], t - 1);
    }
  }

  /** Coil i is bit i % 8 of byte i / 8; the rest of the last byte is zero. */
  lemma PackBitsAt(bits: seq<bool>)
    ensures forall i :: 0 <= i < 8 * |PackBits(bits)| ==>
              Bit(PackBits(bits)[i / 8], i % 8) == if i < |bits| && bits[i] then 1 else 0
  {
    var s := PackBits(bits);
    forall i | 0 <= i < 8 * |s|
      ensures Bit(s[i / 8], i % 8) == if i < |bits| && bits[i] then 1 else 0
    {
      var o := Octet(bits, i / 8);
      PackByteBit(o, i % 8);
      assert i == 8 * (i / 8) + i % 8;
    }
  }

  /** Unpacking what was packed returns the coils, and every padding bit is zero. */
  lemma UnpackPackBits(bits: seq<bool>)
    ensures UnpackBits(PackBits(bits), |bits|) == bits
    ensures forall i :: |bits| <= i < 8 * |PackBits(bits)| ==> Bit(PackBits(bits)[i / 8], i % 8) == 0
  {
    PackBitsAt(bits);
  }

  /** `b | (1 << t)` */
  function SetBit(b: nat, t: nat): nat
  {
    if Bit(b, t) == 1 then b else b + Pow2(t)
  }

  lemma {:induction false} PackByteSnoc(bits: seq<bool>, v: bool)
    ensures PackByte(bits + [v]) == PackByte(bits) + (if v then Pow2(|bits|) else 0)
    decreases |bits|
  {
    if bits == [] {
      assert [v][1..] == [];
    } else {
      assert (bits + [v])[1..] == bits[1..] + [v];
      PackByteSnoc(bits[1..], v);
    }
  }

  /** Appending one coil touches only the octet it lands in. */
  lemma OctetSnoc(bits: seq<bool>, i: nat, k: nat)
    requires i < |bits| && 8 * k <= i
    ensures i < 8 * k + 8 ==> Octet(bits[..i + 1], k) == Octet(bits[..i], k) + [bits[i]]
    ensures i >= 8 * k + 8 ==> Octet(bits[..i + 1], k) == Octet(bits[..i], k)
  {
    if i < 8 * k + 8 {
      assert bits[..i + 1] == bits[..i] + [bits[i]];
    } else {
      assert bits[..i + 1][8 * k..8 * k + 8] == bits[..i][8 * k..8 * k + 8];
    }
  }

  /** The buffer holds the first `i` coils, and zeros above them. */
  ghost predicate Packed(values: seq<bool>, i: nat, buf: seq<byte>)
    requires i <= |values|
  {
    forall k :: 0 <= k < |buf| ==> buf[k] == if 8 * k <= i then PackOctet(Octet(values[..i], k)) else 0
  }

  /** The loop's assignment to the byte that coil `i` lands in. */
  function PackedByte(b: byte, i: nat, value: bool): nat
  {
    if value then SetBit(b, i % 8) else b
  }

  lemma PackedStep(values: seq<bool>, i: nat, buf: seq<byte>)
    requires i < |values| && i / 8 < |buf| && Packed(values, i, buf)
    ensures PackedByte(buf[i / 8], i, values[i]) < 0x100
    ensures Packed(values, i + 1, buf[i / 8 := PackedByte(buf[i / 8], i, values[i])])
  {
    var q := i / 8;
    PackedOctet(values, i, buf[q]);
    var now := buf[q := PackedByte(buf[q], i, values[i])];
    forall k | 0 <= k < |buf|
      ensures now[k] == if 8 * k <= i + 1 then PackOctet(Octet(values[..i + 1], k)) else 0
    {
      if 8 * k == i + 1 {
        assert Octet(values[..i + 1], k) == [];
      } else if 8 * k <= i && k != q {
        hide PackOctet, Octet;
        OctetSnoc(values, i, k);
      }
    }
  }

  lemma PackedOctet(values: seq<bool>, i: nat, b: byte)
    requires i < |values| && b == PackOctet(Octet(values[..i], i / 8))
    ensures PackedByte(b, i, values[i]) == PackOctet(Octet(values[..i + 1], i / 8))
  {
    hide Pow2;
    var q := i / 8;
    var o := Octet(values[..i], q);
    assert |o| == i % 8;
    PackByteBit(o, i % 8); PackByteSnoc(o, values[i]);
    OctetSnoc(values, i, q); PowOfOctet(i % 8 + 1);
  }

  /** The packing loop over a zeroed byte array. */
  method PackBitsLoop(values: seq<bool>) returns (out: seq<byte>)
    ensures out == PackBits(values)
  {
    hide PackOctet, Octet, SetBit;
    var n := |values|;
    var buf := new byte[(n + 7) / 8](_ => 0);
    NothingPacked(values, buf[..]);
    for i := 0 to n
      invariant Packed(values, i, buf[..])
    {
      hide Packed;
      PackedStep(values, i, buf[..]);
      ghost var before := buf[..];
      if values[i] {
        buf[i / 8] := SetBit(buf[i / 8], i % 8);
      }
      assert buf[..] == before[i / 8 := PackedByte(before[i / 8], i, values[i])];
    }
    assert values[..n] == values;
    out := buf[..];
  }

  lemma NothingPacked(values: seq<bool>, buf: seq<byte>)
    requires forall k :: 0 <= k < |buf| ==> buf[k] == 0
    ensures Packed(values, 0, buf)
  {
    assert Octet(values[..0], 0) == [];
  }

  /** The unpacking loop. */
  method UnpackBitsLoop(s: seq<byte>, count: nat) returns (bits: seq<bool>)
    requires count <= 8 * |s|
    ensures bits == UnpackBits(s, count)
  {
    bits := [];
    for i := 0 to count
      invariant bits == UnpackBits(s, i)
    {
      bits := bits + [s[i / 8] / Pow2(i % 8) % 2 == 1];
    }
  }
}
