/** Types and arithmetic shared by every part of the model. */
module Basics {

  /** One byte on the wire. */
  type byte = x: int | 0 <= x < 0x100

  /** One 16-bit register. */
  type word = x: int | 0 <= x < 0x1_0000

  datatype Option<+T> = None | Some(value: T)

  datatype Result<+T, +E> = Ok(value: T) | Err(error: E) {
    predicate IsFailure() { Err? }
    function PropagateFailure<U>(): Result<U, E> requires Err? { Err(error) }
    function Extract(): T requires Ok? { value }
  }

  /** The 16-bit number whose two bytes are given. */
  function Word16(lo: byte, hi: byte): word
  {
    (lo as int) + 256 * (hi as int)
  }

  function Min(a: int, b: int): int { if a <= b then a else b }
  function Max(a: int, b: int): int { if a <= b then b else a }

  function Pow2(n: nat): (p: nat)
    ensures p > 0
  {
    if n == 0 then 1 else 2 * Pow2(n - 1)
  }

  function Pow256(n: nat): (p: nat)
    ensures p > 0
  {
    if n == 0 then 1 else 256 * Pow256(n - 1)
  }

  /** Bit `i` of a non-negative integer, least significant first. */
  function Bit(v: nat, i: nat): (b: nat)
    ensures b <= 1
  {
    v / Pow2(i) % 2
  }

  lemma Pow2Values()
    ensures Pow2(1) == 2 && Pow2(2) == 4 && Pow2(3) == 8 && Pow2(4) == 16
    ensures Pow2(5) == 32 && Pow2(6) == 64 && Pow2(7) == 128
    ensures Pow2(8) == 0x100 && Pow2(15) == 0x8000 && Pow2(16) == 0x1_0000
  {
    assert Pow2(4) == 16;
    assert Pow2(7) == 128;
    assert Pow2(10) == 1024;
    assert Pow2(13) == 8192;
  }

  /** Dividing by 2 `n` times is dividing by Pow2(n), one step at a time. */
  lemma DivPow2Step(v: nat, n: nat)
    ensures v / Pow2(n + 1) == v / 2 / Pow2(n)
  {
    var p := Pow2(n);
    var q := v / 2 / p;
    var r := v / 2 % p;
    assert v / 2 == p * q + r;
    assert v == 2 * (p * q + r) + v % 2;
    assert v == (2 * p) * q + (2 * r + v % 2);
    DivUnique(v, 2 * p, q, 2 * r + v % 2);
  }

  lemma DivUnique(v: nat, d: nat, q: nat, r: nat)
    requires d > 0 && r < d && v == d * q + r
    ensures v / d == q && v % d == r
  {
    var q', r' := v / d, v % d;
    assert d * (q' - q) == r - r';
    if q' > q {
      MulAtLeast(d, q' - q);
    } else if q' < q {
      MulAtLeast(d, q - q');
    }
  }

  lemma MulAtLeast(d: int, k: int)
    requires d >= 0 && k >= 1
    ensures d * k >= d
  {}

  /** Dropping the low bit shifts every other bit down by one. */
  lemma BitStep(v: nat, i: nat)
    ensures Bit(v, 0) == v % 2
    ensures Bit(v, i + 1) == Bit(v / 2, i)
  {
    DivPow2Step(v, i);
  }

  /** Concatenation of a list of sequences. */
  function Flatten<T>(ss: seq<seq<T>>): seq<T>
  {
    if ss == [] then [] else ss[0] + Flatten(ss[1..])
  }

  lemma {:induction false} FlattenAppend<T>(a: seq<seq<T>>, b: seq<seq<T>>)
    ensures Flatten(a + b) == Flatten(a) + Flatten(b)
  {
    if a == [] {
      assert a + b == b;
    } else {
      assert (a + b)[1..] == a[1..] + b;
      FlattenAppend(a[1..], b);
    }
  }

  lemma {:induction false} FlattenSnoc<T>(a: seq<seq<T>>, x: seq<T>)
    ensures Flatten(a + [x]) == Flatten(a) + x
  {
    FlattenAppend(a, [x]);
    assert Flatten([x]) == x + Flatten([]);
  }
}
