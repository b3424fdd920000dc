/** RTU framing of src/pymod/protocol/adu_rtu.py: address, PDU, CRC low byte, CRC high byte. */
module RtuFrame {
  import opened Basics
  import opened Errors
  import opened BitArith
  import opened Crc16

  const MIN_FRAME: nat := 4

  function CrcTail(body: seq<byte>): (t: seq<byte>)
    ensures |t| == 2
  {
    FeedBound(INIT, body);
    var crc := CrcBitSerial(body);
    [crc % 256, crc / 256]
  }

  function EncodeFrame(unitId: int, pdu: seq<byte>): (r: Result<seq<byte>, Error>)
    ensures r.Ok? <==> 0 <= unitId <= 0xFF && pdu != []
    ensures r.Ok? ==> |r.value| == |pdu| + 3
  {
    if !(0 <= unitId <= 0xFF) then Err(ValueError)
    else if |pdu| == 0 then Err(ValueError)
    else
      var body := [unitId as byte] + pdu;
      Ok(body + CrcTail(body))
  }

  function DecodeFrame(frame: seq<byte>): Result<(byte, seq<byte>), Error>
  {
    if |frame| < MIN_FRAME then Err(ProtocolError)
    else
      var n := |frame| - 2;
      var body := frame[..n];
      if CrcBitSerial(body) != Word16(frame[n], frame[n + 1]) then Err(CrcError)
      else Ok((body[0], body[1..]))
  }

  /** The frame byte by byte: unit id, PDU, and the CRC of both with its low byte first. */
  lemma FrameBytes(unitId: int, pdu: seq<byte>)
    ensures EncodeFrame(unitId, pdu)
            == if 0 <= unitId <= 255 && pdu != [] then
                 var crc := CrcBitSerial([unitId as byte] + pdu);
                 FeedBound(INIT, [unitId as byte] + pdu);
                 Ok([unitId as byte] + pdu + [crc % 256, crc / 256])
               else Err(ValueError)
  {
    hide CrcBitSerial;
  }

  // ---------- zero residue ----------

  /** Two more bytes act on the register as one 16-bit number and sixteen steps. */
  lemma TwoBytes(c: nat, lo: byte, hi: byte)
    requires c < 0x1_0000
    ensures StepByte(StepByte(c, lo), hi) == ShiftN(Xor(c, Word16(lo, hi)), 16)
  {
    hide Xor;
    Pow2Values();
    var x, h := Xor(c, lo), 256 * (hi as int);
    assert Xor(c, Word16(lo, hi)) == Xor(x, h) by {
      XorDisjoint(hi, lo, 8); XorComm(h, lo);
      XorAssoc(c, lo, h);
    }
    assert ShiftN(Xor(x, h), 8) == Xor(ShiftN(x, 8), hi) by {
      ShiftNLinear(x, h, 8);
      ShiftNHigh(hi, 8);
    }
    ShiftNAdd(Xor(x, h), 8, 8);
  }

  lemma {:induction false} ShiftNAdd(c: nat, m: nat, n: nat)
    ensures ShiftN(ShiftN(c, m), n) == ShiftN(c, m + n)
    decreases m
  {
    if m != 0 {
      ShiftNAdd(Shift(c), m - 1, n);
    }
  }

  lemma {:induction false} ShiftNZero(n: nat)
    ensures ShiftN(0, n) == 0
  {
    if n != 0 {
      ShiftNZero(n - 1);
    }
  }

  /** A trailing CRC matches its body exactly when the CRC of the whole frame is zero. */
  lemma ZeroResidue(frame: seq<byte>)
    requires |frame| >= 2
    ensures var n := |frame| - 2;
            CrcBitSerial(frame[..n]) == Word16(frame[n], frame[n + 1]) <==> CrcBitSerial(frame) == 0
  {
    hide Xor;
    var n := |frame| - 2;
    var lo, hi := frame[n], frame[n + 1];
    var c, w := CrcBitSerial(frame[..n]), Word16(lo, hi);
    FeedBound(INIT, frame[..n]);
    assert frame[..n + 1][..n] == frame[..n];
    assert Feed(INIT, frame[..n + 1]) == StepByte(c, lo);
    TwoBytes(c, lo, hi);
    XorWord(c, w);
    ShiftNInjective(Xor(c, w), 0, 16);
    ShiftNZero(16);
    XorSelf(w);
    if Xor(c, w) == 0 {
      XorCancel(c, w, w);
    }
  }

  /** Decoding accepts a frame exactly when it is long enough and has zero residue,
      and what it accepts is exactly what encoding would have produced. */
  lemma DecodeAccepts(frame: seq<byte>)
    ensures DecodeFrame(frame).Ok? <==> |frame| >= MIN_FRAME && CrcBitSerial(frame) == 0
    ensures |frame| >= MIN_FRAME && !DecodeFrame(frame).Ok? ==> DecodeFrame(frame) == Err(CrcError)
    ensures forall u: byte, pdu: seq<byte> ::
              DecodeFrame(frame) == Ok((u, pdu)) <==> EncodeFrame(u, pdu) == Ok(frame)
  {
    if |frame| >= MIN_FRAME {
      ZeroResidue(frame);
    }
    forall u: byte, pdu: seq<byte>
      ensures DecodeFrame(frame) == Ok((u, pdu)) <==> EncodeFrame(u, pdu) == Ok(frame)
    {
      DecodeIffEncode(frame, u, pdu);
    }
  }

  lemma DecodeIffEncode(frame: seq<byte>, u: byte, pdu: seq<byte>)
    ensures DecodeFrame(frame) == Ok((u, pdu)) <==> EncodeFrame(u, pdu) == Ok(frame)
  {
    hide DecodeFrame, EncodeFrame;
    if EncodeFrame(u, pdu) == Ok(frame) {
      EncodedDecodes(frame, u, pdu);
    }
    if DecodeFrame(frame) == Ok((u, pdu)) {
      DecodedEncodes(frame, u, pdu);
    }
  }

  lemma EncodedDecodes(frame: seq<byte>, u: byte, pdu: seq<byte>)
    requires EncodeFrame(u, pdu) == Ok(frame)
    ensures DecodeFrame(frame) == Ok((u, pdu))
  {
    hide CrcBitSerial, Word16;
    var body, n := [u] + pdu, |frame| - 2;
    TailWord(body);
    assert frame[..n] == body && body[1..] == pdu;
    assert frame[n] == CrcTail(body)[0] && frame[n + 1] == CrcTail(body)[1];
  }

  lemma DecodedEncodes(frame: seq<byte>, u: byte, pdu: seq<byte>)
    requires DecodeFrame(frame) == Ok((u, pdu))
    ensures EncodeFrame(u, pdu) == Ok(frame)
  {
    hide CrcBitSerial, Word16, CrcTail;
    var body, n := [u] + pdu, |frame| - 2;
    assert body == frame[..n];
    TailIs(body, frame[n], frame[n + 1]);
    assert frame == body + [frame[n], frame[n + 1]];
  }

  lemma TailWord(body: seq<byte>)
    ensures Word16(CrcTail(body)[0], CrcTail(body)[1]) == CrcBitSerial(body)
  {
    hide CrcBitSerial;
  }

  lemma TailIs(body: seq<byte>, lo: byte, hi: byte)
    requires CrcBitSerial(body) == Word16(lo, hi)
    ensures CrcTail(body) == [lo, hi]
  {
    hide CrcBitSerial;
  }

  // ---------- error detection ----------

  /** Equal outside the sixteen transmitted bits that start at bit `k`. */
  predicate DifferWithinBurst(f: seq<byte>, g: seq<byte>, k: nat)
  {
    && |f| == |g|
    && forall j :: 0 <= j < 8 * |f| && !(k <= j < k + 16) ==> BitAt(f, j) == BitAt(g, j)
  }

  lemma BitsDetermineBytes(f: seq<byte>, g: seq<byte>)
    requires |f| == |g| && BitsOf(f) == BitsOf(g)
    ensures f == g
  {
    forall i | 0 <= i < |f|
      ensures f[i] == g[i]
    {
      var a, b := BitsOf(f)[8 * i..8 * i + 8], BitsOf(g)[8 * i..8 * i + 8];
      forall j | 0 <= j < 8
        ensures a[j] == Bit(f[i], j) && b[j] == Bit(g[i], j)
      {
        assert (8 * i + j) / 8 == i && (8 * i + j) % 8 == j;
        assert a[j] == BitsOf(f)[8 * i + j] && b[j] == BitsOf(g)[8 * i + j];
      }
      Pow2Values();
      BitsValueOfBits(f[i], a); BitsValueOfBits(g[i], b);
    }
  }

  /** Every burst of at most sixteen bits, wherever it falls in the frame, is reported
      as a CRC mismatch. */
  lemma BurstDetected(unitId: byte, pdu: seq<byte>, g: seq<byte>, k: nat)
    requires pdu != []
    requires DifferWithinBurst(EncodeFrame(unitId, pdu).value, g, k)
    requires g != EncodeFrame(unitId, pdu).value
    ensures DecodeFrame(g) == Err(CrcError)
  {
    var f := EncodeFrame(unitId, pdu).value;
    DecodeAccepts(f); DecodeAccepts(g);
    DecodeIffEncode(f, unitId, pdu);
    FeedIsFeedBits(INIT, f); FeedIsFeedBits(INIT, g);
    BurstChangesResidue(f, g, k);
  }

  lemma BurstChangesResidue(f: seq<byte>, g: seq<byte>, k: nat)
    requires DifferWithinBurst(f, g, k) && f != g
    ensures FeedBits(INIT, BitsOf(f)) != FeedBits(INIT, BitsOf(g))
  {
    if BitsOf(f) == BitsOf(g) {
      BitsDetermineBytes(f, g);
    }
    BurstInBits(BitsOf(f), BitsOf(g), k);
  }

  lemma BurstInBits(f: seq<nat>, g: seq<nat>, k: nat)
    requires AreBits(f) && AreBits(g) && |f| == |g| && f != g
    requires forall j :: 0 <= j < |f| && !(k <= j < k + 16) ==> f[j] == g[j]
    ensures FeedBits(INIT, f) != FeedBits(INIT, g)
  {
    hide FeedBits;
    var lo, hi := Min(k, |f|), Min(k + 16, |f|);
    SplitAt(f, lo, hi); SplitAt(g, lo, hi);
    assert f[..lo] == g[..lo];
    assert f[hi..] == g[hi..];
    BurstChangesRegister(INIT, f[..lo], f[lo..hi], g[lo..hi], f[hi..]);
  }

  lemma SplitAt(f: seq<nat>, lo: nat, hi: nat)
    requires lo <= hi <= |f| && AreBits(f)
    ensures f == f[..lo] + f[lo..hi] + f[hi..]
    ensures AreBits(f[..lo]) && AreBits(f[lo..hi]) && AreBits(f[hi..])
  {}

  /** In particular, no damage confined to two adjacent bytes goes unnoticed, not even
      when the two bytes straddle the PDU and its CRC. */
  lemma AdjacentBytesDetected(unitId: byte, pdu: seq<byte>, g: seq<byte>, i: nat)
    requires pdu != []
    requires |g| == |EncodeFrame(unitId, pdu).value| && g != EncodeFrame(unitId, pdu).value
    requires forall j :: 0 <= j < |g| && j != i && j != i + 1 ==> g[j] == EncodeFrame(unitId, pdu).value[j]
    ensures DecodeFrame(g) == Err(CrcError)
  {
    var f := EncodeFrame(unitId, pdu).value;
    forall j | 0 <= j < 8 * |f| && !(8 * i <= j < 8 * i + 16)
      ensures BitAt(f, j) == BitAt(g, j)
    {
      assert j / 8 != i && j / 8 != i + 1;
    }
    BurstDetected(unitId, pdu, g, 8 * i);
  }
}
