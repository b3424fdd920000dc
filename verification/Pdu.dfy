/**
  The PDU codecs of src/pymod/protocol/pdu.py. Functions that the source repeats once per
  area or once per function code take the area or the function code as a parameter.
 */
module Pdu {
  import opened Basics
  import opened Errors
  import opened Packing

  datatype Area = CoilArea | DiscreteArea | HoldingArea | InputArea

  predicate IsBitArea(area: Area) { area.CoilArea? || area.DiscreteArea? }

  const FC_WRITE_SINGLE_COIL: byte := 0x05
  const FC_WRITE_SINGLE_REGISTER: byte := 0x06
  const FC_WRITE_MULTIPLE_COILS: byte := 0x0F
  const FC_WRITE_MULTIPLE_REGISTERS: byte := 0x10

  predicate IsWriteFc(fc: byte)
  {
    || fc == FC_WRITE_SINGLE_COIL || fc == FC_WRITE_SINGLE_REGISTER
    || fc == FC_WRITE_MULTIPLE_COILS || fc == FC_WRITE_MULTIPLE_REGISTERS
  }

  const MAX_WRITE_COILS: nat := 1968
  const MAX_WRITE_REGISTERS: nat := 123
  const COIL_ON: word := 0xFF00
  const COIL_OFF: word := 0x0000

  function ReadFc(area: Area): (fc: byte)
    ensures 1 <= fc <= 4
  {
    match area
    case CoilArea => 0x01
    case DiscreteArea => 0x02
    case HoldingArea => 0x03
    case InputArea => 0x04
  }

  function MaxRead(area: Area): nat
  {
    if IsBitArea(area) then 2000 else 125
  }

  /** `fc | 0x80` */
  function ExceptionFc(fc: byte): byte
  {
    if fc < 0x80 then fc + 0x80 else fc
  }

  // ---------- client: request encoders ----------

  function EncodeRead(area: Area, start: int, count: int): (r: Result<seq<byte>, Error>)
    ensures r.Ok? <==> 0 <= start <= 0xFFFF && 1 <= count <= MaxRead(area)
  {
    if !(0 <= start <= 0xFFFF) then Err(ValueError)
    else if !(1 <= count <= MaxRead(area)) then Err(ValueError)
    else Ok([ReadFc(area)] + Be16(start) + Be16(count))
  }

  function EncodeWriteCoil(address: int, value: bool): Result<seq<byte>, Error>
  {
    if !(0 <= address <= 0xFFFF) then Err(ValueError)
    else Ok([FC_WRITE_SINGLE_COIL] + Be16(address) + Be16(if value then COIL_ON else COIL_OFF))
  }

  function EncodeWriteRegister(address: int, value: int): Result<seq<byte>, Error>
  {
    if !(0 <= address <= 0xFFFF) then Err(ValueError)
    else if !(0 <= value <= 0xFFFF) then Err(ValueError)
    else Ok([FC_WRITE_SINGLE_REGISTER] + Be16(address) + Be16(value))
  }

  function EncodeWriteCoils(start: int, values: seq<bool>): Result<seq<byte>, Error>
  {
    if !(0 <= start <= 0xFFFF) then Err(ValueError)
    else if !(1 <= |values| <= MAX_WRITE_COILS) then Err(ValueError)
    else Ok([FC_WRITE_MULTIPLE_COILS] + Be16(start) + Be16(|values|) + [(|values| + 7) / 8] + PackBits(values))
  }

  function EncodeWriteRegisters(start: int, values: seq<int>): Result<seq<byte>, Error>
  {
    if !(0 <= start <= 0xFFFF) then Err(ValueError)
    else if !(1 <= |values| <= MAX_WRITE_REGISTERS) then Err(ValueError)
    else if exists i :: 0 <= i < |values| && !(0 <= values[i] <= 0xFFFF) then Err(ValueError)
    else
      var ws := AsWords(values);
      Ok([FC_WRITE_MULTIPLE_REGISTERS] + Be16(start) + Be16(|values|) + [2 * |values|] + PackWords(ws))
  }

  function AsWords(values: seq<int>): (ws: seq<word>)
    requires forall i :: 0 <= i < |values| ==> 0 <= values[i] <= 0xFFFF
    ensures ws == values
  {
    seq(|values|, i requires 0 <= i < |values| => values[i])
  }

  // ---------- client: response decoders ----------

  /** Ok for a normal response to `fc`; the exception it carries, or a protocol error, otherwise. */
  function DetectException(pdu: seq<byte>, fc: byte): Result<(), Error>
  {
    if |pdu| == 0 then Err(ProtocolError)
    else if pdu[0] == fc then Ok(())
    else if pdu[0] == ExceptionFc(fc) then
      if |pdu| < 2 then Err(ProtocolError) else Err(ExceptionResponse(pdu[1]))
    else Err(ProtocolError)
  }

  function DecodeBits(pdu: seq<byte>, count: nat, fc: byte): Result<seq<bool>, Error>
  {
    var _ :- DetectException(pdu, fc);
    if |pdu| < 2 then Err(ProtocolError)
    else if pdu[1] != (count + 7) / 8 then Err(ProtocolError)
    else if |pdu| - 2 != pdu[1] then Err(ProtocolError)
    else Ok(UnpackBits(pdu[2..], count))
  }

  function DecodeRegs(pdu: seq<byte>, count: nat, fc: byte): Result<seq<word>, Error>
  {
    var _ :- DetectException(pdu, fc);
    if |pdu| < 2 then Err(ProtocolError)
    else if pdu[1] != 2 * count then Err(ProtocolError)
    else if |pdu| - 2 != pdu[1] then Err(ProtocolError)
    else Ok(UnpackWords(pdu[2..]))
  }

  /** A coil as a Python int. */
  function AsCells(bits: seq<bool>): (cells: seq<int>)
    ensures |cells| == |bits|
    ensures forall i :: 0 <= i < |bits| ==> cells[i] == if bits[i] then 1 else 0
  {
    seq(|bits|, i requires 0 <= i < |bits| => if bits[i] then 1 else 0)
  }

  /** The four read decoders, with coils as ints so that every area has the same kind of cell. */
  function DecodeCells(area: Area, pdu: seq<byte>, count: nat): Result<seq<int>, Error>
  {
    if IsBitArea(area) then
      var bits :- DecodeBits(pdu, count, ReadFc(area));
      Ok(AsCells(bits))
    else
      var regs :- DecodeRegs(pdu, count, ReadFc(area));
      Ok(regs)
  }

  /** FC05/06/15/16 responses: two 16-bit fields; FC05 accepts only the two coil codes. */
  function DecodeEcho(pdu: seq<byte>, fc: byte): Result<(word, word), Error>
  {
    var _ :- DetectException(pdu, fc);
    if |pdu| != 5 then Err(ProtocolError)
    else
      var (a, v) := (FromBe16(pdu, 1), FromBe16(pdu, 3));
      if fc == FC_WRITE_SINGLE_COIL && v != COIL_ON && v != COIL_OFF then Err(ProtocolError)
      else Ok((a, v))
  }

  // ---------- server: request decoders (an error is the exception code to answer) ----------

  function DecodeReadRequest(area: Area, pdu: seq<byte>): Result<(word, word), byte>
  {
    if |pdu| != 5 then Err(ILLEGAL_DATA_VALUE)
    else
      var (start, count) := (FromBe16(pdu, 1), FromBe16(pdu, 3));
      if !(1 <= count <= MaxRead(area)) then Err(ILLEGAL_DATA_VALUE)
      else Ok((start, count))
  }

  function DecodeWriteCoilRequest(pdu: seq<byte>): Result<(word, bool), byte>
  {
    if |pdu| != 5 then Err(ILLEGAL_DATA_VALUE)
    else
      var (address, coded) := (FromBe16(pdu, 1), FromBe16(pdu, 3));
      if coded == COIL_ON then Ok((address, true))
      else if coded == COIL_OFF then Ok((address, false))
      else Err(ILLEGAL_DATA_VALUE)
  }

  function DecodeWriteRegisterRequest(pdu: seq<byte>): Result<(word, word), byte>
  {
    if |pdu| != 5 then Err(ILLEGAL_DATA_VALUE)
    else Ok((FromBe16(pdu, 1), FromBe16(pdu, 3)))
  }

  function DecodeWriteCoilsRequest(pdu: seq<byte>): (r: Result<(word, seq<bool>), byte>)
    ensures r.Ok? ==> 1 <= |r.value.1| <= MAX_WRITE_COILS
  {
    if |pdu| < 6 then Err(ILLEGAL_DATA_VALUE)
    else
      var (start, count) := (FromBe16(pdu, 1), FromBe16(pdu, 3));
      if !(1 <= count <= MAX_WRITE_COILS) then Err(ILLEGAL_DATA_VALUE)
      else if pdu[5] != (count + 7) / 8 then Err(ILLEGAL_DATA_VALUE)
      else if |pdu| - 6 != pdu[5] then Err(ILLEGAL_DATA_VALUE)
      else Ok((start, UnpackBits(pdu[6..], count)))
  }

  function DecodeWriteRegistersRequest(pdu: seq<byte>): (r: Result<(word, seq<word>), byte>)
    ensures r.Ok? ==> 1 <= |r.value.1| <= MAX_WRITE_REGISTERS
  {
    if |pdu| < 6 then Err(ILLEGAL_DATA_VALUE)
    else
      var (start, count) := (FromBe16(pdu, 1), FromBe16(pdu, 3));
      if !(1 <= count <= MAX_WRITE_REGISTERS) then Err(ILLEGAL_DATA_VALUE)
      else if pdu[5] != 2 * count then Err(ILLEGAL_DATA_VALUE)
      else if |pdu| - 6 != pdu[5] then Err(ILLEGAL_DATA_VALUE)
      else Ok((start, UnpackWords(pdu[6..])))
  }

  // ---------- server: responses ----------

  /** Everything the server-side encoders can put on the wire. */
  datatype Response =
    | BitsRead(bitFc: byte, bits: seq<bool>)
    | RegsRead(regFc: byte, regs: seq<word>)
    | Written(writeFc: byte, address: word, echo: word)
    | Exception(failedFc: byte, code: byte)

  /** The byte-count field must fit a byte; the function codes are the encoders' own. */
  predicate ValidResponse(r: Response)
  {
    match r
    case BitsRead(fc, bits) => (fc == 0x01 || fc == 0x02) && |bits| <= 2040
    case RegsRead(fc, regs) => (fc == 0x03 || fc == 0x04) && |regs| <= 127
    case Written(fc, _, _) => fc == 0x05 || fc == 0x06 || fc == 0x0F || fc == 0x10
    case Exception(_, _) => true
  }

  function EncodeResponse(r: Response): (pdu: seq<byte>)
    requires ValidResponse(r)
    ensures 2 <= |pdu| <= 257
  {
    match r
    case BitsRead(fc, bits) => [fc, (|bits| + 7) / 8] + PackBits(bits)
    case RegsRead(fc, regs) => [fc, 2 * |regs|] + PackWords(regs)
    case Written(fc, a, v) => [fc] + Be16(a) + Be16(v)
    case Exception(fc, code) => [ExceptionFc(fc), code]
  }

  // ---------- round trips ----------

  lemma Be16Fields(pdu: seq<byte>, fc: byte, a: word, v: word, rest: seq<byte>)
    requires pdu == [fc] + Be16(a) + Be16(v) + rest
    ensures |pdu| == 5 + |rest| && pdu[0] == fc
    ensures FromBe16(pdu, 1) == a && FromBe16(pdu, 3) == v
    ensures pdu[5..] == rest
  {
    assert pdu[1] == a / 256 && pdu[2] == a % 256 && pdu[3] == v / 256 && pdu[4] == v % 256;
  }

  /** The server reads out of a client's read request exactly what the client asked for. */
  lemma ReadRequestRoundTrip(area: Area, start: int, count: int)
    requires EncodeRead(area, start, count).Ok?
    ensures var pdu := EncodeRead(area, start, count).value;
            pdu != [] && pdu[0] == ReadFc(area) && DecodeReadRequest(area, pdu) == Ok((start, count))
  {
    var pdu := EncodeRead(area, start, count).value;
    assert pdu == [ReadFc(area)] + Be16(start) + Be16(count) + [];
    Be16Fields(pdu, ReadFc(area), start, count, []);
  }

  lemma WriteCoilRoundTrip(address: int, value: bool)
    requires 0 <= address <= 0xFFFF
    ensures var pdu := EncodeWriteCoil(address, value).value;
            pdu != [] && pdu[0] == FC_WRITE_SINGLE_COIL && DecodeWriteCoilRequest(pdu) == Ok((address, value))
  {
    var pdu, v := EncodeWriteCoil(address, value).value, if value then COIL_ON else COIL_OFF;
    assert pdu == [FC_WRITE_SINGLE_COIL] + Be16(address) + Be16(v) + [];
    Be16Fields(pdu, FC_WRITE_SINGLE_COIL, address, v, []);
  }

  lemma WriteRegisterRoundTrip(address: int, value: int)
    requires 0 <= address <= 0xFFFF && 0 <= value <= 0xFFFF
    ensures var pdu := EncodeWriteRegister(address, value).value;
            pdu != [] && pdu[0] == FC_WRITE_SINGLE_REGISTER && DecodeWriteRegisterRequest(pdu) == Ok((address, value))
  {
    var pdu := EncodeWriteRegister(address, value).value;
    assert pdu == [FC_WRITE_SINGLE_REGISTER] + Be16(address) + Be16(value) + [];
    Be16Fields(pdu, FC_WRITE_SINGLE_REGISTER, address, value, []);
  }

  lemma WriteCoilsRoundTrip(start: int, values: seq<bool>)
    requires EncodeWriteCoils(start, values).Ok?
    ensures var pdu := EncodeWriteCoils(start, values).value;
            pdu != [] && pdu[0] == FC_WRITE_MULTIPLE_COILS && DecodeWriteCoilsRequest(pdu) == Ok((start, values))
  {
    var pdu, n := EncodeWriteCoils(start, values).value, |values|;
    var rest: seq<byte> := [(n + 7) / 8] + PackBits(values);
    assert pdu == [FC_WRITE_MULTIPLE_COILS] + Be16(start) + Be16(n) + rest;
    Be16Fields(pdu, FC_WRITE_MULTIPLE_COILS, start, n, rest);
    assert pdu[5] == rest[0] && pdu[6..] == PackBits(values);
    UnpackPackBits(values);
  }

  lemma WriteRegistersRoundTrip(start: int, values: seq<int>)
    requires EncodeWriteRegisters(start, values).Ok?
    ensures var pdu := EncodeWriteRegisters(start, values).value;
            pdu != [] && pdu[0] == FC_WRITE_MULTIPLE_REGISTERS && DecodeWriteRegistersRequest(pdu) == Ok((start, values))
  {
    var pdu, n, ws := EncodeWriteRegisters(start, values).value, |values|, AsWords(values);
    var rest: seq<byte> := [2 * n] + PackWords(ws);
    assert pdu == [FC_WRITE_MULTIPLE_REGISTERS] + Be16(start) + Be16(n) + rest;
    Be16Fields(pdu, FC_WRITE_MULTIPLE_REGISTERS, start, n, rest);
    assert pdu[5] == rest[0] && pdu[6..] == PackWords(ws);
    UnpackPackWords(ws);
  }

  /** The client recovers every normal response and every exception code from the wire. */
  lemma ResponseRoundTrip(r: Response)
    requires ValidResponse(r)
    ensures r.BitsRead? ==> DecodeBits(EncodeResponse(r), |r.bits|, r.bitFc) == Ok(r.bits)
    ensures r.RegsRead? ==> DecodeRegs(EncodeResponse(r), |r.regs|, r.regFc) == Ok(r.regs)
    ensures r.Written? && (r.writeFc == FC_WRITE_SINGLE_COIL ==> r.echo == COIL_ON || r.echo == COIL_OFF)
            ==> DecodeEcho(EncodeResponse(r), r.writeFc) == Ok((r.address, r.echo))
    ensures r.Exception? && r.failedFc < 0x80
            ==> DetectException(EncodeResponse(r), r.failedFc) == Err(ExceptionResponse(r.code))
  {
    var pdu := EncodeResponse(r);
    match r {
      case BitsRead(fc, bits) =>
        assert pdu[2..] == PackBits(bits);
        UnpackPackBits(bits);
      case RegsRead(fc, regs) =>
        assert pdu[2..] == PackWords(regs);
        UnpackPackWords(regs);
      case Written(fc, a, v) =>
        assert pdu == [fc] + Be16(a) + Be16(v) + [];
        Be16Fields(pdu, fc, a, v, []);
      case Exception(_, _) =>
    }
  }

  /** A register response is accepted only if it is exactly the encoding of the values returned. */
  lemma RegsAcceptedOnlyIfExact(pdu: seq<byte>, count: nat, fc: byte, ws: seq<word>)
    requires fc == 0x03 || fc == 0x04
    ensures DecodeRegs(pdu, count, fc) == Ok(ws)
            <==> |ws| == count <= 127 && pdu == EncodeResponse(RegsRead(fc, ws))
  {
    hide PackWords, UnpackWords, PackBits, UnpackBits;
    if DecodeRegs(pdu, count, fc) == Ok(ws) {
      PackUnpackWords(pdu[2..]);
      assert pdu == [pdu[0], pdu[1]] + pdu[2..];
    }
    if |ws| == count <= 127 && pdu == EncodeResponse(RegsRead(fc, ws)) {
      ResponseRoundTrip(RegsRead(fc, ws));
    }
  }

  // ---------- the bytes on the wire ----------

  /** The bytes from position `at` on spell the registers, high byte first, and nothing follows. */
  predicate SpellsWords(pdu: seq<byte>, at: nat, ws: seq<int>)
  {
    && |pdu| == at + 2 * |ws|
    && forall i :: 0 <= i < |ws| ==> 256 * (pdu[at + 2 * i] as int) + pdu[at + 2 * i + 1] == ws[i]
  }

  /** The bytes from position `at` on hold the coils, eight to a byte, the first in the low bit,
      with zeros for padding, and nothing follows. */
  predicate SpellsBits(pdu: seq<byte>, at: nat, bits: seq<bool>)
  {
    && |pdu| == at + (|bits| + 7) / 8
    && forall i :: 0 <= i < 8 * (|pdu| - at) ==> Bit(pdu[at + i / 8], i % 8) == if i < |bits| && bits[i] then 1 else 0
  }

  lemma PackedWordsSpell(head: seq<byte>, ws: seq<word>)
    ensures SpellsWords(head + PackWords(ws), |head|, ws)
  {
    hide PackWords;
    forall i | 0 <= i < |ws|
      ensures 256 * (PackWords(ws)[2 * i] as int) + PackWords(ws)[2 * i + 1] == ws[i]
    {
      PackAt(ws, i);
    }
  }

  lemma PackedBitsSpell(head: seq<byte>, bits: seq<bool>)
    ensures SpellsBits(head + PackBits(bits), |head|, bits)
  {
    PackBitsAt(bits);
    hide PackBits, Bit;
  }

  /** The four read requests, byte by byte, and what they may ask for. */
  lemma ReadRequestBytes(area: Area, start: int, count: int)
    ensures EncodeRead(area, start, count)
            == if 0 <= start <= 65535 && 1 <= count <= (if area.CoilArea? || area.DiscreteArea? then 2000 else 125) then
                 Ok([match area case CoilArea => 1 case DiscreteArea => 2 case HoldingArea => 3 case InputArea => 4,
                     start / 256, start % 256, count / 256, count % 256])
               else Err(ValueError)
  {
    if EncodeRead(area, start, count).Ok? {
      assert EncodeRead(area, start, count).value == [ReadFc(area), start / 256, start % 256, count / 256, count % 256];
    }
  }

  /** The four write requests, byte by byte, and what they may ask for. */
  lemma WriteRequestBytes(start: int, on: bool, value: int, coils: seq<bool>, values: seq<int>)
    ensures EncodeWriteCoil(start, on)
            == if 0 <= start <= 65535 then Ok([5, start / 256, start % 256, if on then 255 else 0, 0]) else Err(ValueError)
    ensures EncodeWriteRegister(start, value)
            == if 0 <= start <= 65535 && 0 <= value <= 65535 then Ok([6, start / 256, start % 256, value / 256, value % 256])
               else Err(ValueError)
    ensures var r := EncodeWriteCoils(start, coils);
            if 0 <= start <= 65535 && 1 <= |coils| <= 1968 then
              r.Ok? && SpellsBits(r.value, 6, coils)
              && r.value[..6] == [15, start / 256, start % 256, |coils| / 256, |coils| % 256, (|coils| + 7) / 8]
            else r == Err(ValueError)
    ensures var r := EncodeWriteRegisters(start, values);
            if 0 <= start <= 65535 && 1 <= |values| <= 123 && forall i :: 0 <= i < |values| ==> 0 <= values[i] <= 65535 then
              r.Ok? && SpellsWords(r.value, 6, values)
              && r.value[..6] == [16, start / 256, start % 256, 0, |values|, 2 * |values|]
            else r == Err(ValueError)
  {
    hide SpellsBits, SpellsWords, PackBits, PackWords;
    if EncodeWriteCoil(start, on).Ok? {
      assert EncodeWriteCoil(start, on).value == [5, start / 256, start % 256, if on then 255 else 0, 0];
    }
    if EncodeWriteRegister(start, value).Ok? {
      assert EncodeWriteRegister(start, value).value == [6, start / 256, start % 256, value / 256, value % 256];
    }
    if EncodeWriteCoils(start, coils).Ok? {
      var head: seq<byte> := [15, start / 256, start % 256, |coils| / 256, |coils| % 256, (|coils| + 7) / 8];
      PackedBitsSpell(head, coils);
      assert EncodeWriteCoils(start, coils).value == head + PackBits(coils);
    }
    if EncodeWriteRegisters(start, values).Ok? {
      var head: seq<byte> := [16, start / 256, start % 256, 0, |values|, 2 * |values|];
      PackedWordsSpell(head, AsWords(values));
      assert EncodeWriteRegisters(start, values).value == head + PackWords(AsWords(values));
    }
  }

  /** The server's responses, byte by byte. */
  lemma ResponseBytes(r: Response)
    requires ValidResponse(r)
    ensures r.BitsRead? ==> EncodeResponse(r)[..2] == [r.bitFc, (|r.bits| + 7) / 8] && SpellsBits(EncodeResponse(r), 2, r.bits)
    ensures r.RegsRead? ==> EncodeResponse(r)[..2] == [r.regFc, 2 * |r.regs|] && SpellsWords(EncodeResponse(r), 2, r.regs)
    ensures r.Written? ==> EncodeResponse(r) == [r.writeFc, r.address / 256, r.address % 256, r.echo / 256, r.echo % 256]
    ensures r.Exception? ==> EncodeResponse(r) == [if r.failedFc < 128 then r.failedFc + 128 else r.failedFc, r.code]
  {
    hide SpellsBits, SpellsWords, PackBits, PackWords;
    match r {
      case BitsRead(fc, bits) => PackedBitsSpell([fc, (|bits| + 7) / 8], bits);
      case RegsRead(fc, regs) => PackedWordsSpell([fc, 2 * |regs|], regs);
      case _ =>
    }
  }

  // ---------- what the server accepts ----------

  lemma FiveBytes(pdu: seq<byte>)
    requires |pdu| >= 5
    ensures pdu[..5] == [pdu[0]] + Be16(FromBe16(pdu, 1)) + Be16(FromBe16(pdu, 3))
  {}

  /** A read request is accepted exactly when it is the encoding of some read; anything else of
      that function code is an illegal data value. */
  lemma ReadAcceptedOnlyIfExact(area: Area, pdu: seq<byte>)
    requires pdu != [] && pdu[0] == ReadFc(area)
    ensures forall start: word, count: word ::
              DecodeReadRequest(area, pdu) == Ok((start, count)) <==> EncodeRead(area, start, count) == Ok(pdu)
    ensures var r := DecodeReadRequest(area, pdu);
            if r.Ok? then EncodeRead(area, r.value.0, r.value.1) == Ok(pdu) else r.error == 3
  {
    forall start: word, count: word
      ensures DecodeReadRequest(area, pdu) == Ok((start, count)) <==> EncodeRead(area, start, count) == Ok(pdu)
    {
      if DecodeReadRequest(area, pdu) == Ok((start, count)) {
        FiveBytes(pdu);
        assert pdu[..5] == pdu;
      }
      if EncodeRead(area, start, count) == Ok(pdu) {
        ReadRequestRoundTrip(area, start, count);
      }
    }
  }

  /** The same for FC05 and FC06. */
  lemma SingleWriteAcceptedOnlyIfExact(pdu: seq<byte>)
    requires pdu != []
    ensures forall a: word, v: bool :: pdu[0] == 5 ==>
              (DecodeWriteCoilRequest(pdu) == Ok((a, v)) <==> EncodeWriteCoil(a, v) == Ok(pdu))
    ensures forall a: word, v: word :: pdu[0] == 6 ==>
              (DecodeWriteRegisterRequest(pdu) == Ok((a, v)) <==> EncodeWriteRegister(a, v) == Ok(pdu))
    ensures DecodeWriteCoilRequest(pdu).Err? ==> DecodeWriteCoilRequest(pdu).error == 3
    ensures DecodeWriteRegisterRequest(pdu).Err? ==> DecodeWriteRegisterRequest(pdu).error == 3
  {
    if |pdu| == 5 {
      FiveBytes(pdu);
      assert pdu[..5] == pdu;
    }
    forall a: word, v: bool | pdu[0] == 5
      ensures DecodeWriteCoilRequest(pdu) == Ok((a, v)) <==> EncodeWriteCoil(a, v) == Ok(pdu)
    {
      if EncodeWriteCoil(a, v) == Ok(pdu) {
        WriteCoilRoundTrip(a, v);
      }
    }
    forall a: word, v: word | pdu[0] == 6
      ensures DecodeWriteRegisterRequest(pdu) == Ok((a, v)) <==> EncodeWriteRegister(a, v) == Ok(pdu)
    {
      if EncodeWriteRegister(a, v) == Ok(pdu) {
        WriteRegisterRoundTrip(a, v);
      }
    }
  }

  /** FC16 too is accepted exactly when it is an encoding. FC15 is accepted when it is one up to
      the padding bits of its last byte, which the server ignores. */
  lemma MultipleWriteAcceptedOnlyIfExact(pdu: seq<byte>)
    requires pdu != []
    ensures forall start: word, ws: seq<word> :: pdu[0] == 16 ==>
              (DecodeWriteRegistersRequest(pdu) == Ok((start, ws)) <==> EncodeWriteRegisters(start, ws) == Ok(pdu))
    ensures forall start: word, bits: seq<bool> :: pdu[0] == 15 ==>
              (DecodeWriteCoilsRequest(pdu) == Ok((start, bits)) <==> IsCoilsRequest(pdu, start, bits))
    ensures DecodeWriteRegistersRequest(pdu).Err? ==> DecodeWriteRegistersRequest(pdu).error == 3
    ensures DecodeWriteCoilsRequest(pdu).Err? ==> DecodeWriteCoilsRequest(pdu).error == 3
  {
    forall start: word, ws: seq<word> | pdu[0] == 16
      ensures DecodeWriteRegistersRequest(pdu) == Ok((start, ws)) <==> EncodeWriteRegisters(start, ws) == Ok(pdu)
    {
      RegistersRequestIff(pdu, start, ws);
    }
    forall start: word, bits: seq<bool> | pdu[0] == 15
      ensures DecodeWriteCoilsRequest(pdu) == Ok((start, bits)) <==> IsCoilsRequest(pdu, start, bits)
    {
      CoilsRequestIff(pdu, start, bits);
    }
  }

  /** The header and length of an FC15 request for these coils, which its data bytes hold. */
  predicate IsCoilsRequest(pdu: seq<byte>, start: word, bits: seq<bool>)
  {
    && 1 <= |bits| <= 1968 && |pdu| == 6 + (|bits| + 7) / 8
    && pdu[..6] == [15, start / 256, start % 256, |bits| / 256, |bits| % 256, (|bits| + 7) / 8]
    && forall i :: 0 <= i < |bits| ==> Bit(pdu[6 + i / 8], i % 8) == if bits[i] then 1 else 0
  }

  lemma RegistersRequestIff(pdu: seq<byte>, start: word, ws: seq<word>)
    requires pdu != [] && pdu[0] == 16
    ensures DecodeWriteRegistersRequest(pdu) == Ok((start, ws)) <==> EncodeWriteRegisters(start, ws) == Ok(pdu)
  {
    hide PackWords, UnpackWords, PackBits, UnpackBits;
    if EncodeWriteRegisters(start, ws) == Ok(pdu) {
      WriteRegistersRoundTrip(start, ws);
    }
    if DecodeWriteRegistersRequest(pdu) == Ok((start, ws)) {
      FiveBytes(pdu);
      PackUnpackWords(pdu[6..]);
      assert pdu == pdu[..5] + [pdu[5]] + pdu[6..];
      assert AsWords(ws) == ws;
    }
  }

  lemma CoilsRequestIff(pdu: seq<byte>, start: word, bits: seq<bool>)
    requires pdu != [] && pdu[0] == 15
    ensures DecodeWriteCoilsRequest(pdu) == Ok((start, bits)) <==> IsCoilsRequest(pdu, start, bits)
  {
    hide Bit;
    if DecodeWriteCoilsRequest(pdu) == Ok((start, bits)) {
      FiveBytes(pdu);
      assert pdu[..6] == pdu[..5] + [pdu[5]];
      forall i | 0 <= i < |bits|
        ensures Bit(pdu[6 + i / 8], i % 8) == if bits[i] then 1 else 0
      {
        assert bits[i] == (Bit(pdu[6..][i / 8], i % 8) == 1);
      }
    }
    if IsCoilsRequest(pdu, start, bits) {
      var head := pdu[..6];
      assert pdu[1] == head[1] && pdu[2] == head[2] && pdu[3] == head[3] && pdu[4] == head[4] && pdu[5] == head[5];
      assert UnpackBits(pdu[6..], |bits|) == bits;
    }
  }

  // ---------- what the client makes of a response ----------

  /** Not a normal response to `fc`: either its exception, with a code, or nothing the client knows. */
  function Refusal(pdu: seq<byte>, fc: byte): Error
  {
    if |pdu| >= 2 && fc < 128 && pdu[0] == fc + 128 then ExceptionResponse(pdu[1]) else ProtocolError
  }

  /** The echo of a write is accepted exactly when it has its function code, five bytes and, for
      FC05, one of the two coil codes. Every other response is an error: the exception that the
      server raised, or a protocol error. */
  lemma EchoVerdict(pdu: seq<byte>, fc: byte)
    requires fc < 128
    ensures pdu == [] || pdu[0] != fc ==> DecodeEcho(pdu, fc) == Err(Refusal(pdu, fc))
    ensures pdu != [] && pdu[0] == fc ==>
              DecodeEcho(pdu, fc)
              == if |pdu| == 5 && (fc == 5 ==> pdu[4] == 0 && (pdu[3] == 0 || pdu[3] == 255)) then
                   Ok((256 * (pdu[1] as int) + pdu[2], 256 * (pdu[3] as int) + pdu[4]))
                 else Err(ProtocolError)
  {}

  /** A read response is accepted exactly when it has its function code, the byte count of the
      request and as many bytes; what it carries is then read off those bytes. */
  lemma ReadVerdict(area: Area, pdu: seq<byte>, count: nat)
    ensures pdu == [] || pdu[0] != ReadFc(area) ==> DecodeCells(area, pdu, count) == Err(Refusal(pdu, ReadFc(area)))
    ensures var bytes := if IsBitArea(area) then (count + 7) / 8 else 2 * count;
            pdu != [] && pdu[0] == ReadFc(area) ==>
              var r := DecodeCells(area, pdu, count);
              if |pdu| == 2 + bytes && pdu[1] == bytes then
                && r.Ok? && |r.value| == count
                && forall i :: 0 <= i < count ==>
                     r.value[i] == if IsBitArea(area) then Bit(pdu[2 + i / 8], i % 8)
                                   else 256 * (pdu[2 + 2 * i] as int) + pdu[2 + 2 * i + 1]
              else r == Err(ProtocolError)
  {
    hide Bit;
  }
}
