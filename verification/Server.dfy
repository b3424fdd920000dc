/** Request dispatch of src/pymod/server.py, for arbitrary callbacks and for the simulator. */
module Server {
  import opened Basics
  import opened Errors
  import opened Pdu
  import opened RegisterCodec
  import opened SimStore

  /** What a callback can do: return, raise a ModbusExceptionResponse, or raise anything else. */
  datatype ReadOutcome = Values(vs: seq<int>) | Raises(code: byte) | Crashes
  datatype WriteOutcome = Accepts | Refuses(code: byte) | Breaks

  datatype Callbacks = Callbacks(
    onRead: (Area, int, int) -> ReadOutcome,
    onWrite: Option<(Area, int, seq<int>) -> WriteOutcome>,
    unitId: Option<int>)

  // ---------- adapting callback results ----------

  function ToBools(vs: seq<int>, count: int): Result<seq<bool>, byte>
  {
    if |vs| != count then Err(SLAVE_DEVICE_FAILURE)
    else Ok(seq(|vs|, i requires 0 <= i < |vs| => vs[i] != 0))
  }

  function ToInts(vs: seq<int>, count: int): Result<seq<word>, byte>
  {
    if |vs| != count then Err(SLAVE_DEVICE_FAILURE)
    else if !AreWords(vs) then Err(SLAVE_DEVICE_FAILURE)
    else Ok(AsWords(vs))
  }

  /** The checking and collecting loop of `_to_int_list`. */
  method ToIntList(vs: seq<int>, count: int) returns (r: Result<seq<word>, byte>)
    ensures r == ToInts(vs, count)
  {
    if |vs| != count {
      return Err(SLAVE_DEVICE_FAILURE);
    }
    var out: seq<word> := [];
    for i := 0 to |vs|
      invariant out == vs[..i] && AreWords(vs[..i])
    {
      if !(0 <= vs[i] <= 0xFFFF) {
        return Err(SLAVE_DEVICE_FAILURE);
      }
      out := out + [vs[i]];
    }
    assert vs[..|vs|] == vs;
    r := Ok(out);
  }

  // ---------- dispatch ----------

  /** The server answers every unit id, or only its own. */
  predicate Addressed(unitId: Option<int>, uid: byte) { unitId.None? || unitId.value == uid }

  function ReadArea(fc: byte): Option<Area>
  {
    if fc == 0x01 then Some(CoilArea)
    else if fc == 0x02 then Some(DiscreteArea)
    else if fc == 0x03 then Some(HoldingArea)
    else if fc == 0x04 then Some(InputArea)
    else None
  }

  /** A decoded write: the callback's arguments and the echo to send if it accepts. */
  datatype WriteCall = WriteCall(area: Area, address: word, values: seq<int>, echo: word)

  function ParseWrite(fc: byte, pdu: seq<byte>): (r: Result<WriteCall, byte>)
    requires IsWriteFc(fc)
    ensures r.Ok? ==> r.value.area == CoilArea || (r.value.area == HoldingArea && AreWords(r.value.values))
  {
    if fc == FC_WRITE_SINGLE_COIL then
      var (a, v) :- DecodeWriteCoilRequest(pdu);
      Ok(WriteCall(CoilArea, a, [if v then 1 else 0], if v then COIL_ON else COIL_OFF))
    else if fc == FC_WRITE_SINGLE_REGISTER then
      var (a, v) :- DecodeWriteRegisterRequest(pdu);
      Ok(WriteCall(HoldingArea, a, [v], v))
    else if fc == FC_WRITE_MULTIPLE_COILS then
      var (a, vs) :- DecodeWriteCoilsRequest(pdu);
      Ok(WriteCall(CoilArea, a, AsCells(vs), |vs|))
    else
      var (a, vs) :- DecodeWriteRegistersRequest(pdu);
      Ok(WriteCall(HoldingArea, a, vs, |vs|))
  }

  /** A read answered from the callback's outcome; an error is a raised exception code. */
  function HandleRead(cb: Callbacks, area: Area, pdu: seq<byte>): (r: Result<Response, byte>)
    ensures r.Ok? ==> ValidResponse(r.value) && |EncodeResponse(r.value)| <= 252 && EncodeResponse(r.value)[0] == ReadFc(area)
  {
    var (start, count) :- DecodeReadRequest(area, pdu);
    match cb.onRead(area, start, count)
    case Raises(code) => Err(code)
    case Crashes => Err(SLAVE_DEVICE_FAILURE)
    case Values(vs) =>
      if IsBitArea(area) then
        var bits :- ToBools(vs, count);
        Ok(BitsRead(ReadFc(area), bits))
      else
        var regs :- ToInts(vs, count);
        Ok(RegsRead(ReadFc(area), regs))
  }

  function HandleWrite(cb: Callbacks, fc: byte, pdu: seq<byte>): (r: Result<Response, byte>)
    requires IsWriteFc(fc)
    ensures r.Ok? ==> ValidResponse(r.value) && (r.value.Exception? ==> r.value.failedFc == fc) && (r.value.Written? ==> r.value.writeFc == fc)
    ensures r.Ok? ==> r.value.Exception? || r.value.Written?
  {
    if cb.onWrite.None? then Ok(Exception(fc, ILLEGAL_FUNCTION))
    else
      var call :- ParseWrite(fc, pdu);
      match cb.onWrite.value(call.area, call.address, call.values)
      case Accepts => Ok(Written(fc, call.address, call.echo))
      case Refuses(code) => Err(code)
      case Breaks => Err(SLAVE_DEVICE_FAILURE)
  }

  function Handle(cb: Callbacks, fc: byte, pdu: seq<byte>): Result<Response, byte>
  {
    if ReadArea(fc).Some? then HandleRead(cb, ReadArea(fc).value, pdu)
    else if IsWriteFc(fc) then HandleWrite(cb, fc, pdu)
    else Ok(Exception(fc, ILLEGAL_FUNCTION))
  }

  /** For every PDU and every callback behaviour there is one answer: a normal response to the
      requested function, or a two-byte exception for it, and it fits an RTU or TCP frame. */
  function Dispatch(cb: Callbacks, uid: byte, pdu: seq<byte>): (r: Response)
    ensures ValidResponse(r)
    ensures 2 <= |EncodeResponse(r)| <= 252
    ensures pdu != [] ==>
              || (!r.Exception? && EncodeResponse(r)[0] == pdu[0])
              || (r.Exception? && EncodeResponse(r) == [ExceptionFc(pdu[0]), r.code])
  {
    if pdu == [] then Exception(0, ILLEGAL_FUNCTION)
    else
      var fc := pdu[0];
      if !Addressed(cb.unitId, uid) then Exception(fc, GATEWAY_TARGET_FAILED)
      else
        match Handle(cb, fc, pdu)
        case Ok(r) => r
        case Err(code) => Exception(fc, code)
  }

  /** What a client must see for a read, computed from the callback alone. */
  function SeenByClient(area: Area, count: nat, outcome: ReadOutcome): Result<seq<int>, Error>
  {
    match outcome
    case Raises(code) => Err(ExceptionResponse(code))
    case Crashes => Err(ExceptionResponse(SLAVE_DEVICE_FAILURE))
    case Values(vs) =>
      if |vs| != count then Err(ExceptionResponse(SLAVE_DEVICE_FAILURE))
      else if IsBitArea(area) then Ok(seq(|vs|, i requires 0 <= i < |vs| => if vs[i] != 0 then 1 else 0))
      else if AreWords(vs) then Ok(vs)
      else Err(ExceptionResponse(SLAVE_DEVICE_FAILURE))
  }

  /** The client's decoder recovers the callback's values, or the exception code it raised. */
  lemma ReadAgreement(cb: Callbacks, uid: byte, area: Area, start: int, count: int)
    requires EncodeRead(area, start, count).Ok? && Addressed(cb.unitId, uid)
    ensures DecodeCells(area, EncodeResponse(Dispatch(cb, uid, EncodeRead(area, start, count).value)), count)
            == SeenByClient(area, count, cb.onRead(area, start, count))
  {
    var req := EncodeRead(area, start, count).value;
    ReadRequestRoundTrip(area, start, count);
    assert ReadArea(req[0]) == Some(area);
    var r := Dispatch(cb, uid, req);
    ResponseRoundTrip(r);
    if r.BitsRead? {
      var vs := cb.onRead(area, start, count).vs;
      assert AsCells(r.bits) == seq(|vs|, i requires 0 <= i < |vs| => if vs[i] != 0 then 1 else 0);
    }
  }

  /** What on_write does when it is given these cells; None when there is no on_write. */
  function Told(cb: Callbacks, area: Area, address: int, cells: seq<int>): Option<WriteOutcome>
  {
    match cb.onWrite case Some(f) => Some(f(area, address, cells)) case None => None
  }

  /** What a client must see for a write, computed from the callback alone. */
  function SeenByWriter(outcome: Option<WriteOutcome>, address: word, echo: word): Result<(word, word), Error>
  {
    match outcome
    case None => Err(ExceptionResponse(1))
    case Some(Accepts) => Ok((address, echo))
    case Some(Refuses(code)) => Err(ExceptionResponse(code))
    case Some(Breaks) => Err(ExceptionResponse(4))
  }

  /** The response that a client gets for a request. */
  function Reply(cb: Callbacks, uid: byte, req: Result<seq<byte>, Error>): seq<byte>
    requires req.Ok?
  {
    EncodeResponse(Dispatch(cb, uid, req.value))
  }

  /** For every write that a client can encode, on_write is given exactly its area, address and
      cells, and the client's decoder recovers the echo of what was written, or the code that
      on_write raised, or that of a failed device, or an illegal function where nothing can be
      written. Here FC05 and FC06. */
  lemma SingleWriteAgreement(cb: Callbacks, uid: byte, address: int, on: bool, value: int)
    requires Addressed(cb.unitId, uid) && 0 <= address <= 65535 && 0 <= value <= 65535
    ensures EncodeWriteCoil(address, on).Ok? && EncodeWriteRegister(address, value).Ok?
    ensures DecodeEcho(Reply(cb, uid, EncodeWriteCoil(address, on)), 5)
            == SeenByWriter(Told(cb, CoilArea, address, [if on then 1 else 0]), address, if on then 65280 else 0)
    ensures DecodeEcho(Reply(cb, uid, EncodeWriteRegister(address, value)), 6)
            == SeenByWriter(Told(cb, HoldingArea, address, [value]), address, value)
  {
    WriteCoilRoundTrip(address, on);
    WriteRegisterRoundTrip(address, value);
    hide EncodeResponse, DecodeEcho, EncodeWriteCoil, EncodeWriteRegister, DecodeWriteCoilRequest, DecodeWriteRegisterRequest;
    EchoOf(Dispatch(cb, uid, EncodeWriteCoil(address, on).value));
    EchoOf(Dispatch(cb, uid, EncodeWriteRegister(address, value).value));
  }

  /** The same for FC15 and FC16, whose echo is the number of cells. */
  lemma MultipleWriteAgreement(cb: Callbacks, uid: byte, start: int, coils: seq<bool>, values: seq<int>)
    requires Addressed(cb.unitId, uid)
    ensures EncodeWriteCoils(start, coils).Ok? ==>
              DecodeEcho(Reply(cb, uid, EncodeWriteCoils(start, coils)), 15)
              == SeenByWriter(Told(cb, CoilArea, start, AsCells(coils)), start, |coils|)
    ensures EncodeWriteRegisters(start, values).Ok? ==>
              DecodeEcho(Reply(cb, uid, EncodeWriteRegisters(start, values)), 16)
              == SeenByWriter(Told(cb, HoldingArea, start, values), start, |values|)
  {
    if EncodeWriteCoils(start, coils).Ok? {
      WriteCoilsRoundTrip(start, coils);
      hide EncodeResponse, DecodeEcho, EncodeWriteCoils, DecodeWriteCoilsRequest;
      EchoOf(Dispatch(cb, uid, EncodeWriteCoils(start, coils).value));
    }
    if EncodeWriteRegisters(start, values).Ok? {
      WriteRegistersRoundTrip(start, values);
      hide EncodeResponse, DecodeEcho, EncodeWriteRegisters, DecodeWriteRegistersRequest;
      EchoOf(Dispatch(cb, uid, EncodeWriteRegisters(start, values).value));
    }
  }

  /** What the client's decoder makes of an echo or an exception of a write. */
  lemma EchoOf(r: Response)
    requires ValidResponse(r)
    ensures r.Written? && (r.writeFc == 5 ==> r.echo == 65280 || r.echo == 0) ==>
              DecodeEcho(EncodeResponse(r), r.writeFc) == Ok((r.address, r.echo))
    ensures r.Exception? && r.failedFc < 128 ==> DecodeEcho(EncodeResponse(r), r.failedFc) == Err(ExceptionResponse(r.code))
  {
    ResponseRoundTrip(r);
    hide EncodeResponse;
  }

  /** What is answered without asking a callback, whatever the callbacks are: a foreign unit id, an
      empty request, an unknown function, and a write where there is no on_write. */
  lemma Unasked(cb: Callbacks, uid: byte, pdu: seq<byte>)
    ensures pdu == [] ==> EncodeResponse(Dispatch(cb, uid, pdu)) == [128, 1]
    ensures pdu != [] && cb.unitId.Some? && cb.unitId.value != uid ==>
              EncodeResponse(Dispatch(cb, uid, pdu)) == [ExceptionFc(pdu[0]), 11]
    ensures pdu != [] && (cb.unitId == None || cb.unitId == Some(uid)) ==>
              && (pdu[0] !in {1, 2, 3, 4, 5, 6, 15, 16} ==> EncodeResponse(Dispatch(cb, uid, pdu)) == [ExceptionFc(pdu[0]), 1])
              && (pdu[0] in {5, 6, 15, 16} && cb.onWrite.None? ==> EncodeResponse(Dispatch(cb, uid, pdu)) == [ExceptionFc(pdu[0]), 1])
  {}

  /** A request that no client can encode, FC15 padding aside, is an illegal data value. */
  lemma MalformedRejected(cb: Callbacks, uid: byte, pdu: seq<byte>)
    requires pdu != [] && Addressed(cb.unitId, uid)
    ensures forall area :: pdu[0] == ReadFc(area) && (forall s: word, n: word :: EncodeRead(area, s, n) != Ok(pdu)) ==>
              EncodeResponse(Dispatch(cb, uid, pdu)) == [pdu[0] + 128, 3]
    ensures cb.onWrite.Some? ==>
              && (pdu[0] == 5 && (forall a: word, v: bool :: EncodeWriteCoil(a, v) != Ok(pdu)) ==>
                    EncodeResponse(Dispatch(cb, uid, pdu)) == [133, 3])
              && (pdu[0] == 6 && (forall a: word, v: word :: EncodeWriteRegister(a, v) != Ok(pdu)) ==>
                    EncodeResponse(Dispatch(cb, uid, pdu)) == [134, 3])
              && (pdu[0] == 15 && (forall a: word, vs: seq<bool> :: !IsCoilsRequest(pdu, a, vs)) ==>
                    EncodeResponse(Dispatch(cb, uid, pdu)) == [143, 3])
              && (pdu[0] == 16 && (forall a: word, vs: seq<word> :: EncodeWriteRegisters(a, vs) != Ok(pdu)) ==>
                    EncodeResponse(Dispatch(cb, uid, pdu)) == [144, 3])
  {
    forall area | pdu[0] == ReadFc(area) && forall s: word, n: word :: EncodeRead(area, s, n) != Ok(pdu)
      ensures EncodeResponse(Dispatch(cb, uid, pdu)) == [pdu[0] + 128, 3]
    {
      ReadAcceptedOnlyIfExact(area, pdu);
      RejectedRead(cb, uid, area, pdu);
    }
    SingleWriteAcceptedOnlyIfExact(pdu);
    MultipleWriteAcceptedOnlyIfExact(pdu);
    if IsWriteFc(pdu[0]) && cb.onWrite.Some? {
      RejectedWrite(cb, uid, pdu);
    }
  }

  lemma RejectedRead(cb: Callbacks, uid: byte, area: Area, pdu: seq<byte>)
    requires pdu != [] && Addressed(cb.unitId, uid) && pdu[0] == ReadFc(area)
    requires DecodeReadRequest(area, pdu) == Err(3)
    ensures EncodeResponse(Dispatch(cb, uid, pdu)) == [pdu[0] + 128, 3]
  {
    hide DecodeReadRequest;
    assert ReadArea(pdu[0]) == Some(area);
  }

  lemma RejectedWrite(cb: Callbacks, uid: byte, pdu: seq<byte>)
    requires pdu != [] && Addressed(cb.unitId, uid) && IsWriteFc(pdu[0]) && cb.onWrite.Some?
    ensures ParseWrite(pdu[0], pdu).Err? ==> EncodeResponse(Dispatch(cb, uid, pdu)) == [pdu[0] + 128, ParseWrite(pdu[0], pdu).error]
  {
    hide ParseWrite;
  }

  // ---------- the simulator behind the dispatcher ----------

  datatype SimConfig = SimConfig(writable: bool, unitId: Option<int>)

  function SimCallbacks(cfg: SimConfig, s: Store): Callbacks
  {
    Callbacks(
      (area: Area, address: int, count: int) =>
        if count < 0 then Values([])
        else match StoreRead(s, area, address, count) case Ok(vs) => Values(vs) case Err(code) => Raises(code),
      if cfg.writable then Some((area: Area, address: int, values: seq<int>) => Accepts) else None,
      cfg.unitId)
  }

  /** The write that a request makes the dispatcher pass to the store, if any. */
  function WriteOf(cfg: SimConfig, uid: byte, pdu: seq<byte>): Option<WriteCall>
  {
    if pdu == [] || !cfg.writable || !Addressed(cfg.unitId, uid) || !IsWriteFc(pdu[0]) then None
    else match ParseWrite(pdu[0], pdu) case Ok(call) => Some(call) case Err(_) => None
  }

  function Respond(cfg: SimConfig, s: Store, uid: byte, pdu: seq<byte>): (resp: seq<byte>)
    ensures 2 <= |resp| <= 252
  {
    EncodeResponse(Dispatch(SimCallbacks(cfg, s), uid, pdu))
  }

  function After(cfg: SimConfig, s: Store, uid: byte, pdu: seq<byte>): Store
  {
    match WriteOf(cfg, uid, pdu)
    case Some(call) => StoreWrite(s, call.area, call.address, call.values)
    case None => s
  }

  class SimServer {
    const sim: SimState
    const cfg: SimConfig

    constructor (sim: SimState, cfg: SimConfig)
      ensures this.sim == sim && this.cfg == cfg
    {
      this.sim, this.cfg := sim, cfg;
    }

    method DispatchPdu(uid: byte, pdu: seq<byte>) returns (resp: seq<byte>)
      modifies sim
      ensures resp == Respond(cfg, old(sim.View()), uid, pdu)
      ensures sim.View() == After(cfg, old(sim.View()), uid, pdu)
    {
      if |pdu| == 0 {
        return EncodeResponse(Exception(0, ILLEGAL_FUNCTION));
      }
      var fc := pdu[0];
      if !Addressed(cfg.unitId, uid) {
        return EncodeResponse(Exception(fc, GATEWAY_TARGET_FAILED));
      }
      var r := HandlePdu(fc, pdu);
      resp := EncodeResponse(if r.Ok? then r.value else Exception(fc, r.error));
    }

    method HandlePdu(fc: byte, pdu: seq<byte>) returns (r: Result<Response, byte>)
      requires pdu != [] && pdu[0] == fc
      modifies sim
      ensures r == Handle(SimCallbacks(cfg, old(sim.View())), fc, pdu)
      ensures sim.View() == if cfg.writable && IsWriteFc(fc) && ParseWrite(fc, pdu).Ok?
                            then var c := ParseWrite(fc, pdu).value; StoreWrite(old(sim.View()), c.area, c.address, c.values)
                            else old(sim.View())
    {
      var area := ReadArea(fc);
      if area.Some? {
        var parsed := DecodeReadRequest(area.value, pdu);
        if parsed.Err? {
          return Err(parsed.error);
        }
        var (start, count) := parsed.value;
        var values := sim.Read(area.value, start, count);
        if values.Err? {
          return Err(values.error);
        }
        if IsBitArea(area.value) {
          var bits := ToBools(values.value, count);
          match bits {
            case Ok(b) => r := Ok(BitsRead(fc, b));
            case Err(code) => r := Err(code);
          }
        } else {
          var regs := ToIntList(values.value, count);
          match regs {
            case Ok(ws) => r := Ok(RegsRead(fc, ws));
            case Err(code) => r := Err(code);
          }
        }
      } else if IsWriteFc(fc) {
        if !cfg.writable {
          return Ok(Exception(fc, ILLEGAL_FUNCTION));
        }
        var parsed := ParseWrite(fc, pdu);
        if parsed.Err? {
          return Err(parsed.error);
        }
        var call := parsed.value;
        sim.Write(call.area, call.address, call.values);
        r := Ok(Written(fc, call.address, call.echo));
      } else {
        r := Ok(Exception(fc, ILLEGAL_FUNCTION));
      }
    }
  }

  // ---------- whole runs ----------

  datatype Request = Request(uid: byte, pdu: seq<byte>)

  function Run(cfg: SimConfig, s: Store, reqs: seq<Request>): Store
    decreases |reqs|
  {
    if reqs == [] then s
    else Run(cfg, After(cfg, s, reqs[0].uid, reqs[0].pdu), reqs[1..])
  }

  predicate HoldingInRange(s: Store)
  {
    forall a :: a in s.holding ==> 0 <= s.holding[a] <= 0xFFFF
  }

  lemma AreaProtectionStep(cfg: SimConfig, s: Store, uid: byte, pdu: seq<byte>)
    ensures var t := After(cfg, s, uid, pdu);
            && t.input == s.input && t.discrete == s.discrete
            && (!cfg.writable ==> t == s)
            && (HoldingInRange(s) ==> HoldingInRange(t))
  {}

  /** No sequence of requests, well-formed or not, changes the input registers or the discrete
      inputs; a read-only server changes nothing; holding registers stay 16-bit. */
  lemma {:induction false} AreaProtection(cfg: SimConfig, s: Store, reqs: seq<Request>)
    ensures var t := Run(cfg, s, reqs);
            && t.input == s.input && t.discrete == s.discrete
            && (!cfg.writable ==> t == s)
            && (HoldingInRange(s) ==> HoldingInRange(t))
    decreases |reqs|
  {
    if reqs != [] {
      AreaProtectionStep(cfg, s, reqs[0].uid, reqs[0].pdu);
      AreaProtection(cfg, After(cfg, s, reqs[0].uid, reqs[0].pdu), reqs[1..]);
    }
  }
}
