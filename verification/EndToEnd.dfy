/**
  Client and server joined: write chunks of src/pymod/planner.py travel as PDUs through the
  dispatcher into the simulator store, and planned reads bring them back.
 */
module EndToEnd {
  import opened Basics
  import opened Errors
  import opened Pdu
  import opened RegisterCodec
  import opened BitExtraction
  import opened ReadPlan
  import opened ReadExecute
  import opened SimStore
  import opened Server
  import opened WritePlan

  // ---------- executing one write chunk ----------

  function AsBools(cells: seq<int>): (bs: seq<bool>)
    ensures |bs| == |cells|
  {
    seq(|cells|, i requires 0 <= i < |cells| => cells[i] != 0)
  }

  /** FC05 or FC06 for one cell, FC15 or FC16 for more. */
  function EncodeWriteChunk(c: WriteChunk): Result<seq<byte>, Error>
  {
    if c.area.HoldingArea? then
      if |c.cells| == 1 then EncodeWriteRegister(c.start, c.cells[0]) else EncodeWriteRegisters(c.start, c.cells)
    else
      if |c.cells| == 1 then EncodeWriteCoil(c.start, c.cells[0] != 0) else EncodeWriteCoils(c.start, AsBools(c.cells))
  }

  function WriteFc(c: WriteChunk): (fc: byte)
    ensures IsWriteFc(fc)
  {
    if c.area.HoldingArea? then
      if |c.cells| == 1 then FC_WRITE_SINGLE_REGISTER else FC_WRITE_MULTIPLE_REGISTERS
    else
      if |c.cells| == 1 then FC_WRITE_SINGLE_COIL else FC_WRITE_MULTIPLE_COILS
  }

  /** The error of a chunk, if any. The decoded echo is thrown away, as in the source. */
  function ExecuteWriteChunk(c: WriteChunk, exec: seq<byte> -> Result<seq<byte>, Error>): Option<Error>
  {
    match EncodeWriteChunk(c)
    case Err(e) => Some(e)
    case Ok(req) =>
      match exec(req)
      case Err(e) => Some(e)
      case Ok(resp) =>
        match DecodeEcho(resp, WriteFc(c))
        case Err(e) => Some(e)
        case Ok(_) => None
  }

  /** What a chunk's execution reports, for every executor. An error of the executor is passed on; a
      response with another function code is the exception it carries or a protocol error; and one
      with the chunk's function code is taken for success exactly when it is five bytes long and,
      for FC05, ends in a coil code. */
  lemma WriteChunkVerdict(c: WriteChunk, exec: seq<byte> -> Result<seq<byte>, Error>)
    ensures EncodeWriteChunk(c).Err? ==> ExecuteWriteChunk(c, exec) == Some(ValueError)
    ensures EncodeWriteChunk(c).Ok? ==>
              var req, fc := EncodeWriteChunk(c).value, WriteFc(c);
              && req != [] && req[0] == fc
              && fc == (if c.area.HoldingArea? then (if |c.cells| == 1 then 6 else 16) else if |c.cells| == 1 then 5 else 15)
              && match exec(req)
                 case Err(e) => ExecuteWriteChunk(c, exec) == Some(e)
                 case Ok(resp) =>
                   ExecuteWriteChunk(c, exec)
                   == if resp == [] || resp[0] != fc then Some(Refusal(resp, fc))
                      else if |resp| == 5 && (fc == 5 ==> resp[4] == 0 && (resp[3] == 0 || resp[3] == 255)) then None
                      else Some(ProtocolError)
  {
    hide DecodeEcho;
    if EncodeWriteChunk(c).Ok? && exec(EncodeWriteChunk(c).value).Ok? {
      EchoVerdict(exec(EncodeWriteChunk(c).value).value, WriteFc(c));
    }
  }

  /** What a read chunk reports, for every executor, in the same way; the cells of an accepted
      response are those that its bytes spell. */
  lemma ReadChunkVerdict(c: Chunk, exec: seq<byte> -> Result<seq<byte>, Error>)
    ensures EncodeRead(c.area, c.start, c.count).Err? ==> ExecuteChunk(c, exec) == Err(ValueError)
    ensures EncodeRead(c.area, c.start, c.count).Ok? ==>
              match exec(EncodeRead(c.area, c.start, c.count).value)
              case Err(e) => ExecuteChunk(c, exec) == Err(e)
              case Ok(resp) =>
                var bytes := if IsBitArea(c.area) then (c.count + 7) / 8 else 2 * c.count;
                if resp == [] || resp[0] != ReadFc(c.area) then ExecuteChunk(c, exec) == Err(Refusal(resp, ReadFc(c.area)))
                else if |resp| == 2 + bytes && resp[1] == bytes then
                  && ExecuteChunk(c, exec).Ok? && |ExecuteChunk(c, exec).value| == c.count
                  && forall i :: 0 <= i < c.count ==>
                       ExecuteChunk(c, exec).value[i]
                       == if IsBitArea(c.area) then Bit(resp[2 + i / 8], i % 8)
                          else 256 * (resp[2 + 2 * i] as int) + resp[2 + 2 * i + 1]
                else ExecuteChunk(c, exec) == Err(ProtocolError)
  {
    hide DecodeCells, Bit;
    if EncodeRead(c.area, c.start, c.count).Ok? && exec(EncodeRead(c.area, c.start, c.count).value).Ok? {
      ReadVerdict(c.area, exec(EncodeRead(c.area, c.start, c.count).value).value, c.count);
    }
  }

  /** What happens to each chunk, by its position in the plan: two chunks with the same request
      are two calls and may end differently. */
  type WriteExecutor = (nat, seq<byte>) -> Result<seq<byte>, Error>

  function ChunkError(cs: seq<WriteChunk>, k: nat, exec: WriteExecutor): Option<Error>
    requires k < |cs|
  {
    ExecuteWriteChunk(cs[k], (req: seq<byte>) => exec(k, req))
  }

  /** A write batch raises ValueError exactly when an item is empty or unencodable or a chunk's
      execution raises it; otherwise an item carries the first error among its own chunks. The
      plan and the chunk errors are returned beside the results. */
  method PlanAndExecuteWrites(items: seq<WriteItem>, exec: WriteExecutor)
    returns (r: Result<seq<WriteResult>, Error>, cs: seq<WriteChunk>, errs: seq<Option<Error>>)
    ensures |errs| == |cs| && forall k :: 0 <= k < |cs| ==> errs[k] == ChunkError(cs, k, exec)
    ensures Direct(items).Ok? ==> WritePlanOk(Direct(items).value, cs)
    ensures r.Err? ==> r.error == ValueError
    ensures r.Ok? <==> Direct(items).Ok? && forall k :: 0 <= k < |cs| ==> errs[k] != Some(ValueError)
    ensures r.Ok? ==> |r.value| == |items|
                      && forall i :: 0 <= i < |items| ==> r.value[i] == WriteResult(items[i], FirstErrorOf(cs, errs, i))
  {
    hide Direct, ChunkError, FirstErrorOf;
    cs, errs := [], [];
    var plan := PlanWrites(items);
    if plan.Err? {
      return Err(ValueError), cs, errs;
    }
    cs := plan.value;
    for k := 0 to |cs|
      invariant |errs| == k && forall j :: 0 <= j < k ==> errs[j] == ChunkError(cs, j, exec)
    {
      var e := ChunkError(cs, k, exec);
      errs := errs + [e];
    }
    if Some(ValueError) in errs {
      r := Err(ValueError);
    } else {
      var results := AssembleResults(items, cs, errs);
      r := Ok(results);
    }
  }

  // ---------- one chunk through the server ----------

  /** A chunk the wire can carry: in the address space, within limits, cells of its area's kind. */
  predicate Sendable(c: WriteChunk)
  {
    && 0 <= c.start <= 0xFFFF && 1 <= |c.cells| <= MaxWrite(c.area)
    && if c.area.HoldingArea? then AreWords(c.cells)
       else c.area.CoilArea? && forall i :: 0 <= i < |c.cells| ==> c.cells[i] == 0 || c.cells[i] == 1
  }

  predicate Reaches(cfg: SimConfig, uid: byte) { cfg.writable && Addressed(cfg.unitId, uid) }

  /** The server in a given state, as the executor that the planners call. */
  function Device(cfg: SimConfig, s: Store, uid: byte): seq<byte> -> Result<seq<byte>, Error>
  {
    (req: seq<byte>) => Ok(Respond(cfg, s, uid, req))
  }

  /** The server decodes a chunk's request into exactly that write. */
  lemma ChunkParses(c: WriteChunk)
    requires Sendable(c)
    ensures EncodeWriteChunk(c).Ok?
    ensures var req := EncodeWriteChunk(c).value;
            && req != [] && req[0] == WriteFc(c)
            && ParseWrite(WriteFc(c), req).Ok?
            && var call := ParseWrite(WriteFc(c), req).value;
               && call.area == c.area && call.address == c.start && call.values == c.cells
               && (WriteFc(c) == FC_WRITE_SINGLE_COIL ==> call.echo == COIL_ON || call.echo == COIL_OFF)
  {
    var n := |c.cells|;
    if c.area.HoldingArea? {
      if n == 1 {
        WriteRegisterRoundTrip(c.start, c.cells[0]);
        assert [c.cells[0]] == c.cells;
      } else {
        WriteRegistersRoundTrip(c.start, c.cells);
      }
    } else if n == 1 {
      WriteCoilRoundTrip(c.start, c.cells[0] != 0);
      assert [c.cells[0]] == c.cells;
    } else {
      WriteCoilsRoundTrip(c.start, AsBools(c.cells));
      assert AsCells(AsBools(c.cells)) == c.cells;
    }
  }

  /** Any server at all, as an executor. */
  function Answering(cb: Callbacks, uid: byte): seq<byte> -> Result<seq<byte>, Error>
  {
    (req: seq<byte>) => Ok(EncodeResponse(Dispatch(cb, uid, req)))
  }

  /** Whatever on_write does, the chunk ends accordingly: on_write is given the chunk's own area,
      address and cells, and what it raises is what the client reports. */
  lemma WriteChunkAgreement(cb: Callbacks, uid: byte, c: WriteChunk)
    requires Sendable(c) && Addressed(cb.unitId, uid)
    ensures ExecuteWriteChunk(c, Answering(cb, uid))
            == match Told(cb, c.area, c.start, c.cells)
               case None => Some(ExceptionResponse(1))
               case Some(Accepts) => None
               case Some(Refuses(code)) => Some(ExceptionResponse(code))
               case Some(Breaks) => Some(ExceptionResponse(4))
  {
    hide EncodeWriteCoil, EncodeWriteRegister, EncodeWriteCoils, EncodeWriteRegisters, DecodeEcho, EncodeResponse, Dispatch;
    var n := |c.cells|;
    if c.area.HoldingArea? {
      if n == 1 {
        SingleWriteAgreement(cb, uid, c.start, true, c.cells[0]);
        assert [c.cells[0]] == c.cells;
      } else {
        ChunkEncodes(c);
        MultipleWriteAgreement(cb, uid, c.start, [], c.cells);
      }
    } else if n == 1 {
      SingleWriteAgreement(cb, uid, c.start, c.cells[0] != 0, 0);
      assert [c.cells[0]] == c.cells;
    } else {
      ChunkEncodes(c);
      MultipleWriteAgreement(cb, uid, c.start, AsBools(c.cells), []);
      assert AsCells(AsBools(c.cells)) == c.cells;
    }
  }

  lemma ChunkEncodes(c: WriteChunk)
    requires Sendable(c)
    ensures EncodeWriteChunk(c).Ok?
  {
    ChunkParses(c);
  }

  /** Whatever on_read does, a read chunk ends with what the client must see of it. */
  lemma ReadChunkAgreement(cb: Callbacks, uid: byte, c: Chunk)
    requires Addressed(cb.unitId, uid) && EncodeRead(c.area, c.start, c.count).Ok?
    ensures ExecuteChunk(c, Answering(cb, uid)) == SeenByClient(c.area, c.count, cb.onRead(c.area, c.start, c.count))
  {
    hide Dispatch, EncodeResponse, DecodeCells, SeenByClient;
    ReadAgreement(cb, uid, c.area, c.start, c.count);
  }

  /** Sending a chunk stores exactly its cells, and the client sees success. */
  lemma ChunkThroughServer(cfg: SimConfig, s: Store, uid: byte, c: WriteChunk)
    requires Reaches(cfg, uid) && Sendable(c)
    ensures EncodeWriteChunk(c).Ok?
    ensures After(cfg, s, uid, EncodeWriteChunk(c).value) == StoreWrite(s, c.area, c.start, c.cells)
    ensures ExecuteWriteChunk(c, Device(cfg, s, uid)) == None
  {
    hide EncodeWriteChunk, WriteFc, ParseWrite, EncodeResponse, DecodeEcho, StoreWrite;
    ChunkParses(c);
    var req, fc := EncodeWriteChunk(c).value, WriteFc(c);
    var call := ParseWrite(fc, req).value;
    assert Dispatch(SimCallbacks(cfg, s), uid, req) == Written(fc, call.address, call.echo);
    ResponseRoundTrip(Written(fc, call.address, call.echo));
  }

  /** The store after sending chunks of a plan in some order. */
  function SendAll(cfg: SimConfig, s: Store, uid: byte, cs: seq<WriteChunk>, order: seq<nat>): Store
    requires forall i :: 0 <= i < |order| ==> order[i] < |cs|
    requires forall k :: 0 <= k < |cs| ==> EncodeWriteChunk(cs[k]).Ok?
  {
    if order == [] then s
    else
      var n := |order| - 1;
      After(cfg, SendAll(cfg, s, uid, cs, order[..n]), uid, EncodeWriteChunk(cs[order[n]]).value)
  }

  lemma {:induction false} SendAllIsExecute(cfg: SimConfig, s: Store, uid: byte, cs: seq<WriteChunk>, order: seq<nat>)
    requires Reaches(cfg, uid) && forall k :: 0 <= k < |cs| ==> Sendable(cs[k])
    requires forall i :: 0 <= i < |order| ==> order[i] < |cs|
    ensures forall k :: 0 <= k < |cs| ==> EncodeWriteChunk(cs[k]).Ok?
    ensures SendAll(cfg, s, uid, cs, order) == Execute(s, cs, order)
    decreases |order|
  {
    hide Sendable, EncodeWriteChunk, After, StoreWrite;
    forall k | 0 <= k < |cs|
      ensures EncodeWriteChunk(cs[k]).Ok?
    {
      ChunkThroughServer(cfg, s, uid, cs[k]);
    }
    if order != [] {
      var n := |order| - 1;
      SendAllIsExecute(cfg, s, uid, cs, order[..n]);
      ChunkThroughServer(cfg, Execute(s, cs, order[..n]), uid, cs[order[n]]);
    }
  }

  // ---------- write a batch, then read it back ----------

  /** The read that mirrors a write, with the same typing. */
  function ReadBack(w: WriteItem, cells: nat): ReadItem
  {
    match w
    case WriteHolding(start, _, d, wo, bo) => Holding(start, cells, AsNumbers(d), wo, bo, LsbFirst)
    case WriteCoils(start, _) => Coil(start, cells)
  }

  /** The values as written: in an integer type, a whole-valued float or a bool is its integer. */
  function WrittenValues(w: WriteItem): seq<Value>
  {
    match w
    case WriteHolding(_, numbers, d, _, _) => CoerceAll(numbers, d)
    case WriteCoils(_, coils) => seq(|coils|, i requires 0 <= i < |coils| => Truth(coils[i]))
  }

  function ReadBackAll(ws: seq<WriteItem>, ds: seq<WriteChunk>): (rs: seq<ReadItem>)
    requires |ws| == |ds|
    ensures |rs| == |ws|
  {
    seq(|ws|, i requires 0 <= i < |ws| => ReadBack(ws[i], |ds[i].cells|))
  }

  /** Every item lies in the 16-bit address space. */
  predicate InSpace(ds: seq<WriteChunk>)
  {
    forall i :: 0 <= i < |ds| ==> 0 <= ds[i].start && ds[i].start + |ds[i].cells| <= 0x1_0000
  }

  lemma CellsOfItem(w: WriteItem)
    requires ItemCells(w).Ok?
    ensures var cells := ItemCells(w).value;
            && |cells| >= 1
            && (if WriteArea(w).HoldingArea? then AreWords(cells) else forall i :: 0 <= i < |cells| ==> cells[i] == 0 || cells[i] == 1)
            && DecodeCellsOf(ReadBack(w, |cells|), cells) == Ok(WrittenValues(w))
            && ItemArea(ReadBack(w, |cells|)) == WriteArea(w)
  {
    match w
    case WriteHolding(_, numbers, d, wo, bo) =>
      DecodeAfterEncode(numbers, d, wo, bo);
    case WriteCoils(_, coils) =>
      var cells := AsCells(coils);
      assert Truths(cells) == WrittenValues(w);
  }

  /** The cells of every planned chunk are of its area's kind, and few enough for one request. */
  lemma ChunkCells(ws: seq<WriteItem>, ds: seq<WriteChunk>, cs: seq<WriteChunk>, k: nat)
    requires Direct(ws) == Ok(ds) && WritePlanOk(ds, cs) && k < |cs|
    ensures 0 <= cs[k].start <= 0xFFFF ==> Sendable(cs[k])
    ensures cs[k].item < |ds| && SliceOf(cs[k], ds[cs[k].item])
  {
    hide Direct, ItemCells, DecodeCellsOf, HeldFor, PlanBefore;
    var c, i := cs[k], cs[k].item;
    assert SliceOf(c, ds[i]);
    DirectItems(ws);
    CellsOfItem(ws[i]);
    assert forall j :: 0 <= j < |c.cells| ==> c.cells[j] == ds[i].cells[c.start - ds[i].start + j];
  }

  lemma PlanIsSendable(ws: seq<WriteItem>, ds: seq<WriteChunk>, cs: seq<WriteChunk>)
    requires Direct(ws) == Ok(ds) && InSpace(ds) && WritePlanOk(ds, cs)
    ensures forall k :: 0 <= k < |cs| ==> Sendable(cs[k])
  {
    hide Direct, ItemCells, InSpace, Sendable, WritePlanOk, SliceOf;
    forall k | 0 <= k < |cs|
      ensures Sendable(cs[k])
    {
      ChunkIsSendable(ws, ds, cs, k);
    }
  }

  lemma ChunkIsSendable(ws: seq<WriteItem>, ds: seq<WriteChunk>, cs: seq<WriteChunk>, k: nat)
    requires Direct(ws) == Ok(ds) && InSpace(ds) && WritePlanOk(ds, cs) && k < |cs|
    ensures Sendable(cs[k])
  {
    hide Direct, Sendable, WritePlanOk;
    ChunkCells(ws, ds, cs, k);
  }

  /** Every item has a chunk. */
  lemma SomeChunk(ws: seq<WriteItem>, ds: seq<WriteChunk>, cs: seq<WriteChunk>, i: nat) returns (k: nat)
    requires Direct(ws) == Ok(ds) && WritePlanOk(ds, cs) && i < |ws|
    ensures k < |cs| && cs[k].item == i
  {
    hide Direct, ItemCells;
    DirectItems(ws);
    CellsOfItem(ws[i]);
    assert Holds(ds[i], ds[i].area, ds[i].start);
    assert HeldFor(cs, i, ds[i].area, ds[i].start);
    k :| 0 <= k < |cs| && cs[k].item == i;
  }

  // ---------- a server that refuses writes ----------

  /** The code with which a request is refused that changes nothing: illegal function from a
      read-only server, gateway target failed from one with another unit id. */
  function RefusedWith(cfg: SimConfig, uid: byte): byte
  {
    if Addressed(cfg.unitId, uid) then 1 else 11
  }

  lemma ChunkRefused(cfg: SimConfig, s: Store, uid: byte, c: WriteChunk)
    requires !Reaches(cfg, uid) && Sendable(c)
    ensures EncodeWriteChunk(c).Ok? && After(cfg, s, uid, EncodeWriteChunk(c).value) == s
    ensures ExecuteWriteChunk(c, Device(cfg, s, uid)) == Some(ExceptionResponse(RefusedWith(cfg, uid)))
  {
    hide EncodeWriteChunk, ParseWrite, EncodeResponse, DecodeEcho, WriteFc;
    ChunkParses(c);
    WriteChunkVerdict(c, Device(cfg, s, uid));
    Unasked(SimCallbacks(cfg, s), uid, EncodeWriteChunk(c).value);
  }

  lemma {:induction false} AllFailAlike(cs: seq<WriteChunk>, errs: seq<Option<Error>>, i: nat, e: Error)
    requires |errs| == |cs| && forall k :: 0 <= k < |cs| ==> errs[k] == Some(e)
    ensures FirstErrorOf(cs, errs, i).Some? ==> FirstErrorOf(cs, errs, i) == Some(e)
  {
    if cs != [] {
      var n := |cs| - 1;
      AllFailAlike(cs[..n], errs[..n], i, e);
    }
  }

  /** A batch sent to a server that may not be written to, or to a unit that is not there: every
      item is reported failed with the server's refusal, in whatever state the server is when a
      chunk arrives, and whatever the order and repetition of the chunks, nothing changes. */
  lemma RefusedBatch(cfg: SimConfig, s: Store, uid: byte, ws: seq<WriteItem>, cs: seq<WriteChunk>, order: seq<nat>,
                     stores: nat -> Store, errs: seq<Option<Error>>)
    requires !Reaches(cfg, uid) && Direct(ws).Ok? && InSpace(Direct(ws).value) && WritePlanOk(Direct(ws).value, cs)
    requires forall i :: 0 <= i < |order| ==> order[i] < |cs|
    requires |errs| == |cs| && forall k :: 0 <= k < |cs| ==> errs[k] == ExecuteWriteChunk(cs[k], Device(cfg, stores(k), uid))
    ensures forall i :: 0 <= i < |ws| ==> FirstErrorOf(cs, errs, i) == Some(ExceptionResponse(RefusedWith(cfg, uid)))
    ensures forall k :: 0 <= k < |cs| ==> EncodeWriteChunk(cs[k]).Ok?
    ensures SendAll(cfg, s, uid, cs, order) == s
  {
    hide *;
    var ds := Direct(ws).value;
    PlanIsSendable(ws, ds, cs);
    forall k | 0 <= k < |cs|
      ensures errs[k] == Some(ExceptionResponse(RefusedWith(cfg, uid))) && EncodeWriteChunk(cs[k]).Ok?
    {
      ChunkRefused(cfg, stores(k), uid, cs[k]);
    }
    forall i | 0 <= i < |ws|
      ensures FirstErrorOf(cs, errs, i) == Some(ExceptionResponse(RefusedWith(cfg, uid)))
    {
      var k := SomeChunk(ws, ds, cs, i);
      FailsIffOwnChunkFails(cs, errs, i);
      AllFailAlike(cs, errs, i, ExceptionResponse(RefusedWith(cfg, uid)));
    }
    SendRefused(cfg, s, uid, cs, order);
  }

  lemma {:induction false} SendRefused(cfg: SimConfig, s: Store, uid: byte, cs: seq<WriteChunk>, order: seq<nat>)
    requires !Reaches(cfg, uid) && forall k :: 0 <= k < |cs| ==> Sendable(cs[k]) && EncodeWriteChunk(cs[k]).Ok?
    requires forall i :: 0 <= i < |order| ==> order[i] < |cs|
    ensures SendAll(cfg, s, uid, cs, order) == s
    decreases |order|
  {
    hide Sendable, EncodeWriteChunk, After, Reaches;
    if order != [] {
      var n := |order| - 1;
      SendRefused(cfg, s, uid, cs, order[..n]);
      ChunkRefused(cfg, s, uid, cs[order[n]]);
    }
  }

  /** Device memory as the planner's theorem wants it: a total function. */
  function MemoryOf(s: Store): (Area, int) -> int
  {
    (area: Area, a: int) => if a in Table(s, area) then Table(s, area)[a] else 0
  }

  /** The store holds every item's cells. */
  ghost predicate HoldsItems(t: Store, ds: seq<WriteChunk>)
  {
    forall i, a :: 0 <= i < |ds| && Holds(ds[i], ds[i].area, a) ==>
      CellAt(t, ds[i].area, a) == Some(ValueAt(ds[i], a))
  }

  lemma DirectHoldsItems(s: Store, ds: seq<WriteChunk>)
    requires Consistent(ds)
    ensures HoldsItems(Execute(s, ds, Identity(|ds|)), ds)
  {
    hide CellAt, Execute, ValueAt;
    var id := Identity(|ds|);
    forall i, a | 0 <= i < |ds| && Holds(ds[i], ds[i].area, a)
      ensures CellAt(Execute(s, ds, id), ds[i].area, a) == Some(ValueAt(ds[i], a))
    {
      ExecuteLookup(s, ds, id, ds[i].area, a);
      assert id[i] == i && i in id;
      var w := Writer(ds, id, ds[i].area, a).value;
      SameValue(ds[w], ds[i], ds[i].area, a);
    }
  }

  /** A read request for cells that are all mapped, and of their area's kind, returns them. */
  lemma ReadChunkThroughServer(cfg: SimConfig, t: Store, uid: byte, c: Chunk)
    requires Addressed(cfg.unitId, uid)
    requires EncodeRead(c.area, c.start, c.count).Ok?
    requires forall a :: c.start <= a < c.start + c.count ==>
               CellAt(t, c.area, a).Some? && CellKind(c.area, CellAt(t, c.area, a).value)
    ensures ExecuteChunk(c, Device(cfg, t, uid)) == Ok(Cells(MemoryOf(t), c.area, c.start, c.count))
  {
    var cb, m := SimCallbacks(cfg, t), Table(t, c.area);
    forall a | c.start <= a < c.start + c.count
      ensures a in m
    {
      assert CellAt(t, c.area, a).Some?;
    }
    var vs := Lookup(m, c.start, c.count);
    assert vs == Cells(MemoryOf(t), c.area, c.start, c.count);
    forall i | 0 <= i < |vs|
      ensures CellKind(c.area, vs[i])
    {
      assert CellAt(t, c.area, c.start + i) == Some(vs[i]);
    }
    assert cb.onRead(c.area, c.start, c.count) == Values(vs);
    ReadAgreement(cb, uid, c.area, c.start, c.count);
    SeenUnchanged(c.area, vs);
  }

  /** A read request that meets an unmapped address fails with illegal data address. */
  lemma UnmappedChunkFails(cfg: SimConfig, t: Store, uid: byte, c: Chunk, a: int)
    requires Addressed(cfg.unitId, uid) && EncodeRead(c.area, c.start, c.count).Ok?
    requires c.start <= a < c.start + c.count && CellAt(t, c.area, a).None?
    ensures ExecuteChunk(c, Device(cfg, t, uid)) == Err(ExceptionResponse(2))
  {
    hide EncodeResponse, DecodeCells, Dispatch;
    ReadChunkAgreement(SimCallbacks(cfg, t), uid, c);
  }

  predicate CellKind(area: Area, v: int)
  {
    if IsBitArea(area) then v == 0 || v == 1 else 0 <= v <= 0xFFFF
  }

  lemma SeenUnchanged(area: Area, vs: seq<int>)
    requires forall i :: 0 <= i < |vs| ==> CellKind(area, vs[i])
    ensures SeenByClient(area, |vs|, Values(vs)) == Ok(vs)
  {
    assert IsBitArea(area) ==> seq(|vs|, i requires 0 <= i < |vs| => if vs[i] != 0 then 1 else 0) == vs;
  }

  /** The chunk asks for an address that the simulator does not map. */
  predicate HitsUnmapped(t: Store, c: Chunk)
  {
    exists a :: c.start <= a < c.start + c.count && CellAt(t, c.area, a).None?
  }

  /** Every mapped cell is of its area's kind. */
  ghost predicate KindsOk(t: Store)
  {
    forall area, a :: CellAt(t, area, a).Some? ==> CellKind(area, CellAt(t, area, a).value)
  }

  ghost predicate RequestsInSpace(items: seq<ReadItem>)
  {
    forall area, a :: Requested(items, area, a) ==> 0 <= a <= 0xFFFF
  }

  lemma PlannedChunk(cfg: SimConfig, t: Store, uid: byte, items: seq<ReadItem>, plan: seq<Chunk>, i: nat)
    requires Addressed(cfg.unitId, uid) && PlanOk(items, plan) && RequestsInSpace(items) && KindsOk(t) && i < |plan|
    ensures plan[i].count >= 1
    ensures ExecuteChunk(plan[i], Device(cfg, t, uid))
            == if HitsUnmapped(t, plan[i]) then Err(ExceptionResponse(2))
               else Ok(Cells(MemoryOf(t), plan[i].area, plan[i].start, plan[i].count))
  {
    hide CellAt, ExecuteChunk, Cells, Device;
    var c := plan[i];
    assert InChunk(c, c.area, c.start);
    assert Reads(plan, c.area, c.start);
    if HitsUnmapped(t, c) {
      var a :| c.start <= a < c.start + c.count && CellAt(t, c.area, a).None?;
      UnmappedChunkFails(cfg, t, uid, c, a);
    } else {
      ReadChunkThroughServer(cfg, t, uid, c);
    }
  }

  /** Among the failed chunks of an item there is a lowest. */
  lemma LowestFailed(crs: seq<ChunkResult>, item: ReadItem, some: nat) returns (i: nat)
    requires some < |crs| && Touches(crs[some].chunk, item) && crs[some].outcome.Err?
    ensures i < |crs| && Touches(crs[i].chunk, item) && crs[i].outcome.Err?
    ensures forall j :: 0 <= j < |crs| && Touches(crs[j].chunk, item) && crs[j].outcome.Err? ==> crs[i].chunk.start <= crs[j].chunk.start
  {
    hide Touches;
    i := some;
    for k := 0 to |crs|
      invariant i < |crs| && Touches(crs[i].chunk, item) && crs[i].outcome.Err?
      invariant forall j :: 0 <= j < k && Touches(crs[j].chunk, item) && crs[j].outcome.Err? ==> crs[i].chunk.start <= crs[j].chunk.start
    {
      if Touches(crs[k].chunk, item) && crs[k].outcome.Err? && crs[k].chunk.start < crs[i].chunk.start {
        i := k;
      }
    }
  }

  /** A batch read from the simulator, item by item. An item fails with illegal data address exactly
      when one of the requests that carry it meets an unmapped address, its own or a neighbour's;
      otherwise it means its own cells. */
  lemma SimulatorAnswersItem(cfg: SimConfig, t: Store, uid: byte, items: seq<ReadItem>, plan: seq<Chunk>, k: nat, area: Area)
    requires Addressed(cfg.unitId, uid) && PlanOk(items, plan) && RequestsInSpace(items) && KindsOk(t)
    requires k < |items| && items[k].count >= 1 && About(items[k], area)
    ensures var outcome := ItemOutcome(items[k], ExecuteAll(plan, Device(cfg, t, uid)));
            if exists i :: 0 <= i < |plan| && Touches(plan[i], items[k]) && HitsUnmapped(t, plan[i]) then
              outcome == Err(ExceptionResponse(2))
            else Means(items[k], seq(items[k].count, j => MemoryOf(t)(area, items[k].start + j)), outcome)
  {
    hide ExecuteChunk, ItemOutcome, Means, Touches, PlanOk, KindsOk, RequestsInSpace, HitsUnmapped, Cells, Device;
    var crs := ExecuteAll(plan, Device(cfg, t, uid));
    forall i | 0 <= i < |plan|
      ensures plan[i].count >= 1 && crs[i].chunk == plan[i]
      ensures crs[i].outcome == if HitsUnmapped(t, plan[i]) then Err(ExceptionResponse(2))
                                else Ok(Cells(MemoryOf(t), plan[i].area, plan[i].start, plan[i].count))
    {
      PlannedChunk(cfg, t, uid, items, plan, i);
    }
    ReadPreservesMeaning(items, plan, crs, MemoryOf(t), k, area);
    if i :| 0 <= i < |plan| && Touches(plan[i], items[k]) && HitsUnmapped(t, plan[i]) {
      var low := LowestFailed(crs, items[k], i);
    }
  }

  /** Every chunk of the read plan lies in the address space and finds its cells. */
  lemma ReadPlanSucceeds(cfg: SimConfig, t: Store, uid: byte, ws: seq<WriteItem>, ds: seq<WriteChunk>, rs: seq<ReadItem>, cs: seq<Chunk>, k: nat)
    requires Addressed(cfg.unitId, uid)
    requires Direct(ws) == Ok(ds) && InSpace(ds) && HoldsItems(t, ds)
    requires rs == ReadBackAll(ws, ds) && PlanOk(rs, cs) && k < |cs|
    ensures ExecuteChunk(cs[k], Device(cfg, t, uid))
            == Ok(Cells(MemoryOf(t), cs[k].area, cs[k].start, cs[k].count))
  {
    var c := cs[k];
    hide CellAt, ItemCells, ReadBack;
    forall a | c.start <= a < c.start + c.count
      ensures 0 <= a <= 0xFFFF && CellAt(t, c.area, a).Some? && CellKind(c.area, CellAt(t, c.area, a).value)
    {
      assert InChunk(c, c.area, a);
      assert Reads(cs, c.area, a);
      RequestedCell(t, ws, ds, rs, c.area, a);
    }
    assert CellAt(t, c.area, c.start).Some? && 0 <= c.start <= 0xFFFF;
    ReadChunkThroughServer(cfg, t, uid, c);
  }

  lemma RequestedCell(t: Store, ws: seq<WriteItem>, ds: seq<WriteChunk>, rs: seq<ReadItem>, area: Area, a: int)
    requires Direct(ws) == Ok(ds) && InSpace(ds) && HoldsItems(t, ds)
    requires rs == ReadBackAll(ws, ds) && Requested(rs, area, a)
    ensures 0 <= a <= 0xFFFF && CellAt(t, area, a).Some? && CellKind(area, CellAt(t, area, a).value)
  {
    hide CellAt, ItemCells;
    var i :| 0 <= i < |rs| && ItemArea(rs[i]) == area && rs[i].start <= a < rs[i].start + rs[i].count;
    DirectItems(ws);
    CellsOfItem(ws[i]);
    assert Holds(ds[i], ds[i].area, a);
    assert ValueAt(ds[i], a) == ds[i].cells[a - ds[i].start];
  }

  /** The whole trip. For any batch of encodable writes in the address space that agree where they
      overlap, any order and repetition of the planned chunks, and any device memory: every chunk
      succeeds; a batch read with the same typing, under whatever plan, then returns exactly the
      values written; and no other address of any area has changed. */
  lemma WriteThenRead(cfg: SimConfig, s: Store, uid: byte, ws: seq<WriteItem>, cs: seq<WriteChunk>, order: seq<nat>, rs: seq<ReadItem>, plan: seq<Chunk>)
    requires Reaches(cfg, uid)
    requires Direct(ws).Ok? && InSpace(Direct(ws).value) && Consistent(Direct(ws).value)
    requires WritePlanOk(Direct(ws).value, cs) && Complete(cs, order)
    requires rs == ReadBackAll(ws, Direct(ws).value) && PlanOk(rs, plan)
    ensures forall k :: 0 <= k < |cs| ==> EncodeWriteChunk(cs[k]).Ok?
    ensures forall k, now: Store :: 0 <= k < |cs| ==> ExecuteWriteChunk(cs[k], Device(cfg, now, uid)) == None
    ensures var t := SendAll(cfg, s, uid, cs, order);
            var crs := ExecuteAll(plan, Device(cfg, t, uid));
            && (forall i :: 0 <= i < |ws| ==> ItemOutcome(rs[i], crs) == Ok(WrittenValues(ws[i])))
            && (forall area, a :: !Requested(rs, area, a) ==> CellAt(t, area, a) == CellAt(s, area, a))
  {
    assert Addressed(cfg.unitId, uid);
    hide *;
    var ds := Direct(ws).value;
    PlanIsSendable(ws, ds, cs);
    OrderInBounds(cs, order);
    SendAllIsExecute(cfg, s, uid, cs, order);
    OrderIndependent(s, ds, cs, order);
    DirectHoldsItems(s, ds);
    var t := SendAll(cfg, s, uid, cs, order);
    forall k, now: Store | 0 <= k < |cs|
      ensures ExecuteWriteChunk(cs[k], Device(cfg, now, uid)) == None
    {
      ChunkThroughServer(cfg, now, uid, cs[k]);
    }
    forall i | 0 <= i < |ws|
      ensures ItemOutcome(rs[i], ExecuteAll(plan, Device(cfg, t, uid))) == Ok(WrittenValues(ws[i]))
    {
      ReadBackItem(cfg, t, uid, ws, ds, rs, plan, i);
    }
    forall area, a | !Requested(rs, area, a)
      ensures CellAt(t, area, a) == CellAt(s, area, a)
    {
      Untouched(s, ws, ds, rs, area, a);
    }
  }

  lemma OrderInBounds(cs: seq<WriteChunk>, order: seq<nat>)
    requires Complete(cs, order)
    ensures forall i :: 0 <= i < |order| ==> order[i] < |cs|
  {}

  lemma ReadBackItem(cfg: SimConfig, t: Store, uid: byte, ws: seq<WriteItem>, ds: seq<WriteChunk>, rs: seq<ReadItem>, plan: seq<Chunk>, i: nat)
    requires Addressed(cfg.unitId, uid)
    requires Direct(ws) == Ok(ds) && InSpace(ds) && HoldsItems(t, ds) && i < |ws|
    requires rs == ReadBackAll(ws, ds) && PlanOk(rs, plan)
    ensures ItemOutcome(rs[i], ExecuteAll(plan, Device(cfg, t, uid))) == Ok(WrittenValues(ws[i]))
  {
    hide ItemOutcome, ItemCells, DecodeCellsOf, ExecuteChunk, Cells, Direct, PlanOk, Respond;
    var exec := Device(cfg, t, uid);
    var crs, mem := ExecuteAll(plan, exec), MemoryOf(t);
    forall k | 0 <= k < |plan|
      ensures plan[k].count >= 1
      ensures ExecuteChunk(plan[k], exec) == Ok(Cells(mem, plan[k].area, plan[k].start, plan[k].count))
    {
      ReadPlanSucceeds(cfg, t, uid, ws, ds, rs, plan, k);
      PlanCounts(rs, plan, k);
    }
    DirectItems(ws);
    CellsOfItem(ws[i]);
    BatchedAsAlone(rs, plan, crs, mem, i);
    ItemMemory(t, ws, ds, i);
  }

  lemma PlanCounts(rs: seq<ReadItem>, plan: seq<Chunk>, k: nat)
    requires PlanOk(rs, plan) && k < |plan|
    ensures plan[k].count >= 1
  {}

  lemma ItemMemory(t: Store, ws: seq<WriteItem>, ds: seq<WriteChunk>, i: nat)
    requires HoldsItems(t, ds) && i < |ds|
    ensures Cells(MemoryOf(t), ds[i].area, ds[i].start, |ds[i].cells|) == ds[i].cells
  {
    forall j | 0 <= j < |ds[i].cells|
      ensures MemoryOf(t)(ds[i].area, ds[i].start + j) == ds[i].cells[j]
    {
      assert Holds(ds[i], ds[i].area, ds[i].start + j);
      assert ValueAt(ds[i], ds[i].start + j) == ds[i].cells[j];
    }
  }

  lemma Untouched(s: Store, ws: seq<WriteItem>, ds: seq<WriteChunk>, rs: seq<ReadItem>, area: Area, a: int)
    requires Direct(ws) == Ok(ds) && rs == ReadBackAll(ws, ds) && !Requested(rs, area, a)
    ensures CellAt(Execute(s, ds, Identity(|ds|)), area, a) == CellAt(s, area, a)
  {
    hide CellAt, Execute, ItemCells;
    DirectItems(ws);
    ExecuteLookup(s, ds, Identity(|ds|), area, a);
    forall i | 0 <= i < |ds|
      ensures !Holds(ds[i], area, a)
    {
      CellsOfItem(ws[i]);
      assert ItemArea(rs[i]) == ds[i].area && rs[i].start == ds[i].start && rs[i].count == |ds[i].cells|;
    }
  }
}
