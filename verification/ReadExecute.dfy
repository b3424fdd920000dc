/**
  Executing a read plan and slicing the chunk results back into per-item answers,
  src/pymod/planner.py. The main theorem, ReadPreservesMeaning, says that batching is
  invisible: an item gets what it would have got alone.
 */
module ReadExecute {
  import opened Basics
  import opened Errors
  import opened Pdu
  import opened RegisterCodec
  import opened BitExtraction
  import opened ReadPlan

  /** Cells are Python ints; a coil is 0 or 1. */
  datatype ChunkResult = ChunkResult(chunk: Chunk, outcome: Result<seq<int>, Error>)

  datatype ReadResult = ReadResult(item: ReadItem, outcome: Result<seq<Value>, Error>)

  // ---------- executing one chunk ----------

  /** ValueError escapes from the chunk; every other error is recorded in its result. */
  function ExecuteChunk(c: Chunk, exec: seq<byte> -> Result<seq<byte>, Error>): Result<seq<int>, Error>
  {
    var req :- EncodeRead(c.area, c.start, c.count);
    var resp :- exec(req);
    DecodeCells(c.area, resp, c.count)
  }

  // ---------- one item ----------

  predicate Overlaps(c: Chunk, item: ReadItem)
  {
    && c.area == ItemArea(item)
    && c.start < item.start + item.count
    && c.start + c.count > item.start
  }

  function Covering(crs: seq<ChunkResult>, item: ReadItem): seq<ChunkResult>
  {
    if crs == [] then []
    else (if Overlaps(crs[0].chunk, item) then [crs[0]] else []) + Covering(crs[1..], item)
  }

  function InsertByStart(r: ChunkResult, rs: seq<ChunkResult>): seq<ChunkResult>
  {
    if rs == [] || r.chunk.start <= rs[0].chunk.start then [r] + rs else [rs[0]] + InsertByStart(r, rs[1..])
  }

  /** The stable sort by starting address. */
  function SortByStart(rs: seq<ChunkResult>): seq<ChunkResult>
  {
    if rs == [] then [] else InsertByStart(rs[0], SortByStart(rs[1..]))
  }

  function FirstError(rs: seq<ChunkResult>): Option<Error>
  {
    if rs == [] then None
    else if rs[0].outcome.Err? then Some(rs[0].outcome.error)
    else FirstError(rs[1..])
  }

  function FlatValues(rs: seq<ChunkResult>): seq<int>
    requires FirstError(rs).None?
  {
    if rs == [] then [] else rs[0].outcome.value + FlatValues(rs[1..])
  }

  /** Python's s[lo:hi]: negative bounds count from the end, everything is clamped. */
  function PySlice<T>(s: seq<T>, lo: int, hi: int): seq<T>
  {
    var a, b := PyBound(lo, |s|), PyBound(hi, |s|);
    if a <= b then s[a..b] else []
  }

  function PyBound(i: int, n: nat): (b: nat)
    ensures b <= n
  {
    if i < 0 then Max(0, i + n) else Min(i, n)
  }

  /** Interpreting the raw cells of one item. A decoding error fails the item, not the batch. */
  function DecodeCellsOf(item: ReadItem, cells: seq<int>): Result<seq<Value>, Error>
  {
    match item
    case Coil(_, _) => Ok(Truths(cells))
    case Discrete(_, _) => Ok(Truths(cells))
    case Holding(_, _, reading, wo, bo, numbering) => DecodeRegisterItem(reading, wo, bo, numbering, cells)
    case Input(_, _, reading, wo, bo, numbering) => DecodeRegisterItem(reading, wo, bo, numbering, cells)
  }

  function Truths(cells: seq<int>): seq<Value>
  {
    seq(|cells|, i requires 0 <= i < |cells| => Truth(cells[i] != 0))
  }

  function DecodeRegisterItem(reading: Reading, wo: Order, bo: Order, numbering: Numbering, regs: seq<int>): Result<seq<Value>, Error>
  {
    match reading
    case AsNumbers(d) =>
      var r := DecodeRegisters(regs, d, wo, bo);
      if r.Err? then Err(ModbusError) else r
    case AsBit(Some(index)) =>
      var r := ExtractBit(regs, index, wo, bo, numbering);
      if r.Err? then Err(ModbusError) else Ok([Truth(r.value)])
    case AsBits(Some(indices)) =>
      var r := ExtractBits(regs, indices, wo, bo, numbering);
      if r.Err? then Err(ModbusError) else Ok(seq(|r.value|, i requires 0 <= i < |r.value| => Truth(r.value[i])))
    case _ => Err(ModbusError)  // excluded by validation
  }

  /** What `_decode_read_item` returns, as a function. */
  function ItemOutcome(item: ReadItem, crs: seq<ChunkResult>): Result<seq<Value>, Error>
  {
    var covering := SortByStart(Covering(crs, item));
    if covering == [] then Err(ModbusError)
    else
      var e := FirstError(covering);
      if e.Some? then Err(e.value)
      else
        var rel := item.start - covering[0].chunk.start;
        DecodeCellsOf(item, PySlice(FlatValues(covering), rel, rel + item.count))
  }

  /** The error scan over the covering chunks. */
  method ScanForError(rs: seq<ChunkResult>) returns (e: Option<Error>)
    ensures e == FirstError(rs)
  {
    assert rs[0..] == rs;
    for k := 0 to |rs|
      invariant FirstError(rs) == FirstError(rs[k..])
    {
      assert rs[k..][0] == rs[k] && rs[k..][1..] == rs[k + 1..];
      if rs[k].outcome.Err? {
        return Some(rs[k].outcome.error);
      }
    }
    e := None;
  }

  /** The loop that joins the values of the covering chunks. */
  method JoinValues(rs: seq<ChunkResult>) returns (flat: seq<int>)
    requires FirstError(rs).None?
    ensures flat == FlatValues(rs)
  {
    flat := [];
    NoErrorMeansOk(rs);
    assert rs[0..] == rs;
    for i := 0 to |rs|
      invariant FirstError(rs[i..]).None?
      invariant FlatValues(rs) == flat + FlatValues(rs[i..])
    {
      assert rs[i..][0] == rs[i] && rs[i..][1..] == rs[i + 1..];
      flat := flat + rs[i].outcome.value;
    }
  }

  method DecodeReadItem(item: ReadItem, crs: seq<ChunkResult>) returns (r: ReadResult)
    ensures r == ReadResult(item, ItemOutcome(item, crs))
  {
    hide SortByStart, Covering, FirstError, FlatValues, DecodeCellsOf, PySlice;
    var covering := SortByStart(Covering(crs, item));
    if |covering| == 0 {
      return ReadResult(item, Err(ModbusError));
    }
    var e := ScanForError(covering);
    if e.Some? {
      return ReadResult(item, Err(e.value));
    }
    var flat := JoinValues(covering);
    var rel := item.start - covering[0].chunk.start;
    r := ReadResult(item, DecodeCellsOf(item, PySlice(flat, rel, rel + item.count)));
  }

  lemma {:induction false} NoErrorMeansOk(rs: seq<ChunkResult>)
    ensures FirstError(rs).None? <==> forall i :: 0 <= i < |rs| ==> rs[i].outcome.Ok?
  {
    if rs != [] {
      NoErrorMeansOk(rs[1..]);
      assert forall i :: 0 < i < |rs| ==> rs[i] == rs[1..][i - 1];
    }
  }

  // ---------- the covering chunks tile the item ----------

  predicate ResultsInOrder(crs: seq<ChunkResult>)
  {
    && (forall i :: 0 <= i < |crs| ==> crs[i].chunk.count >= 1)
    && forall i, j :: 0 <= i < j < |crs| ==> Precedes(crs[i].chunk, crs[j].chunk)
  }

  lemma {:induction false} CoveringMembers(crs: seq<ChunkResult>, item: ReadItem)
    ensures forall r :: r in Covering(crs, item) <==> r in crs && Overlaps(r.chunk, item)
  {
    hide Overlaps;
    if crs != [] {
      CoveringMembers(crs[1..], item);
      assert crs == [crs[0]] + crs[1..];
    }
  }

  lemma {:induction false} CoveringInOrder(crs: seq<ChunkResult>, item: ReadItem)
    requires ResultsInOrder(crs)
    ensures ResultsInOrder(Covering(crs, item))
  {
    hide Precedes, Overlaps;
    if crs != [] {
      var c, tail := crs[0], crs[1..];
      var rest := Covering(tail, item);
      CoveringInOrder(tail, item);
      CoveringMembers(tail, item);
      forall i | 0 <= i < |rest|
        ensures Precedes(c.chunk, rest[i].chunk)
      {
        assert rest[i] in tail;
        var j :| 0 <= j < |tail| && tail[j] == rest[i];
        assert crs[j + 1] == tail[j];
      }
      ConsInOrder(c, rest);
    }
  }

  lemma ConsInOrder(c: ChunkResult, rest: seq<ChunkResult>)
    requires ResultsInOrder(rest) && c.chunk.count >= 1
    requires forall i :: 0 <= i < |rest| ==> Precedes(c.chunk, rest[i].chunk)
    ensures ResultsInOrder([c] + rest)
    ensures [] + rest == rest
  {
    hide Precedes;
    var t := [c] + rest;
    assert forall i :: 0 < i < |t| ==> t[i] == rest[i - 1];
  }

  lemma CoveringProps(crs: seq<ChunkResult>, item: ReadItem)
    requires ResultsInOrder(crs)
    ensures forall r :: r in Covering(crs, item) <==> r in crs && Overlaps(r.chunk, item)
    ensures ResultsInOrder(Covering(crs, item))
  {
    CoveringMembers(crs, item);
    CoveringInOrder(crs, item);
  }

  lemma OrderAt(rs: seq<ChunkResult>, area: Area, i: nat, j: nat)
    requires ResultsInOrder(rs) && i <= j < |rs|
    requires forall k :: 0 <= k < |rs| ==> rs[k].chunk.area == area
    ensures rs[i].chunk.start <= rs[j].chunk.start
    ensures rs[i].chunk.start + rs[i].chunk.count <= rs[j].chunk.start + rs[j].chunk.count
    ensures i < j ==> rs[i].chunk.start + rs[i].chunk.count <= rs[j].chunk.start
  {}

  lemma {:induction false} SortIdentity(rs: seq<ChunkResult>)
    requires forall i, j :: 0 <= i < j < |rs| ==> rs[i].chunk.start <= rs[j].chunk.start
    ensures SortByStart(rs) == rs
  {
    if rs != [] {
      SortIdentity(rs[1..]);
      assert rs == [rs[0]] + rs[1..];
      assert |rs| > 1 ==> rs[1..][0] == rs[1];
    }
  }

  /** Each chunk begins where the one before it ends. */
  predicate Contiguous(rs: seq<ChunkResult>)
  {
    forall i :: 0 <= i < |rs| - 1 ==> rs[i].chunk.start + rs[i].chunk.count == rs[i + 1].chunk.start
  }

  predicate Held(rs: seq<ChunkResult>, area: Area, x: int)
  {
    exists t :: 0 <= t < |rs| && InChunk(rs[t].chunk, area, x)
  }

  /** The chunks kept for an item still hold each of its addresses. */
  lemma CoveringHolds(item: ReadItem, crs: seq<ChunkResult>, x: int)
    requires ResultsInOrder(crs) && item.start <= x < item.start + item.count
    requires Held(crs, ItemArea(item), x)
    ensures Held(Covering(crs, item), ItemArea(item), x)
  {
    CoveringProps(crs, item);
    var t :| 0 <= t < |crs| && InChunk(crs[t].chunk, ItemArea(item), x);
    assert crs[t] in Covering(crs, item);
  }

  lemma CoveringTiles(item: ReadItem, crs: seq<ChunkResult>, cov: seq<ChunkResult>)
    requires ResultsInOrder(crs) && cov == Covering(crs, item) && item.count >= 1
    requires forall x :: item.start <= x < item.start + item.count ==> Held(crs, ItemArea(item), x)
    ensures cov != [] && Contiguous(cov) && SortByStart(cov) == cov
    ensures cov[0].chunk.start <= item.start
    ensures item.start + item.count <= cov[|cov| - 1].chunk.start + cov[|cov| - 1].chunk.count
  {
    hide Covering, SortByStart;
    CoveringProps(crs, item);
    assert forall i :: 0 <= i < |cov| ==> cov[i] in cov;
    forall x | item.start <= x < item.start + item.count
      ensures Held(cov, ItemArea(item), x)
    {
      CoveringHolds(item, crs, x);
    }
    Ends(item, cov);
    forall k | 0 <= k < |cov| - 1
      ensures cov[k].chunk.start + cov[k].chunk.count == cov[k + 1].chunk.start
    {
      NoGap(item, cov, k);
    }
    SortIdentity(cov);
  }

  lemma Ends(item: ReadItem, cov: seq<ChunkResult>)
    requires ResultsInOrder(cov) && item.count >= 1
    requires forall i :: 0 <= i < |cov| ==> Overlaps(cov[i].chunk, item)
    requires forall x :: item.start <= x < item.start + item.count ==> Held(cov, ItemArea(item), x)
    ensures cov != [] && cov[0].chunk.start <= item.start
    ensures item.start + item.count <= cov[|cov| - 1].chunk.start + cov[|cov| - 1].chunk.count
  {
    assert Held(cov, ItemArea(item), item.start) && Held(cov, ItemArea(item), item.start + item.count - 1);
    var first :| 0 <= first < |cov| && InChunk(cov[first].chunk, ItemArea(item), item.start);
    var last :| 0 <= last < |cov| && InChunk(cov[last].chunk, ItemArea(item), item.start + item.count - 1);
    OrderAt(cov, ItemArea(item), 0, first);
    OrderAt(cov, ItemArea(item), last, |cov| - 1);
  }

  lemma NoGap(item: ReadItem, cov: seq<ChunkResult>, k: nat)
    requires ResultsInOrder(cov) && k + 1 < |cov|
    requires forall i :: 0 <= i < |cov| ==> Overlaps(cov[i].chunk, item)
    requires forall x :: item.start <= x < item.start + item.count ==> Held(cov, ItemArea(item), x)
    ensures cov[k].chunk.start + cov[k].chunk.count == cov[k + 1].chunk.start
  {
    var x := cov[k].chunk.start + cov[k].chunk.count;
    assert item.start < x <= cov[k + 1].chunk.start < item.start + item.count;
    assert Held(cov, ItemArea(item), x);
    var t :| 0 <= t < |cov| && InChunk(cov[t].chunk, ItemArea(item), x);
    assert t > k;
    OrderAt(cov, ItemArea(item), k + 1, t);
  }

  // ---------- meaning ----------

  /** `n` cells of an area of the device memory, from address `lo`. */
  function Cells(mem: (Area, int) -> int, area: Area, lo: int, n: nat): (s: seq<int>)
    ensures |s| == n
  {
    seq(n, i => mem(area, lo + i))
  }

  /** Each chunk either failed or brought back the memory it asked for. */
  ghost predicate FaithfulTo(crs: seq<ChunkResult>, mem: (Area, int) -> int)
  {
    forall i :: 0 <= i < |crs| && crs[i].outcome.Ok? ==>
      var c := crs[i].chunk;
      c.count >= 0 && crs[i].outcome.value == Cells(mem, c.area, c.start, c.count)
  }

  lemma {:induction false} FlatIsMemory(rs: seq<ChunkResult>, mem: (Area, int) -> int, area: Area)
    requires rs != [] && Contiguous(rs) && FaithfulTo(rs, mem) && FirstError(rs).None?
    requires forall i :: 0 <= i < |rs| ==> rs[i].chunk.area == area && rs[i].chunk.count >= 1
    ensures var n := rs[|rs| - 1].chunk.start + rs[|rs| - 1].chunk.count - rs[0].chunk.start;
            n >= 1 && FlatValues(rs) == Cells(mem, area, rs[0].chunk.start, n)
  {
    hide Cells;
    var c := rs[0].chunk;
    assert rs[0].outcome.value == Cells(mem, area, c.start, c.count);
    assert FlatValues(rs) == rs[0].outcome.value + FlatValues(rs[1..]);
    if |rs| > 1 {
      var t := rs[1..];
      assert forall i :: 0 <= i < |t| ==> t[i] == rs[i + 1];
      TailProps(rs, mem);
      FlatIsMemory(t, mem, area);
      hide *;
      CellsConcat(mem, area, c.start, c.count, t[|t| - 1].chunk.start + t[|t| - 1].chunk.count - t[0].chunk.start);
    } else {
      assert rs[0].outcome.value + [] == rs[0].outcome.value;
    }
  }

  lemma TailProps(rs: seq<ChunkResult>, mem: (Area, int) -> int)
    requires |rs| > 1 && Contiguous(rs) && FaithfulTo(rs, mem) && FirstError(rs).None?
    ensures Contiguous(rs[1..]) && FaithfulTo(rs[1..], mem) && FirstError(rs[1..]).None?
    ensures rs[0].chunk.start + rs[0].chunk.count == rs[1..][0].chunk.start
  {
    hide Cells;
    assert forall i :: 0 <= i < |rs[1..]| ==> rs[1..][i] == rs[i + 1];
  }

  lemma CellsConcat(mem: (Area, int) -> int, area: Area, lo: int, a: nat, b: nat)
    ensures Cells(mem, area, lo, a) + Cells(mem, area, lo + a, b) == Cells(mem, area, lo, a + b)
  {}

  /** Batching is invisible, in terms of the code's own decoder: an item for which nothing failed
      gets what the decoder makes of its own cells. */
  lemma BatchedAsAlone(items: seq<ReadItem>, cs: seq<Chunk>, crs: seq<ChunkResult>, mem: (Area, int) -> int, k: nat)
    requires PlanOk(items, cs) && k < |items| && items[k].count >= 1
    requires |crs| == |cs| && forall i :: 0 <= i < |cs| ==> crs[i].chunk == cs[i]
    requires FaithfulTo(crs, mem)
    ensures (forall i :: 0 <= i < |cs| && Overlaps(cs[i], items[k]) ==> crs[i].outcome.Ok?) ==>
              ItemOutcome(items[k], crs)
              == DecodeCellsOf(items[k], Cells(mem, ItemArea(items[k]), items[k].start, items[k].count))
    ensures forall i :: && 0 <= i < |cs| && Overlaps(cs[i], items[k]) && crs[i].outcome.Err?
                        && (forall j :: 0 <= j < |cs| && Overlaps(cs[j], items[k]) && crs[j].outcome.Err? ==>
                              cs[i].start <= cs[j].start)
                        ==> ItemOutcome(items[k], crs) == Err(crs[i].outcome.error)
  {
    var item, cov := items[k], Covering(crs, items[k]);
    assert ResultsInOrder(crs);
    forall x | item.start <= x < item.start + item.count
      ensures Held(crs, ItemArea(item), x)
    {
      assert Requested(items, ItemArea(item), x);
      assert Reads(cs, ItemArea(item), x);
      var i :| 0 <= i < |cs| && InChunk(cs[i], ItemArea(item), x);
      assert InChunk(crs[i].chunk, ItemArea(item), x);
    }
    CoveringTiles(item, crs, cov);
    CoveringProps(crs, item);
    NoErrorMeansOk(cov);
    if forall i :: 0 <= i < |cs| && Overlaps(cs[i], item) ==> crs[i].outcome.Ok? {
      CoveringFaithful(item, crs, cov, mem);
      MeaningWhenOk(item, crs, cov, mem);
    }
    forall i | && 0 <= i < |cs| && Overlaps(cs[i], item) && crs[i].outcome.Err?
               && (forall j :: 0 <= j < |cs| && Overlaps(cs[j], item) && crs[j].outcome.Err? ==> cs[i].start <= cs[j].start)
      ensures ItemOutcome(item, crs) == Err(crs[i].outcome.error)
    {
      assert crs[i] in cov;
      LowestErrorFirst(crs, cov, item, crs[i]);
    }
  }

  lemma MeaningWhenOk(item: ReadItem, crs: seq<ChunkResult>, cov: seq<ChunkResult>, mem: (Area, int) -> int)
    requires item.count >= 1 && cov == Covering(crs, item) && SortByStart(cov) == cov
    requires cov != [] && Contiguous(cov) && FaithfulTo(cov, mem) && FirstError(cov).None?
    requires forall i :: 0 <= i < |cov| ==> cov[i].chunk.area == ItemArea(item) && cov[i].chunk.count >= 1
    requires cov[0].chunk.start <= item.start
    requires item.start + item.count <= cov[|cov| - 1].chunk.start + cov[|cov| - 1].chunk.count
    ensures ItemOutcome(item, crs) == DecodeCellsOf(item, Cells(mem, ItemArea(item), item.start, item.count))
  {
    hide *;
    FlatSlice(cov, mem, ItemArea(item), item.start, item.count);
    OutcomeWithoutError(item, crs, cov);
  }

  lemma FlatSlice(rs: seq<ChunkResult>, mem: (Area, int) -> int, area: Area, start: int, count: nat)
    requires rs != [] && Contiguous(rs) && FaithfulTo(rs, mem) && FirstError(rs).None?
    requires forall i :: 0 <= i < |rs| ==> rs[i].chunk.area == area && rs[i].chunk.count >= 1
    requires rs[0].chunk.start <= start && start + count <= rs[|rs| - 1].chunk.start + rs[|rs| - 1].chunk.count
    ensures var rel := start - rs[0].chunk.start;
            PySlice(FlatValues(rs), rel, rel + count) == Cells(mem, area, start, count)
  {
    hide *;
    FlatIsMemory(rs, mem, area);
    var base := rs[0].chunk.start;
    CellsSlice(mem, area, base, rs[|rs| - 1].chunk.start + rs[|rs| - 1].chunk.count - base, start - base, count);
  }

  lemma OutcomeWithoutError(item: ReadItem, crs: seq<ChunkResult>, cov: seq<ChunkResult>)
    requires cov == Covering(crs, item) && SortByStart(cov) == cov && cov != [] && FirstError(cov).None?
    ensures var rel := item.start - cov[0].chunk.start;
            ItemOutcome(item, crs) == DecodeCellsOf(item, PySlice(FlatValues(cov), rel, rel + item.count))
  {
    hide Covering, SortByStart, FirstError, FlatValues, DecodeCellsOf, PySlice;
  }

  lemma CoveringFaithful(item: ReadItem, crs: seq<ChunkResult>, cov: seq<ChunkResult>, mem: (Area, int) -> int)
    requires cov == Covering(crs, item) && ResultsInOrder(crs) && FaithfulTo(crs, mem)
    requires forall i :: 0 <= i < |crs| && Overlaps(crs[i].chunk, item) ==> crs[i].outcome.Ok?
    ensures FaithfulTo(cov, mem) && FirstError(cov).None?
    ensures forall i :: 0 <= i < |cov| ==> cov[i].chunk.area == ItemArea(item) && cov[i].chunk.count >= 1
  {
    hide Covering;
    CoveringProps(crs, item);
    forall i | 0 <= i < |cov|
      ensures cov[i].outcome.Ok? && Overlaps(cov[i].chunk, item) && cov[i].chunk.count >= 1
      ensures cov[i].outcome.value == Cells(mem, cov[i].chunk.area, cov[i].chunk.start, cov[i].chunk.count)
    {
      assert cov[i] in cov;
      var j :| 0 <= j < |crs| && crs[j] == cov[i];
    }
    NoErrorMeansOk(cov);
  }

  lemma CellsSlice(mem: (Area, int) -> int, area: Area, base: int, n: nat, rel: nat, count: nat)
    requires rel + count <= n
    ensures PySlice(Cells(mem, area, base, n), rel, rel + count) == Cells(mem, area, base + rel, count)
  {}

  /** In a list sorted by address, the first error is the error of the lowest failed chunk. */
  lemma {:induction false} FirstErrorIsLowest(rs: seq<ChunkResult>, r: ChunkResult)
    requires r in rs && r.outcome.Err?
    requires forall i, j :: 0 <= i < j < |rs| ==> rs[i].chunk.start < rs[j].chunk.start
    requires forall s :: s in rs && s.outcome.Err? ==> r.chunk.start <= s.chunk.start
    ensures FirstError(rs) == Some(r.outcome.error)
  {
    if rs[0].outcome.Err? {
      assert rs[0] in rs;
      var i :| 0 <= i < |rs| && rs[i] == r;
    } else {
      assert r in rs[1..];
      FirstErrorIsLowest(rs[1..], r);
    }
  }

  lemma LowestErrorFirst(crs: seq<ChunkResult>, cov: seq<ChunkResult>, item: ReadItem, r: ChunkResult)
    requires ResultsInOrder(crs) && cov == Covering(crs, item) && SortByStart(cov) == cov && r in cov && r.outcome.Err?
    requires forall j :: 0 <= j < |crs| && Overlaps(crs[j].chunk, item) && crs[j].outcome.Err? ==> r.chunk.start <= crs[j].chunk.start
    ensures ItemOutcome(item, crs) == Err(r.outcome.error)
  {
    CoveringProps(crs, item);
    assert forall i :: 0 <= i < |cov| ==> cov[i] in cov;
    forall s | s in cov && s.outcome.Err?
      ensures r.chunk.start <= s.chunk.start
    {
      var j :| 0 <= j < |crs| && crs[j] == s;
    }
    FirstErrorIsLowest(cov, r);
  }

  // ---------- what the values of an item are ----------

  /** The bit that an index names, under the orders and the numbering given. */
  function BitNamed(regs: seq<int>, index: int, wo: Order, bo: Order, numbering: Numbering): bool
    requires 0 <= index < 16 * |regs| && AreWords(regs)
  {
    var n := |regs|;
    var (r, j) := BitHome(if numbering.LsbFirst? then index else 16 * n - 1 - index, n, wo, bo);
    Bit(regs[r], j) == 1
  }

  /** What registers mean under a reading. Numbers: exactly the values of the type that encode back
      to these registers, if there is a whole number of items. Bits: the bits named, if every index
      is inside the block. Anything else fails the item. */
  predicate MeansReading(reading: Reading, wo: Order, bo: Order, numbering: Numbering, regs: seq<int>, r: Result<seq<Value>, Error>)
  {
    match reading
    case AsNumbers(d) =>
      if AreWords(regs) && |regs| % RegsPerItem(d) == 0 then
        r.Ok? && (forall i :: 0 <= i < |r.value| ==> InRange(r.value[i], d)) && EncodeRegisters(r.value, d, wo, bo) == Ok(regs)
      else r == Err(ModbusError)
    case AsBit(Some(index)) =>
      if AreWords(regs) && 0 <= index < 16 * |regs| then r == Ok([Truth(BitNamed(regs, index, wo, bo, numbering))])
      else r == Err(ModbusError)
    case AsBits(Some(indices)) =>
      if AreWords(regs) && regs != [] && forall k :: 0 <= k < |indices| ==> 0 <= indices[k] < 16 * |regs| then
        r.Ok? && |r.value| == |indices|
        && forall k :: 0 <= k < |indices| ==> r.value[k] == Truth(BitNamed(regs, indices[k], wo, bo, numbering))
      else r == Err(ModbusError)
    case _ => r == Err(ModbusError)
  }

  /** What the cells of an item mean, in terms of encoding and of single bits, not of the decoder. */
  predicate Means(item: ReadItem, cells: seq<int>, r: Result<seq<Value>, Error>)
  {
    if item.Coil? || item.Discrete? then
      r.Ok? && |r.value| == |cells| && forall i :: 0 <= i < |cells| ==> r.value[i] == Truth(cells[i] != 0)
    else MeansReading(item.reading, item.wo, item.bo, item.numbering, cells, r)
  }

  /** The meaning leaves no choice. */
  lemma MeaningUnique(item: ReadItem, cells: seq<int>, q: Result<seq<Value>, Error>, r: Result<seq<Value>, Error>)
    requires Means(item, cells, q) && Means(item, cells, r)
    ensures q == r
  {
    hide BitNamed, EncodeRegisters, DecodeRegisters, InRange, RegsPerItem;
    if q.Ok? && r.Ok? {
      if (item.Holding? || item.Input?) && item.reading.AsNumbers? {
        CodecBijection(q.value, cells, item.reading.dtype, item.wo, item.bo);
        CodecBijection(r.value, cells, item.reading.dtype, item.wo, item.bo);
      } else {
        assert q.value == r.value;
      }
    }
  }

  /** The decoder computes the meaning. */
  lemma CellsMean(item: ReadItem, cells: seq<int>)
    ensures Means(item, cells, DecodeCellsOf(item, cells))
  {
    hide MeansReading, DecodeRegisterItem;
    if item.Holding? || item.Input? {
      ReadingMeans(item.reading, item.wo, item.bo, item.numbering, cells);
    }
  }

  lemma ReadingMeans(reading: Reading, wo: Order, bo: Order, numbering: Numbering, regs: seq<int>)
    ensures MeansReading(reading, wo, bo, numbering, regs, DecodeRegisterItem(reading, wo, bo, numbering, regs))
  {
    hide BitNamed, EncodeRegisters, DecodeRegisters, InRange, RegsPerItem, ExtractBit, ExtractBits;
    match reading
    case AsNumbers(d) =>
      DecodeSucceeds(regs, d, wo, bo);
      if DecodeRegisters(regs, d, wo, bo).Ok? {
        DecodedInRange(regs, d, wo, bo);
      }
    case AsBit(Some(index)) =>
      NamedBit(regs, index, wo, bo, numbering);
    case AsBits(Some(indices)) =>
      NamedBits(regs, indices, wo, bo, numbering);
    case _ =>
  }

  lemma DecodedInRange(regs: seq<int>, d: DType, wo: Order, bo: Order)
    requires DecodeRegisters(regs, d, wo, bo).Ok?
    ensures var vs := DecodeRegisters(regs, d, wo, bo).value;
            (forall i :: 0 <= i < |vs| ==> InRange(vs[i], d)) && EncodeRegisters(vs, d, wo, bo) == Ok(regs)
  {
    hide EncodeRegisters, DecodeRegisters, InRange, Coerce;
    var vs := DecodeRegisters(regs, d, wo, bo).value;
    EncodeAfterDecode(regs, d, wo, bo);
    CodecBijection(vs, regs, d, wo, bo);
    EncodeSucceeds(vs, d, wo, bo);
    forall i | 0 <= i < |vs|
      ensures InRange(vs[i], d)
    {
      assert CoerceAll(vs, d)[i] == vs[i];
      assert Encodable(vs[i], d);
    }
  }

  lemma NamedBit(regs: seq<int>, index: int, wo: Order, bo: Order, numbering: Numbering)
    ensures ExtractBit(regs, index, wo, bo, numbering).Ok? <==> AreWords(regs) && 0 <= index < 16 * |regs|
    ensures AreWords(regs) && 0 <= index < 16 * |regs| ==>
              ExtractBit(regs, index, wo, bo, numbering) == Ok(BitNamed(regs, index, wo, bo, numbering))
  {
    ExtractBitDomain(regs, index, wo, bo, numbering);
    hide ExtractBit, Bit;
    if AreWords(regs) && 0 <= index < 16 * |regs| {
      ExtractBitClosedForm(AsWords(regs), index, wo, bo, numbering);
    }
  }

  lemma NamedBits(regs: seq<int>, indices: seq<int>, wo: Order, bo: Order, numbering: Numbering)
    ensures var inside := AreWords(regs) && regs != [] && forall k :: 0 <= k < |indices| ==> 0 <= indices[k] < 16 * |regs|;
            && (ExtractBits(regs, indices, wo, bo, numbering).Ok? <==> inside)
            && (inside ==> var bits := ExtractBits(regs, indices, wo, bo, numbering).value;
                           |bits| == |indices|
                           && forall k :: 0 <= k < |indices| ==> bits[k] == BitNamed(regs, indices[k], wo, bo, numbering))
  {
    hide ExtractBit, ExtractBits, BitNamed, AreWords;
    forall k | 0 <= k < |indices|
      ensures ExtractBit(regs, indices[k], wo, bo, numbering).Ok? <==> AreWords(regs) && 0 <= indices[k] < 16 * |regs|
      ensures AreWords(regs) && 0 <= indices[k] < 16 * |regs| ==>
                ExtractBit(regs, indices[k], wo, bo, numbering) == Ok(BitNamed(regs, indices[k], wo, bo, numbering))
    {
      NamedBit(regs, indices[k], wo, bo, numbering);
    }
    if ExtractBits(regs, indices, wo, bo, numbering).Ok? {
      ExtractBitsPointwise(regs, indices, wo, bo, numbering, ExtractBits(regs, indices, wo, bo, numbering).value);
    }
    if AreWords(regs) && regs != [] && forall k :: 0 <= k < |indices| ==> 0 <= indices[k] < 16 * |regs| {
      var bits := seq(|indices|, k requires 0 <= k < |indices| => BitNamed(regs, indices[k], wo, bo, numbering));
      ExtractBitsPointwise(regs, indices, wo, bo, numbering, bits);
    }
  }

  /** The device memory that an item of each kind is about. */
  predicate About(item: ReadItem, area: Area)
  {
    && (item.Holding? <==> area.HoldingArea?) && (item.Input? <==> area.InputArea?)
    && (item.Coil? <==> area.CoilArea?) && (item.Discrete? <==> area.DiscreteArea?)
  }

  /** The chunk reads some address of the item. */
  predicate Touches(c: Chunk, item: ReadItem)
  {
    exists area, x :: About(item, area) && InChunk(c, area, x) && item.start <= x < item.start + item.count
  }

  lemma OverlapsIffTouches(c: Chunk, item: ReadItem)
    requires c.count >= 1 && item.count >= 1
    ensures Overlaps(c, item) <==> Touches(c, item)
  {
    if Overlaps(c, item) {
      var x := Max(c.start, item.start);
      assert About(item, c.area) && InChunk(c, c.area, x);
    }
  }

  /** Batching is invisible. If no chunk that reads an address of the item failed, the item's
      outcome is the meaning of its own cells of device memory, as if it had been read alone;
      otherwise it is the error of the lowest-addressed failed chunk that reads one. */
  lemma ReadPreservesMeaning(items: seq<ReadItem>, cs: seq<Chunk>, crs: seq<ChunkResult>, mem: (Area, int) -> int, k: nat, area: Area)
    requires PlanOk(items, cs) && k < |items| && items[k].count >= 1 && About(items[k], area)
    requires |crs| == |cs| && forall i :: 0 <= i < |cs| ==> crs[i].chunk == cs[i]
    requires FaithfulTo(crs, mem)
    ensures (forall i :: 0 <= i < |cs| && Touches(cs[i], items[k]) ==> crs[i].outcome.Ok?) ==>
              Means(items[k], seq(items[k].count, j => mem(area, items[k].start + j)), ItemOutcome(items[k], crs))
    ensures forall i :: && 0 <= i < |cs| && Touches(cs[i], items[k]) && crs[i].outcome.Err?
                        && (forall j :: 0 <= j < |cs| && Touches(cs[j], items[k]) && crs[j].outcome.Err? ==>
                              cs[i].start <= cs[j].start)
                        ==> ItemOutcome(items[k], crs) == Err(crs[i].outcome.error)
  {
    forall i | 0 <= i < |cs|
      ensures Overlaps(cs[i], items[k]) <==> Touches(cs[i], items[k])
    {
      PlanCount(items, cs, i);
      OverlapsIffTouches(cs[i], items[k]);
    }
    hide PlanOk, ItemOutcome, DecodeCellsOf, Overlaps, Touches, Means;
    BatchedAsAlone(items, cs, crs, mem, k);
    var cells := Cells(mem, area, items[k].start, items[k].count);
    assert cells == seq(items[k].count, j => mem(area, items[k].start + j));
    CellsMean(items[k], cells);
  }

  lemma PlanCount(items: seq<ReadItem>, cs: seq<Chunk>, i: nat)
    requires PlanOk(items, cs) && i < |cs|
    ensures cs[i].count >= 1
  {}

  // ---------- the whole batch ----------

  function ExecuteAll(cs: seq<Chunk>, exec: seq<byte> -> Result<seq<byte>, Error>): (crs: seq<ChunkResult>)
    ensures |crs| == |cs|
  {
    seq(|cs|, i requires 0 <= i < |cs| => ChunkResult(cs[i], ExecuteChunk(cs[i], exec)))
  }

  /** A batch raises ValueError exactly when an item is invalid or a chunk's execution raises it;
      otherwise the results are parallel to the items, and for every memory the executor is
      faithful to they mean what ReadPreservesMeaning says. The plan is returned beside them. */
  method PlanAndExecuteReads(items: seq<ReadItem>, exec: seq<byte> -> Result<seq<byte>, Error>)
    returns (r: Result<seq<ReadResult>, Error>, cs: seq<Chunk>)
    ensures r.Err? ==> r.error == ValueError
    ensures (forall i :: 0 <= i < |items| ==> ValidItem(items[i])) ==> PlanOk(items, cs)
    ensures r.Ok? <==> && (forall i :: 0 <= i < |items| ==> ValidItem(items[i]))
                       && (forall i :: 0 <= i < |cs| ==> ExecuteChunk(cs[i], exec) != Err(ValueError))
    ensures r.Ok? ==> |r.value| == |items|
                      && forall i :: 0 <= i < |items| ==>
                           r.value[i] == ReadResult(items[i], ItemOutcome(items[i], ExecuteAll(cs, exec)))
  {
    hide PlanOk, PlanSize, ExecuteChunk, ItemOutcome;
    cs := [];
    for i := 0 to |items|
      invariant forall k :: 0 <= k < i ==> ValidItem(items[k])
    {
      if !ValidItem(items[i]) {
        return Err(ValueError), cs;
      }
    }
    cs := PlanReadChunks(items);
    var crs: seq<ChunkResult> := [];
    for i := 0 to |cs|
      invariant crs == ExecuteAll(cs, exec)[..i]
      invariant forall k :: 0 <= k < i ==> ExecuteChunk(cs[k], exec) != Err(ValueError)
    {
      var outcome := ExecuteChunk(cs[i], exec);
      if outcome == Err(ValueError) {
        return Err(ValueError), cs;
      }
      crs := crs + [ChunkResult(cs[i], outcome)];
    }
    assert crs == ExecuteAll(cs, exec);
    var results: seq<ReadResult> := [];
    for i := 0 to |items|
      invariant |results| == i
      invariant forall k :: 0 <= k < i ==> results[k] == ReadResult(items[k], ItemOutcome(items[k], crs))
    {
      var one := DecodeReadItem(items[i], crs);
      results := results + [one];
    }
    r := Ok(results);
  }
}
