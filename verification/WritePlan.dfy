/**
  Planning and executing batch writes, src/pymod/planner.py. Chunks may be executed in any
  order and any of them more than once, as concurrent sends and client retries make them.
 */
module WritePlan {
  import opened Basics
  import opened Errors
  import opened Pdu
  import opened RegisterCodec
  import opened SimStore

  datatype WriteItem =
    | WriteHolding(start: int, numbers: seq<Value>, dtype: DType, wo: Order, bo: Order)
    | WriteCoils(start: int, coils: seq<bool>)

  /** One write on the wire: consecutive cells of one area, on behalf of one item. */
  datatype WriteChunk = WriteChunk(item: nat, area: Area, start: int, cells: seq<int>)

  function MaxWrite(area: Area): nat
  {
    if IsBitArea(area) then MAX_WRITE_COILS else MAX_WRITE_REGISTERS
  }

  /** The cells an item asks to be written; ValueError for an empty or unencodable item. */
  function ItemCells(item: WriteItem): Result<seq<int>, Error>
  {
    match item
    case WriteHolding(_, numbers, d, wo, bo) =>
      if |numbers| == 0 then Err(ValueError)
      else
        var regs :- EncodeRegisters(numbers, d, wo, bo);
        Ok(regs)
    case WriteCoils(_, coils) =>
      if |coils| == 0 then Err(ValueError) else Ok(AsCells(coils))
  }

  function WriteArea(item: WriteItem): Area
  {
    if item.WriteHolding? then HoldingArea else CoilArea
  }

  /** Every item as one unsplit write: what the caller asked for. */
  function Direct(items: seq<WriteItem>): (r: Result<seq<WriteChunk>, Error>)
    ensures r.Ok? ==> |r.value| == |items|
  {
    if items == [] then Ok([])
    else
      var n := |items| - 1;
      var ds :- Direct(items[..n]);
      var cells :- ItemCells(items[n]);
      Ok(ds + [WriteChunk(n, WriteArea(items[n]), items[n].start, cells)])
  }

  // ---------- what a plan is ----------

  predicate Holds(c: WriteChunk, area: Area, a: int)
  {
    c.area == area && c.start <= a < c.start + |c.cells|
  }

  /** Some chunk on behalf of item `i` holds the address. */
  predicate HeldFor(cs: seq<WriteChunk>, i: nat, area: Area, a: int)
  {
    exists k :: 0 <= k < |cs| && cs[k].item == i && Holds(cs[k], area, a)
  }

  /** A chunk is a slice of its item, no longer than its function code allows. */
  predicate SliceOf(c: WriteChunk, d: WriteChunk)
  {
    && c.item == d.item && c.area == d.area
    && d.start <= c.start && c.start + |c.cells| <= d.start + |d.cells|
    && 1 <= |c.cells| <= MaxWrite(c.area)
    && c.cells == d.cells[c.start - d.start..c.start - d.start + |c.cells|]
  }

  /** Plan order: by item, then by address, and only the last chunk of an item may be short. */
  predicate PlanBefore(b: WriteChunk, c: WriteChunk)
  {
    b.item < c.item || (b.item == c.item && b.start + |b.cells| <= c.start && |b.cells| == MaxWrite(b.area))
  }

  ghost predicate WritePlanOk(ds: seq<WriteChunk>, cs: seq<WriteChunk>)
  {
    && (forall k :: 0 <= k < |cs| ==> cs[k].item < |ds| && SliceOf(cs[k], ds[cs[k].item]))
    && (forall j, k :: 0 <= j < k < |cs| ==> PlanBefore(cs[j], cs[k]))
    && (forall i, area, a :: 0 <= i < |ds| && Holds(ds[i], area, a) ==> HeldFor(cs, i, area, a))
  }

  /** The inner loop: one item cut from its low end. */
  method SplitWrite(d: WriteChunk) returns (cs: seq<WriteChunk>)
    ensures forall k :: 0 <= k < |cs| ==> SliceOf(cs[k], d)
    ensures forall j, k :: 0 <= j < k < |cs| ==> PlanBefore(cs[j], cs[k])
    ensures forall area, a :: Holds(d, area, a) ==> HeldFor(cs, d.item, area, a)
  {
    cs := [];
    var cur, addr := 0, d.start;
    while cur < |d.cells|
      invariant 0 <= cur <= |d.cells| && addr == d.start + cur
      invariant CutSoFar(d, cs, cur)
    {
      hide CutSoFar;
      var size := Min(MaxWrite(d.area), |d.cells| - cur);
      var c := WriteChunk(d.item, d.area, addr, d.cells[cur..cur + size]);
      CutFurther(d, cs, cur, c, size);
      cs := cs + [c];
      cur := cur + size;
      addr := addr + size;
    }
  }

  /** The chunks are the first `cur` cells of the item, in full slices except for the last. */
  ghost predicate CutSoFar(d: WriteChunk, cs: seq<WriteChunk>, cur: nat)
  {
    && (forall k :: 0 <= k < |cs| ==> SliceOf(cs[k], d) && cs[k].start + |cs[k].cells| <= d.start + cur)
    && (cur < |d.cells| ==> forall k :: 0 <= k < |cs| ==> |cs[k].cells| == MaxWrite(d.area))
    && (forall j, k :: 0 <= j < k < |cs| ==> PlanBefore(cs[j], cs[k]))
    && (forall a :: d.start <= a < d.start + cur ==> HeldFor(cs, d.item, d.area, a))
  }

  lemma CutFurther(d: WriteChunk, cs: seq<WriteChunk>, cur: nat, c: WriteChunk, size: nat)
    requires CutSoFar(d, cs, cur) && cur < |d.cells| && size == Min(MaxWrite(d.area), |d.cells| - cur)
    requires c == WriteChunk(d.item, d.area, d.start + cur, d.cells[cur..cur + size])
    ensures CutSoFar(d, cs + [c], cur + size)
  {
    hide HeldFor;
    var t := cs + [c];
    forall k | 0 <= k < |t|
      ensures SliceOf(t[k], d) && t[k].start + |t[k].cells| <= d.start + cur + size
    {
      assert k < |cs| ==> t[k] == cs[k] && SliceOf(cs[k], d);
    }
    forall j, k | 0 <= j < k < |t|
      ensures PlanBefore(t[j], t[k])
    {
      assert t[j] == cs[j] && SliceOf(cs[j], d);
    }
    forall a | d.start <= a < d.start + cur + size
      ensures HeldFor(t, d.item, d.area, a)
    {
      HeldSnoc(cs, c, d.item, d.area, a);
    }
  }

  lemma HeldSnoc(cs: seq<WriteChunk>, c: WriteChunk, i: nat, area: Area, a: int)
    ensures HeldFor(cs, i, area, a) || (c.item == i && Holds(c, area, a)) ==> HeldFor(cs + [c], i, area, a)
  {
    HeldConcat(cs, [c], i, area, a);
    if c.item == i && Holds(c, area, a) {
      assert [c][0] == c;
    }
  }

  lemma HeldConcat(a: seq<WriteChunk>, b: seq<WriteChunk>, i: nat, area: Area, x: int)
    ensures HeldFor(a, i, area, x) || HeldFor(b, i, area, x) ==> HeldFor(a + b, i, area, x)
  {
    var t := a + b;
    if HeldFor(a, i, area, x) {
      var k :| 0 <= k < |a| && a[k].item == i && Holds(a[k], area, x);
      assert t[k] == a[k];
    } else if HeldFor(b, i, area, x) {
      var k :| 0 <= k < |b| && b[k].item == i && Holds(b[k], area, x);
      assert t[|a| + k] == b[k];
    }
  }

  lemma {:induction false} DirectItems(items: seq<WriteItem>)
    requires Direct(items).Ok?
    ensures forall i :: 0 <= i < |items| ==>
              && ItemCells(items[i]).Ok?
              && Direct(items).value[i] == WriteChunk(i, WriteArea(items[i]), items[i].start, ItemCells(items[i]).value)
  {
    hide ItemCells, WriteArea;
    if items != [] {
      var n := |items| - 1;
      DirectItems(items[..n]);
      assert forall i :: 0 <= i < n ==> items[..n][i] == items[i];
    }
  }

  lemma {:induction false} DirectPrefix(items: seq<WriteItem>, n: nat)
    requires n <= |items|
    ensures Direct(items).Ok? ==> Direct(items[..n]).Ok? && Direct(items).value[..n] == Direct(items[..n]).value
    decreases |items|
  {
    if n < |items| {
      var m := |items| - 1;
      DirectPrefix(items[..m], n);
      assert items[..m][..n] == items[..n];
    } else {
      assert items[..n] == items;
    }
  }

  lemma AppendItem(ds: seq<WriteChunk>, cs: seq<WriteChunk>, d: WriteChunk, more: seq<WriteChunk>)
    requires WritePlanOk(ds, cs) && d.item == |ds|
    requires forall k :: 0 <= k < |more| ==> SliceOf(more[k], d)
    requires forall j, k :: 0 <= j < k < |more| ==> PlanBefore(more[j], more[k])
    requires forall area, a :: Holds(d, area, a) ==> HeldFor(more, d.item, area, a)
    ensures WritePlanOk(ds + [d], cs + more)
  {
    var es, t := ds + [d], cs + more;
    forall k | 0 <= k < |t|
      ensures t[k].item < |es| && SliceOf(t[k], es[t[k].item])
    {
      assert k < |cs| ==> t[k] == cs[k] && es[cs[k].item] == ds[cs[k].item];
    }
    forall i, area, a | 0 <= i < |es| && Holds(es[i], area, a)
      ensures HeldFor(t, i, area, a)
    {
      HeldConcat(cs, more, i, area, a);
      assert i < |ds| ==> es[i] == ds[i];
    }
  }

  /** Planning fails exactly when an item is empty or unencodable. */
  method PlanWrites(items: seq<WriteItem>) returns (r: Result<seq<WriteChunk>, Error>)
    ensures r.Ok? <==> Direct(items).Ok?
    ensures r.Err? ==> r.error == ValueError
    ensures r.Ok? ==> WritePlanOk(Direct(items).value, r.value)
  {
    var cs: seq<WriteChunk> := [];
    for i := 0 to |items|
      invariant Direct(items[..i]).Ok?
      invariant WritePlanOk(Direct(items[..i]).value, cs)
    {
      assert items[..i + 1][..i] == items[..i];
      DirectPrefix(items, i + 1);
      var cells := EncodeItemCells(items[i]);
      if cells.Err? {
        return Err(ValueError);
      }
      var d := WriteChunk(i, WriteArea(items[i]), items[i].start, cells.value);
      var more := SplitWrite(d);
      AppendItem(Direct(items[..i]).value, cs, d, more);
      cs := cs + more;
    }
    assert items[..|items|] == items;
    r := Ok(cs);
  }

  method EncodeItemCells(item: WriteItem) returns (r: Result<seq<int>, Error>)
    ensures r == ItemCells(item)
  {
    match item
    case WriteHolding(_, numbers, d, wo, bo) =>
      if |numbers| == 0 {
        return Err(ValueError);
      }
      var regs := EncodeRegistersLoop(numbers, d, wo, bo);
      match regs {
        case Ok(ws) => r := Ok(ws);
        case Err(e) => r := Err(e);
      }
    case WriteCoils(_, coils) =>
      r := if |coils| == 0 then Err(ValueError) else Ok(AsCells(coils));
  }

  // ---------- executing chunks against a store ----------

  /** Chunks written one after another, named by their position in the plan. */
  function Execute(s: Store, cs: seq<WriteChunk>, order: seq<nat>): Store
    requires forall i :: 0 <= i < |order| ==> order[i] < |cs|
  {
    if order == [] then s
    else
      var n := |order| - 1;
      var c := cs[order[n]];
      StoreWrite(Execute(s, cs, order[..n]), c.area, c.start, c.cells)
  }

  predicate Complete(cs: seq<WriteChunk>, order: seq<nat>)
  {
    && (forall i :: 0 <= i < |order| ==> order[i] < |cs|)
    && (forall k :: 0 <= k < |cs| ==> k in order)
  }

  function ValueAt(c: WriteChunk, a: int): int
    requires c.start <= a < c.start + |c.cells|
  {
    c.cells[a - c.start]
  }

  /** Wherever two chunks meet, they want the same value. */
  ghost predicate Agree(b: WriteChunk, c: WriteChunk)
  {
    forall a :: Holds(b, b.area, a) && Holds(c, b.area, a) ==> ValueAt(b, a) == ValueAt(c, a)
  }

  ghost predicate Consistent(cs: seq<WriteChunk>)
  {
    forall j, k :: 0 <= j < |cs| && 0 <= k < |cs| ==> Agree(cs[j], cs[k])
  }

  /** The chunk with position in `order` that holds the address, if any: the latest one. */
  function Writer(cs: seq<WriteChunk>, order: seq<nat>, area: Area, a: int): (w: Option<nat>)
    requires forall i :: 0 <= i < |order| ==> order[i] < |cs|
    ensures w.Some? ==> w.value in order && w.value < |cs| && Holds(cs[w.value], area, a)
    ensures w.None? ==> forall k :: k in order ==> !Holds(cs[k], area, a)
  {
    if order == [] then None
    else
      var n := |order| - 1;
      assert order == order[..n] + [order[n]];
      if Holds(cs[order[n]], area, a) then Some(order[n]) else Writer(cs, order[..n], area, a)
  }

  /** After any execution, an address holds the value of its latest writer, or what it held before. */
  lemma {:induction false} ExecuteLookup(s: Store, cs: seq<WriteChunk>, order: seq<nat>, area: Area, a: int)
    requires forall i :: 0 <= i < |order| ==> order[i] < |cs|
    ensures var w := Writer(cs, order, area, a);
            CellAt(Execute(s, cs, order), area, a)
            == if w.Some? then Some(ValueAt(cs[w.value], a)) else CellAt(s, area, a)
  {
    hide CellAt, StoreWrite, ValueAt;
    if order != [] {
      var n := |order| - 1;
      ExecuteLookup(s, cs, order[..n], area, a);
      WriteCellAt(Execute(s, cs, order[..n]), cs[order[n]], area, a);
    }
  }

  function CellAt(s: Store, area: Area, a: int): Option<int>
  {
    if a in Table(s, area) then Some(Table(s, area)[a]) else None
  }

  lemma WriteCellAt(s: Store, c: WriteChunk, area: Area, a: int)
    ensures CellAt(StoreWrite(s, c.area, c.start, c.cells), area, a)
            == if Holds(c, area, a) then Some(ValueAt(c, a)) else CellAt(s, area, a)
  {}

  lemma SameTable(s: Store, t: Store, area: Area)
    requires forall a :: CellAt(s, area, a) == CellAt(t, area, a)
    ensures Table(s, area) == Table(t, area)
  {
    var m, n := Table(s, area), Table(t, area);
    forall a
      ensures a in m <==> a in n
      ensures a in m ==> m[a] == n[a]
    {
      assert CellAt(s, area, a) == CellAt(t, area, a);
    }
  }

  lemma SameTables(s: Store, t: Store)
    requires forall area, a :: CellAt(s, area, a) == CellAt(t, area, a)
    ensures s == t
  {
    SameTable(s, t, HoldingArea); SameTable(s, t, InputArea);
    SameTable(s, t, CoilArea); SameTable(s, t, DiscreteArea);
  }

  function Identity(n: nat): (o: seq<nat>)
    ensures |o| == n && forall i :: 0 <= i < n ==> o[i] == i
  {
    seq(n, i => i)
  }

  /** Slices of agreeing items agree, so a plan for agreeing items is itself consistent. */
  lemma PlanAgrees(ds: seq<WriteChunk>, cs: seq<WriteChunk>, k: nat, i: nat)
    requires WritePlanOk(ds, cs) && Consistent(ds) && k < |cs| && i < |ds|
    ensures Agree(cs[k], ds[i])
  {
    var c, d := cs[k], ds[cs[k].item];
    assert Agree(d, ds[i]);
    forall a | Holds(c, c.area, a) && Holds(ds[i], c.area, a)
      ensures ValueAt(c, a) == ValueAt(ds[i], a)
    {
      assert Holds(d, d.area, a);
      assert ValueAt(c, a) == ValueAt(d, a);
    }
  }

  /** For items that agree wherever they overlap (disjoint items always do), every execution that
      runs each chunk at least once leaves the memory that writing each item directly would. */
  lemma OrderIndependent(s: Store, ds: seq<WriteChunk>, cs: seq<WriteChunk>, order: seq<nat>)
    requires WritePlanOk(ds, cs) && Consistent(ds) && Complete(cs, order)
    ensures Execute(s, cs, order) == Execute(s, ds, Identity(|ds|))
  {
    hide CellAt, Execute;
    forall area, a
      ensures CellAt(Execute(s, cs, order), area, a) == CellAt(Execute(s, ds, Identity(|ds|)), area, a)
    {
      SameCell(s, ds, cs, order, area, a);
    }
    SameTables(Execute(s, cs, order), Execute(s, ds, Identity(|ds|)));
  }

  lemma SameCell(s: Store, ds: seq<WriteChunk>, cs: seq<WriteChunk>, order: seq<nat>, area: Area, a: int)
    requires WritePlanOk(ds, cs) && Consistent(ds) && Complete(cs, order)
    ensures CellAt(Execute(s, cs, order), area, a) == CellAt(Execute(s, ds, Identity(|ds|)), area, a)
  {
    hide CellAt, Execute, Writer, ValueAt, Agree;
    var id := Identity(|ds|);
    ExecuteLookup(s, cs, order, area, a);
    ExecuteLookup(s, ds, id, area, a);
    var w, v := Writer(cs, order, area, a), Writer(ds, id, area, a);
    if w.Some? {
      var i := cs[w.value].item;
      assert id[i] == i && i in id;
      assert SliceOf(cs[w.value], ds[i]) && Holds(ds[i], area, a);
      PlanAgrees(ds, cs, w.value, v.value);
      SameValue(cs[w.value], ds[v.value], area, a);
    } else {
      NothingHeld(ds, cs, order, area, a);
    }
  }

  lemma SameValue(b: WriteChunk, c: WriteChunk, area: Area, a: int)
    requires Agree(b, c) && Holds(b, area, a) && Holds(c, area, a)
    ensures ValueAt(b, a) == ValueAt(c, a)
  {}

  lemma NothingHeld(ds: seq<WriteChunk>, cs: seq<WriteChunk>, order: seq<nat>, area: Area, a: int)
    requires WritePlanOk(ds, cs) && Complete(cs, order) && Writer(cs, order, area, a).None?
    ensures Writer(ds, Identity(|ds|), area, a).None?
  {
    forall i | 0 <= i < |ds|
      ensures !Holds(ds[i], area, a)
    {
      assert !HeldFor(cs, i, area, a);
    }
  }

  /** Partial success: whatever else ran, failed or was repeated, an item whose own chunks all
      reached the device is stored completely. */
  lemma ExecutedItemStored(s: Store, ds: seq<WriteChunk>, cs: seq<WriteChunk>, order: seq<nat>, i: nat, a: int)
    requires WritePlanOk(ds, cs) && Consistent(ds) && forall n :: 0 <= n < |order| ==> order[n] < |cs|
    requires i < |ds| && forall k :: 0 <= k < |cs| && cs[k].item == i ==> k in order
    requires Holds(ds[i], ds[i].area, a)
    ensures CellAt(Execute(s, cs, order), ds[i].area, a) == Some(ValueAt(ds[i], a))
  {
    hide CellAt, Execute, ValueAt, Agree;
    var area := ds[i].area;
    assert HeldFor(cs, i, area, a);
    ExecuteLookup(s, cs, order, area, a);
    var w := Writer(cs, order, area, a).value;
    PlanAgrees(ds, cs, w, i);
    SameValue(cs[w], ds[i], area, a);
  }

  /** Each chunk exactly once, in some order. */
  predicate Permutes(cs: seq<WriteChunk>, order: seq<nat>)
  {
    Complete(cs, order) && |order| == |cs|
  }

  /** Agreement is exactly what it takes: if two items want different values for one address, two
      orders of the same plan, each running every chunk exactly once, leave different memories. */
  lemma OrderMattersOtherwise(s: Store, ds: seq<WriteChunk>, cs: seq<WriteChunk>) returns (o1: seq<nat>, o2: seq<nat>)
    requires WritePlanOk(ds, cs) && !Consistent(ds)
    ensures Permutes(cs, o1) && Permutes(cs, o2) && Execute(s, cs, o1) != Execute(s, cs, o2)
  {
    var i, j :| 0 <= i < |ds| && 0 <= j < |ds| && !Agree(ds[i], ds[j]);
    var b, c := ds[i], ds[j];
    var a :| Holds(b, b.area, a) && Holds(c, b.area, a) && ValueAt(b, a) != ValueAt(c, a);
    var k := ChunkFor(ds, cs, i, b.area, a);
    var l := ChunkFor(ds, cs, j, b.area, a);
    o1, o2 := MovedLast(|cs|, k), MovedLast(|cs|, l);
    hide *;
    LastWins(s, cs, k, b.area, a);
    LastWins(s, cs, l, b.area, a);
  }

  /** Plan order, except that chunk `k` comes last. */
  function MovedLast(n: nat, k: nat): seq<nat>
    requires k < n
  {
    Identity(n)[..k] + Identity(n)[k + 1..] + [k]
  }

  lemma LastWins(s: Store, cs: seq<WriteChunk>, k: nat, area: Area, a: int)
    requires k < |cs| && Holds(cs[k], area, a)
    ensures Permutes(cs, MovedLast(|cs|, k))
    ensures CellAt(Execute(s, cs, MovedLast(|cs|, k)), area, a) == Some(ValueAt(cs[k], a))
  {
    hide Execute, CellAt, ValueAt;
    var order := MovedLast(|cs|, k);
    forall n | 0 <= n < |cs|
      ensures n in order
    {
      assert order[if n < k then n else if n == k then |cs| - 1 else n - 1] == n;
    }
    assert Writer(cs, order, area, a) == Some(k);
    ExecuteLookup(s, cs, order, area, a);
  }

  lemma ChunkFor(ds: seq<WriteChunk>, cs: seq<WriteChunk>, i: nat, area: Area, a: int) returns (k: nat)
    requires WritePlanOk(ds, cs) && i < |ds| && Holds(ds[i], area, a)
    ensures k < |cs| && Holds(cs[k], area, a) && ValueAt(cs[k], a) == ValueAt(ds[i], a)
  {
    assert HeldFor(cs, i, area, a);
    k :| 0 <= k < |cs| && cs[k].item == i && Holds(cs[k], area, a);
  }

  // ---------- results ----------

  datatype WriteResult = WriteResult(item: WriteItem, error: Option<Error>)

  /** The first error, in plan order, among the chunks of item `i`. */
  function FirstErrorOf(cs: seq<WriteChunk>, errs: seq<Option<Error>>, i: nat): Option<Error>
    requires |cs| == |errs|
  {
    if cs == [] then None
    else
      var n := |cs| - 1;
      var e := FirstErrorOf(cs[..n], errs[..n], i);
      if e.Some? || cs[n].item != i then e else errs[n]
  }

  /** The loop that lets the first error of each item win. */
  method AssembleResults(items: seq<WriteItem>, cs: seq<WriteChunk>, errs: seq<Option<Error>>) returns (results: seq<WriteResult>)
    requires |cs| == |errs| && forall k :: 0 <= k < |cs| ==> cs[k].item < |items|
    ensures |results| == |items|
    ensures forall i :: 0 <= i < |items| ==> results[i] == WriteResult(items[i], FirstErrorOf(cs, errs, i))
  {
    results := seq(|items|, i requires 0 <= i < |items| => WriteResult(items[i], None));
    for k := 0 to |cs|
      invariant |results| == |items|
      invariant forall i :: 0 <= i < |items| ==> results[i] == WriteResult(items[i], FirstErrorOf(cs[..k], errs[..k], i))
    {
      assert cs[..k + 1][..k] == cs[..k] && errs[..k + 1][..k] == errs[..k];
      if errs[k].Some? {
        var idx := cs[k].item;
        if results[idx].error.None? {
          results := results[idx := WriteResult(items[idx], errs[k])];
        }
      }
    }
    assert cs[..|cs|] == cs && errs[..|errs|] == errs;
  }

  /** An item fails exactly when one of its own chunks failed, with the earliest such error. */
  lemma {:induction false} FailsIffOwnChunkFails(cs: seq<WriteChunk>, errs: seq<Option<Error>>, i: nat)
    requires |cs| == |errs|
    ensures FirstErrorOf(cs, errs, i).Some? <==> exists k :: 0 <= k < |cs| && cs[k].item == i && errs[k].Some?
    ensures forall k :: && 0 <= k < |cs| && cs[k].item == i && errs[k].Some?
                        && (forall j :: 0 <= j < k && cs[j].item == i ==> errs[j].None?)
                        ==> FirstErrorOf(cs, errs, i) == errs[k]
  {
    if cs != [] {
      var n := |cs| - 1;
      var bs, es := cs[..n], errs[..n];
      FailsIffOwnChunkFails(bs, es, i);
      assert forall k :: 0 <= k < n ==> bs[k] == cs[k] && es[k] == errs[k];
      if FirstErrorOf(bs, es, i).Some? {
        var k :| 0 <= k < n && bs[k].item == i && es[k].Some?;
        assert cs[k].item == i && errs[k].Some?;
      }
    }
  }
}
