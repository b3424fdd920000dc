/**
  Planning of batch reads, src/pymod/planner.py: group by area, merge ranges, split at the
  per-request limit. The plan is characterised by PlanOk; it is optimal among all plans that
  read no unrequested address.
 */
module ReadPlan {
  import opened Basics
  import opened Pdu
  import opened RegisterCodec
  import opened BitExtraction

  /** How the registers of an item are to be read; the options are Python's None. */
  datatype Reading = AsNumbers(dtype: DType) | AsBit(index: Option<int>) | AsBits(indices: Option<seq<int>>)

  datatype ReadItem =
    | Holding(start: int, count: int, reading: Reading, wo: Order, bo: Order, numbering: Numbering)
    | Input(start: int, count: int, reading: Reading, wo: Order, bo: Order, numbering: Numbering)
    | Coil(start: int, count: int)
    | Discrete(start: int, count: int)

  function ItemArea(item: ReadItem): Area
  {
    match item
    case Holding(_, _, _, _, _, _) => HoldingArea
    case Input(_, _, _, _, _, _) => InputArea
    case Coil(_, _) => CoilArea
    case Discrete(_, _) => DiscreteArea
  }

  /** `_validate_read_item` lets the item through. */
  predicate ValidItem(item: ReadItem)
  {
    && item.count > 0
    && (item.Holding? || item.Input? ==>
          && (item.reading.AsBit? ==> item.reading.index.Some?)
          && (item.reading.AsBits? ==> item.reading.indices.Some?))
  }

  // ---------- merging ranges ----------

  /** A half-open interval of addresses. */
  datatype Range = Range(lo: int, hi: int)

  predicate Covers(rs: seq<Range>, x: int)
  {
    exists i :: 0 <= i < |rs| && rs[i].lo <= x < rs[i].hi
  }

  predicate NonEmpty(rs: seq<Range>)
  {
    forall i :: 0 <= i < |rs| ==> rs[i].lo < rs[i].hi
  }

  /** Sorted, non-empty, and with at least one uncovered address between neighbours. */
  predicate Canonical(rs: seq<Range>)
  {
    && NonEmpty(rs)
    && forall i, j :: 0 <= i < j < |rs| ==> rs[i].hi < rs[j].lo
  }

  ghost predicate SameCover(a: seq<Range>, b: seq<Range>)
  {
    forall x :: Covers(a, x) <==> Covers(b, x)
  }

  predicate SortedByLo(rs: seq<Range>)
  {
    forall i, j :: 0 <= i < j < |rs| ==> rs[i].lo <= rs[j].lo
  }

  /** Python's tuple order. */
  predicate Before(a: Range, b: Range)
  {
    a.lo < b.lo || (a.lo == b.lo && a.hi <= b.hi)
  }

  function Insert(r: Range, rs: seq<Range>): seq<Range>
  {
    if rs == [] || Before(r, rs[0]) then [r] + rs else [rs[0]] + Insert(r, rs[1..])
  }

  function Sort(rs: seq<Range>): seq<Range>
  {
    if rs == [] then [] else Insert(rs[0], Sort(rs[1..]))
  }

  lemma {:induction false} InsertMembers(r: Range, rs: seq<Range>)
    ensures forall x :: x in Insert(r, rs) <==> x == r || x in rs
    decreases |rs|
  {
    if rs != [] && !Before(r, rs[0]) {
      InsertMembers(r, rs[1..]);
      assert rs == [rs[0]] + rs[1..];
    }
  }

  lemma {:induction false} InsertSorted(r: Range, rs: seq<Range>)
    requires SortedByLo(rs)
    ensures SortedByLo(Insert(r, rs))
    decreases |rs|
  {
    if rs != [] && !Before(r, rs[0]) {
      var t := Insert(r, rs[1..]);
      InsertSorted(r, rs[1..]);
      InsertMembers(r, rs[1..]);
      forall i | 0 <= i < |t|
        ensures rs[0].lo <= t[i].lo
      {
        assert t[i] in t;
        assert t[i] == r || t[i] in rs[1..];
      }
    }
  }

  lemma {:induction false} SortProps(rs: seq<Range>)
    ensures SortedByLo(Sort(rs))
    ensures forall x :: x in Sort(rs) <==> x in rs
  {
    if rs != [] {
      SortProps(rs[1..]);
      InsertSorted(rs[0], Sort(rs[1..]));
      InsertMembers(rs[0], Sort(rs[1..]));
      assert rs == [rs[0]] + rs[1..];
    }
  }

  lemma SameElementsSameCover(a: seq<Range>, b: seq<Range>)
    requires forall r :: r in a <==> r in b
    ensures SameCover(a, b)
    ensures NonEmpty(a) ==> NonEmpty(b)
  {
    assert forall x :: Covers(a, x) <==> exists r :: r in a && r.lo <= x < r.hi;
    assert forall x :: Covers(b, x) <==> exists r :: r in b && r.lo <= x < r.hi;
    forall i | NonEmpty(a) && 0 <= i < |b|
      ensures b[i].lo < b[i].hi
    {
      assert b[i] in a;
    }
  }

  lemma CoversSnoc(rs: seq<Range>, r: Range, x: int)
    ensures Covers(rs + [r], x) <==> Covers(rs, x) || r.lo <= x < r.hi
  {
    var t := rs + [r];
    if Covers(rs, x) {
      var i :| 0 <= i < |rs| && rs[i].lo <= x < rs[i].hi;
      assert t[i] == rs[i];
    }
    if r.lo <= x < r.hi {
      assert t[|rs|] == r;
    }
  }

  /** Take one more range, starting no earlier than the last one, into a canonical list. */
  function Absorb(merged: seq<Range>, r: Range): seq<Range>
    requires merged != []
  {
    var n := |merged| - 1;
    if r.lo <= merged[n].hi then merged[n := Range(merged[n].lo, Max(merged[n].hi, r.hi))]
    else merged + [r]
  }

  lemma AbsorbProps(merged: seq<Range>, r: Range)
    requires merged != [] && Canonical(merged) && r.lo < r.hi
    requires merged[|merged| - 1].lo <= r.lo
    ensures var m := Absorb(merged, r); m != [] && Canonical(m) && m[|m| - 1].lo <= r.lo
  {}

  lemma AbsorbCovers(merged: seq<Range>, r: Range, x: int)
    requires merged != [] && merged[|merged| - 1].lo <= r.lo
    ensures Covers(Absorb(merged, r), x) <==> Covers(merged, x) || r.lo <= x < r.hi
  {
    var n, m := |merged| - 1, Absorb(merged, r);
    if r.lo <= merged[n].hi {
      assert merged == merged[..n] + [merged[n]] && m == merged[..n] + [m[n]];
      CoversSnoc(merged[..n], merged[n], x);
      CoversSnoc(merged[..n], m[n], x);
    } else {
      CoversSnoc(merged, r, x);
    }
  }

  /** A list sorted by lower end, absorbed range by range. */
  function MergeSorted(sorted: seq<Range>): (merged: seq<Range>)
    ensures sorted != [] ==> merged != []
  {
    if |sorted| <= 1 then sorted
    else
      var n := |sorted| - 1;
      Absorb(MergeSorted(sorted[..n]), sorted[n])
  }

  /** The merged form of a list of ranges. */
  function Merged(ranges: seq<Range>): seq<Range> { MergeSorted(Sort(ranges)) }

  lemma {:induction false} MergeSortedProps(sorted: seq<Range>)
    requires SortedByLo(sorted) && NonEmpty(sorted)
    ensures var m := MergeSorted(sorted);
            && Canonical(m) && SameCover(m, sorted)
            && (sorted != [] ==> m[|m| - 1].lo <= sorted[|sorted| - 1].lo)
  {
    hide Covers, Absorb;
    if |sorted| > 1 {
      var n := |sorted| - 1;
      var before, r := MergeSorted(sorted[..n]), sorted[n];
      MergeSortedProps(sorted[..n]);
      AbsorbProps(before, r);
      assert sorted == sorted[..n] + [r];
      forall x
        ensures Covers(Absorb(before, r), x) <==> Covers(sorted, x)
      {
        AbsorbCovers(before, r, x);
        CoversSnoc(sorted[..n], r, x);
      }
    }
  }

  lemma MergedProps(ranges: seq<Range>)
    requires NonEmpty(ranges)
    ensures Canonical(Merged(ranges)) && SameCover(Merged(ranges), ranges)
  {
    hide Covers, Sort, MergeSorted;
    SortProps(ranges);
    SameElementsSameCover(ranges, Sort(ranges));
    MergeSortedProps(Sort(ranges));
  }

  lemma MergeSortedStep(sorted: seq<Range>, k: nat)
    requires 1 <= k < |sorted|
    ensures MergeSorted(sorted[..k + 1]) == Absorb(MergeSorted(sorted[..k]), sorted[k])
  {
    hide Absorb;
    assert sorted[..k + 1][..k] == sorted[..k];
  }

  lemma MergeSmall(ranges: seq<Range>)
    ensures |Sort(ranges)| == |ranges|
    ensures ranges == [] ==> Merged(ranges) == []
    ensures ranges != [] ==> MergeSorted(Sort(ranges)[..1]) == [Sort(ranges)[0]]
  {
    SortLength(ranges);
  }

  lemma {:induction false} InsertLength(r: Range, rs: seq<Range>)
    ensures |Insert(r, rs)| == |rs| + 1
  {
    if rs != [] && !Before(r, rs[0]) {
      InsertLength(r, rs[1..]);
    }
  }

  lemma {:induction false} SortLength(rs: seq<Range>)
    ensures |Sort(rs)| == |rs|
  {
    if rs != [] {
      SortLength(rs[1..]);
      InsertLength(rs[0], Sort(rs[1..]));
    }
  }

  method MergeRanges(ranges: seq<Range>) returns (merged: seq<Range>)
    requires NonEmpty(ranges)
    ensures merged == Merged(ranges)
    ensures Canonical(merged) && SameCover(merged, ranges)
  {
    hide Covers, Canonical, NonEmpty, SameCover, Sort, MergeSorted;
    MergedProps(ranges);
    MergeSmall(ranges);
    if |ranges| == 0 {
      return [];
    }
    var sorted := Sort(ranges);
    merged := [sorted[0]];
    for k := 1 to |sorted|
      invariant |merged| > 0 && merged == MergeSorted(sorted[..k])
    {
      var n, r := |merged| - 1, sorted[k];
      MergeSortedStep(sorted, k);
      if r.lo <= merged[n].hi {
        merged := merged[n := Range(merged[n].lo, Max(merged[n].hi, r.hi))];
      } else {
        merged := merged + [r];
      }
    }
    assert sorted[..|sorted|] == sorted;
  }

  /** The merged form depends on the requested addresses only: there is one canonical list per
      address set, whatever the order and overlap of the input. */
  lemma {:induction false} CanonicalUnique(a: seq<Range>, b: seq<Range>)
    requires Canonical(a) && Canonical(b) && SameCover(a, b)
    ensures a == b
    decreases |a|
  {
    hide Covers;
    HeadFacts(a); HeadFacts(b);
    if a != [] && b != [] {
      assert a[0] == b[0];
      assert SameCover(a[1..], b[1..]) by {
        forall x
          ensures Covers(a[1..], x) <==> Covers(b[1..], x)
        {
          CoversTail(a, x); CoversTail(b, x);
        }
      }
      CanonicalUnique(a[1..], b[1..]);
      assert a == [a[0]] + a[1..] && b == [b[0]] + b[1..];
    }
  }

  lemma HeadFacts(a: seq<Range>)
    requires Canonical(a)
    ensures a == [] ==> forall x :: !Covers(a, x)
    ensures a != [] ==> Covers(a, a[0].lo) && !Covers(a, a[0].hi)
    ensures a != [] ==> forall x :: a[0].lo <= x < a[0].hi ==> Covers(a, x)
    ensures a != [] ==> forall x :: Covers(a, x) ==> a[0].lo <= x
  {}

  lemma CoversTail(a: seq<Range>, x: int)
    requires a != [] && Canonical(a)
    ensures Covers(a[1..], x) <==> Covers(a, x) && x >= a[0].hi
  {
    if Covers(a[1..], x) {
      var i :| 0 <= i < |a[1..]| && a[1..][i].lo <= x < a[1..][i].hi;
      assert a[i + 1] == a[1..][i];
    }
    if Covers(a, x) && x >= a[0].hi {
      var i :| 0 <= i < |a| && a[i].lo <= x < a[i].hi;
      assert a[1..][i - 1] == a[i];
    }
  }

  // ---------- chunks ----------

  datatype Chunk = Chunk(area: Area, start: int, count: int)

  predicate InChunk(c: Chunk, area: Area, x: int)
  {
    c.area == area && c.start <= x < c.start + c.count
  }

  predicate Reads(cs: seq<Chunk>, area: Area, x: int)
  {
    exists i :: 0 <= i < |cs| && InChunk(cs[i], area, x)
  }

  predicate Requested(items: seq<ReadItem>, area: Area, x: int)
  {
    exists i :: 0 <= i < |items| && ItemArea(items[i]) == area && items[i].start <= x < items[i].start + items[i].count
  }

  /** Every request is within its function code's limit. */
  predicate WithinLimits(cs: seq<Chunk>)
  {
    forall i :: 0 <= i < |cs| ==> 1 <= cs[i].count <= MaxRead(cs[i].area)
  }

  predicate Precedes(a: Chunk, b: Chunk)
  {
    a.area == b.area ==> a.start + a.count <= b.start
  }

  /** Within an area, requests come in address order and never overlap. */
  predicate InOrder(cs: seq<Chunk>)
  {
    forall i, j :: 0 <= i < j < |cs| ==> Precedes(cs[i], cs[j])
  }

  /** No request could have started at `a` and still reached `b`: either that is too far, or an
      address between them was not asked for. */
  ghost predicate Apart(items: seq<ReadItem>, a: Chunk, b: Chunk)
  {
    || b.start >= a.start + MaxRead(a.area)
    || exists g :: a.start < g < b.start && !Requested(items, a.area, g)
  }

  ghost predicate PlanOk(items: seq<ReadItem>, cs: seq<Chunk>)
  {
    && WithinLimits(cs)
    && InOrder(cs)
    && (forall i, j :: 0 <= i < j < |cs| && cs[i].area == cs[j].area ==> Apart(items, cs[i], cs[j]))
    && (forall area, x :: Reads(cs, area, x) <==> Requested(items, area, x))
  }

  /** The splitting loops for one area: what they append to the plan. */
  ghost predicate AreaPlan(cs: seq<Chunk>, area: Area, merged: seq<Range>)
  {
    && WithinLimits(cs)
    && InOrder(cs)
    && (forall i :: 0 <= i < |cs| ==> cs[i].area == area)
    && (forall i, j :: 0 <= i < j < |cs| ==> RangesApart(merged, cs[i], cs[j]))
    && (forall x :: Reads(cs, area, x) <==> Covers(merged, x))
  }

  ghost predicate RangesApart(merged: seq<Range>, a: Chunk, b: Chunk)
  {
    || b.start >= a.start + MaxRead(a.area)
    || exists g :: a.start < g < b.start && !Covers(merged, g)
  }

  lemma CoversTake(merged: seq<Range>, j: nat, x: int)
    requires j < |merged|
    ensures Covers(merged[..j + 1], x) <==> Covers(merged[..j], x) || merged[j].lo <= x < merged[j].hi
  {
    assert merged[..j + 1] == merged[..j] + [merged[j]];
    CoversSnoc(merged[..j], merged[j], x);
  }

  /** One range cut from its low end into full chunks and a rest. */
  function Pieces(area: Area, s: int, e: int): seq<Chunk>
    decreases e - s
  {
    if s >= e then []
    else
      var k := Min(s + MaxRead(area), e);
      [Chunk(area, s, k - s)] + Pieces(area, k, e)
  }

  /** How many requests a range of this length needs. */
  function RequestsFor(length: nat, limit: nat): nat
    requires limit > 0
  {
    (length + limit - 1) / limit
  }

  /** The chunks tile the range, each a full limit after the one before. */
  ghost predicate Tile(cs: seq<Chunk>, area: Area, s: int, e: int)
  {
    && (forall i :: 0 <= i < |cs| ==> ChunkWithin(cs[i], area, s, e))
    && (forall i, k :: 0 <= i < k < |cs| ==> cs[i].start + MaxRead(area) <= cs[k].start)
    && (forall x :: Reads(cs, area, x) <==> s <= x < e)
  }

  lemma {:induction false} PiecesProps(area: Area, s: int, e: int)
    requires s <= e
    ensures Tile(Pieces(area, s, e), area, s, e)
    decreases e - s
  {
    if s < e {
      var k := Min(s + MaxRead(area), e);
      PiecesProps(area, k, e);
      assert k < e ==> k == s + MaxRead(area);
      TilePrepend(Chunk(area, s, k - s), Pieces(area, k, e), k, e);
    }
  }

  lemma TilePrepend(c: Chunk, rest: seq<Chunk>, k: int, e: int)
    requires ChunkWithin(c, c.area, c.start, k) && c.start + c.count == k <= e && Tile(rest, c.area, k, e)
    requires k < e ==> c.count == MaxRead(c.area)
    ensures Tile([c] + rest, c.area, c.start, e)
  {
    hide MaxRead;
    forall x
      ensures Reads([c] + rest, c.area, x) <==> c.start <= x < e
    {
      ReadsConcat([c], rest, c.area, x);
      ReadsOne(c, c.area, x);
    }
    hide Reads;
  }

  lemma PiecesOrdered(area: Area, s: int, e: int)
    requires s <= e
    ensures WithinLimits(Pieces(area, s, e)) && InOrder(Pieces(area, s, e))
  {
    hide Pieces, Reads;
    PiecesProps(area, s, e);
  }

  lemma PiecesFacts(area: Area, s: int, e: int)
    requires s <= e
    ensures WithinLimits(Pieces(area, s, e)) && InOrder(Pieces(area, s, e))
    ensures |Pieces(area, s, e)| == RequestsFor(e - s, MaxRead(area))
    ensures forall x :: Reads(Pieces(area, s, e), area, x) <==> s <= x < e
  {
    hide Pieces, Reads, WithinLimits, InOrder, RequestsFor;
    PiecesOrdered(area, s, e);
    PiecesProps(area, s, e);
    PiecesLength(area, s, e);
  }

  /** One turn of the splitting loop. */
  lemma PiecesStep(done: seq<Chunk>, area: Area, s: int, e: int)
    requires s < e
    ensures var k := Min(s + MaxRead(area), e);
            done + Pieces(area, s, e) == (done + [Chunk(area, s, k - s)]) + Pieces(area, k, e)
  {}

  lemma PiecesNone(done: seq<Chunk>, area: Area, s: int)
    ensures done + Pieces(area, s, s) == done
  {}

  /** As many chunks as the length divided by the limit, rounded up. */
  lemma {:induction false} PiecesLength(area: Area, s: int, e: int)
    requires s <= e
    ensures |Pieces(area, s, e)| == RequestsFor(e - s, MaxRead(area))
    decreases e - s
  {
    if s < e {
      PiecesLength(area, Min(s + MaxRead(area), e), e);
    }
  }

  lemma ReadsOne(c: Chunk, area: Area, x: int)
    ensures Reads([c], area, x) <==> InChunk(c, area, x)
  {
    assert [c][0] == c;
  }

  /** The innermost loop: one merged range, cut from its low end. */
  method SplitRange(area: Area, s: int, e: int) returns (chunks: seq<Chunk>)
    requires s < e
    ensures chunks == Pieces(area, s, e)
    ensures WithinLimits(chunks) && InOrder(chunks)
    ensures |chunks| == RequestsFor(e - s, MaxRead(area))
    ensures forall x :: Reads(chunks, area, x) <==> s <= x < e
  {
    hide Reads, RequestsFor, WithinLimits, InOrder, Pieces;
    var maxUnits := MaxRead(area);
    chunks := [];
    var cur := s;
    assert [] + Pieces(area, s, e) == Pieces(area, s, e);
    while cur < e
      invariant s <= cur <= e
      invariant chunks + Pieces(area, cur, e) == Pieces(area, s, e)
    {
      PiecesStep(chunks, area, cur, e);
      var chunkEnd := Min(cur + maxUnits, e);
      chunks := chunks + [Chunk(area, cur, chunkEnd - cur)];
      cur := chunkEnd;
    }
    PiecesNone(chunks, area, e);
    PiecesFacts(area, s, e);
  }

  predicate ChunkWithin(c: Chunk, area: Area, s: int, e: int)
  {
    c.area == area && 1 <= c.count <= MaxRead(area) && s <= c.start && c.start + c.count <= e
  }

  lemma ReadsConcat(a: seq<Chunk>, b: seq<Chunk>, area: Area, x: int)
    ensures Reads(a + b, area, x) <==> Reads(a, area, x) || Reads(b, area, x)
  {
    var t := a + b;
    if Reads(a, area, x) {
      var i :| 0 <= i < |a| && InChunk(a[i], area, x);
      assert t[i] == a[i];
    }
    if Reads(b, area, x) {
      var i :| 0 <= i < |b| && InChunk(b[i], area, x);
      assert t[|a| + i] == b[i];
    }
  }

  /** All ranges of one area cut up, one after the other. */
  function AreaChunks(area: Area, merged: seq<Range>): seq<Chunk>
  {
    if merged == [] then []
    else
      var n := |merged| - 1;
      AreaChunks(area, merged[..n]) + Pieces(area, merged[n].lo, merged[n].hi)
  }

  lemma {:induction false} AreaChunksPlan(area: Area, merged: seq<Range>)
    requires Canonical(merged)
    ensures AreaPlan(AreaChunks(area, merged), area, merged)
    ensures merged != [] ==> forall c :: c in AreaChunks(area, merged) ==> c.start + c.count <= merged[|merged| - 1].hi
    decreases |merged|
  {
    if merged != [] {
      var n := |merged| - 1;
      AreaChunksPlan(area, merged[..n]);
      PiecesProps(area, merged[n].lo, merged[n].hi);
      hide Pieces, Tile, AreaPlan, RangesApart, Reads;
      AppendRange(area, merged, AreaChunks(area, merged[..n]), Pieces(area, merged[n].lo, merged[n].hi));
    }
  }

  lemma AppendRange(area: Area, merged: seq<Range>, chunks: seq<Chunk>, more: seq<Chunk>)
    requires merged != [] && Canonical(merged) && AreaPlan(chunks, area, merged[..|merged| - 1])
    requires |merged| > 1 ==> forall c :: c in chunks ==> c.start + c.count <= merged[|merged| - 2].hi
    requires Tile(more, area, merged[|merged| - 1].lo, merged[|merged| - 1].hi)
    ensures AreaPlan(chunks + more, area, merged)
    ensures forall c :: c in chunks + more ==> c.start + c.count <= merged[|merged| - 1].hi
  {
    var n := |merged| - 1;
    var s := merged[n].lo;
    EarlierChunks(area, merged, chunks);
    assert !Covers(merged, s - 1);
    forall i, k | 0 <= i < k < |chunks|
      ensures RangesApart(merged, chunks[i], chunks[k])
    {
      StillApart(merged, chunks[i], chunks[k]);
    }
    forall i, k | 0 <= i < |chunks| && 0 <= k < |more|
      ensures RangesApart(merged, chunks[i], more[k]) && Precedes(chunks[i], more[k])
    {
      assert chunks[i].start < s - 1 < more[k].start;
    }
    forall x
      ensures Reads(chunks + more, area, x) <==> Covers(merged, x)
    {
      ReadsConcat(chunks, more, area, x); CoversTake(merged, n, x);
      assert merged[..n + 1] == merged;
    }
    hide Reads, Covers, RangesApart;
  }

  /** The chunks of the other ranges end before the gap below the last range. */
  lemma EarlierChunks(area: Area, merged: seq<Range>, chunks: seq<Chunk>)
    requires merged != [] && Canonical(merged) && AreaPlan(chunks, area, merged[..|merged| - 1])
    requires |merged| > 1 ==> forall c :: c in chunks ==> c.start + c.count <= merged[|merged| - 2].hi
    ensures forall i :: 0 <= i < |chunks| ==> chunks[i].start + chunks[i].count < merged[|merged| - 1].lo
  {
    forall i | 0 <= i < |chunks|
      ensures chunks[i].start + chunks[i].count < merged[|merged| - 1].lo
    {
      assert chunks[i] in chunks;
      assert InChunk(chunks[i], area, chunks[i].start);
      assert Reads(chunks, area, chunks[i].start);
    }
  }

  lemma StillApart(merged: seq<Range>, a: Chunk, b: Chunk)
    requires merged != [] && Canonical(merged) && RangesApart(merged[..|merged| - 1], a, b)
    requires b.start < merged[|merged| - 1].lo
    ensures RangesApart(merged, a, b)
  {
    var n := |merged| - 1;
    if b.start < a.start + MaxRead(a.area) {
      var g :| a.start < g < b.start && !Covers(merged[..n], g);
      CoversTake(merged, n, g);
      assert merged[..n + 1] == merged;
    }
  }

  method SplitMerged(area: Area, merged: seq<Range>) returns (chunks: seq<Chunk>)
    requires Canonical(merged)
    ensures chunks == AreaChunks(area, merged)
    ensures AreaPlan(chunks, area, merged)
  {
    hide AreaPlan;
    chunks := [];
    for j := 0 to |merged|
      invariant chunks == AreaChunks(area, merged[..j])
    {
      assert merged[..j + 1][..j] == merged[..j];
      var more := SplitRange(area, merged[j].lo, merged[j].hi);
      chunks := chunks + more;
    }
    assert merged[..|merged|] == merged;
    AreaChunksPlan(area, merged);
  }

  // ---------- grouping by area ----------

  function RangesOf(items: seq<ReadItem>, area: Area): seq<Range>
  {
    if items == [] then []
    else
      var n := |items| - 1;
      RangesOf(items[..n], area)
      + if ItemArea(items[n]) == area then [Range(items[n].start, items[n].start + items[n].count)] else []
  }

  lemma {:induction false} RangesOfCovers(items: seq<ReadItem>, area: Area, x: int)
    ensures Covers(RangesOf(items, area), x) <==> Requested(items, area, x)
  {
    if items != [] {
      var n := |items| - 1;
      RangesOfCovers(items[..n], area, x);
      CoversSnoc(RangesOf(items[..n], area), Range(items[n].start, items[n].start + items[n].count), x);
      assert forall i :: 0 <= i < n ==> items[..n][i] == items[i];
      assert RangesOf(items[..n], area) + [] == RangesOf(items[..n], area);
      assert Requested(items, area, x) <==> Requested(items[..n], area, x) || (ItemArea(items[n]) == area && items[n].start <= x < items[n].start + items[n].count);
    }
  }

  lemma {:induction false} RangesOfNonEmpty(items: seq<ReadItem>, area: Area)
    requires AllCount(items)
    ensures NonEmpty(RangesOf(items, area))
  {
    if items != [] {
      RangesOfNonEmpty(items[..|items| - 1], area);
    }
  }

  predicate Distinct(order: seq<Area>)
  {
    forall i, j :: 0 <= i < j < |order| ==> order[i] != order[j]
  }

  /** The `by_area` dictionary with its insertion order. */
  method GroupByArea(items: seq<ReadItem>) returns (order: seq<Area>, byArea: map<Area, seq<Range>>)
    ensures Distinct(order)
    ensures forall area :: area in order ==> area in byArea && byArea[area] == RangesOf(items, area)
    ensures forall area :: area !in order ==> RangesOf(items, area) == []
  {
    hide RangesOf;
    order, byArea := [], map[];
    NoRanges();
    for i := 0 to |items|
      invariant Distinct(order)
      invariant forall area :: area in byArea <==> area in order
      invariant forall area :: area in order ==> byArea[area] == RangesOf(items[..i], area)
      invariant forall area :: area !in order ==> RangesOf(items[..i], area) == []
    {
      var area, r := ItemArea(items[i]), Range(items[i].start, items[i].start + items[i].count);
      forall a { RangesOfSnoc(items, i, a); }
      if area !in byArea {
        order := order + [area];
        byArea := byArea[area := []];
      }
      byArea := byArea[area := byArea[area] + [r]];
    }
    assert items[..|items|] == items;
  }

  lemma NoRanges()
    ensures forall area :: RangesOf([], area) == []
  {}

  lemma RangesOfSnoc(items: seq<ReadItem>, i: nat, a: Area)
    requires i < |items|
    ensures ItemArea(items[i]) == a ==>
              RangesOf(items[..i + 1], a) == RangesOf(items[..i], a) + [Range(items[i].start, items[i].start + items[i].count)]
    ensures ItemArea(items[i]) != a ==> RangesOf(items[..i + 1], a) == RangesOf(items[..i], a)
  {
    assert items[..i + 1][..i] == items[..i];
  }

  /** Appending the chunks of one more area keeps everything said about the others. */
  lemma AddArea(items: seq<ReadItem>, done: seq<Chunk>, more: seq<Chunk>, area: Area, merged: seq<Range>, x: int, a: Area)
    requires AreaPlan(more, area, merged) && SameCover(merged, RangesOf(items, area))
    requires forall i :: 0 <= i < |done| ==> done[i].area != area
    ensures Reads(done + more, a, x) <==> if a == area then Requested(items, a, x) else Reads(done, a, x)
  {
    RangesOfCovers(items, area, x);
    ReadsConcat(done, more, a, x);
  }

  lemma ApartFromRanges(items: seq<ReadItem>, area: Area, merged: seq<Range>, a: Chunk, b: Chunk)
    requires SameCover(merged, RangesOf(items, area)) && a.area == area
    requires RangesApart(merged, a, b)
    ensures Apart(items, a, b)
  {
    if !(b.start >= a.start + MaxRead(a.area)) {
      var g :| a.start < g < b.start && !Covers(merged, g);
      RangesOfCovers(items, area, g);
    }
  }

  lemma ReadsNothing()
    ensures forall area, x :: !Reads([], area, x)
  {}

  lemma NotRequested(items: seq<ReadItem>, area: Area, x: int)
    ensures RangesOf(items, area) == [] ==> !Requested(items, area, x)
  {
    RangesOfCovers(items, area, x);
  }

  /** The chunks of some areas, area by area. */
  function PlanOver(items: seq<ReadItem>, order: seq<Area>): seq<Chunk>
  {
    if order == [] then []
    else
      var n := |order| - 1;
      PlanOver(items, order[..n]) + AreaChunks(order[n], Merged(RangesOf(items, order[n])))
  }

  ghost predicate PlanOkOver(items: seq<ReadItem>, order: seq<Area>, cs: seq<Chunk>)
  {
    && WithinLimits(cs) && InOrder(cs)
    && (forall i :: 0 <= i < |cs| ==> cs[i].area in order)
    && (forall i, j :: 0 <= i < j < |cs| && cs[i].area == cs[j].area ==> Apart(items, cs[i], cs[j]))
    && (forall a, x :: Reads(cs, a, x) <==> a in order && Requested(items, a, x))
  }

  lemma {:induction false} PlanOverOk(items: seq<ReadItem>, order: seq<Area>)
    requires AllCount(items) && Distinct(order)
    ensures PlanOkOver(items, order, PlanOver(items, order))
    decreases |order|
  {
    if order == [] {
      ReadsNothing();
    } else {
      var n := |order| - 1;
      PlanOverOk(items, order[..n]);
      hide PlanOver;
      AddAreaPlan(items, order[..n], PlanOver(items, order[..n]), order[n]);
      assert order == order[..n] + [order[n]];
      PlanOverStep(items, order);
    }
  }

  lemma PlanOverStep(items: seq<ReadItem>, order: seq<Area>)
    requires order != []
    ensures var n := |order| - 1;
            PlanOver(items, order) == PlanOver(items, order[..n]) + AreaChunks(order[n], Merged(RangesOf(items, order[n])))
  {}

  lemma AddAreaPlan(items: seq<ReadItem>, order: seq<Area>, chunks: seq<Chunk>, area: Area)
    requires AllCount(items) && area !in order && PlanOkOver(items, order, chunks)
    ensures PlanOkOver(items, order + [area], chunks + AreaChunks(area, Merged(RangesOf(items, area))))
  {
    hide Reads, Requested, Covers, MaxRead, RangesOf, Apart, RangesApart, Merged, AreaChunks;
    RangesOfNonEmpty(items, area);
    var merged := Merged(RangesOf(items, area));
    MergedProps(RangesOf(items, area));
    var more := AreaChunks(area, merged);
    AreaChunksPlan(area, merged);
    forall i, j | 0 <= i < j < |more|
      ensures Apart(items, more[i], more[j])
    {
      ApartFromRanges(items, area, merged, more[i], more[j]);
    }
    forall a, x
      ensures Reads(chunks + more, a, x) <==> a in order + [area] && Requested(items, a, x)
    {
      AddArea(items, chunks, more, area, merged, x, a);
    }
  }

  /** With every area that occurs in the batch, it is the plan. */
  lemma AllAreas(items: seq<ReadItem>, order: seq<Area>, cs: seq<Chunk>)
    requires PlanOkOver(items, order, cs)
    requires forall area :: area !in order ==> RangesOf(items, area) == []
    ensures PlanOk(items, cs)
  {
    hide Reads, Requested, RangesOf, Apart;
    forall a, x
      ensures Reads(cs, a, x) <==> Requested(items, a, x)
    {
      NotRequested(items, a, x);
    }
  }

  predicate AllCount(items: seq<ReadItem>)
  {
    forall i :: 0 <= i < |items| ==> items[i].count > 0
  }

  method PlanReadChunks(items: seq<ReadItem>) returns (chunks: seq<Chunk>)
    requires AllCount(items)
    ensures PlanOk(items, chunks)
    ensures |chunks| == PlanSize(items)
  {
    hide RangesOf, AreaChunks, Merged, AreaPlan, PlanOkOver, PlanOk, PlanSize, Covers;
    var order, byArea := GroupByArea(items);
    chunks := [];
    for k := 0 to |order|
      invariant chunks == PlanOver(items, order[..k])
    {
      assert order[..k + 1][..k] == order[..k];
      var area := order[k];
      RangesOfNonEmpty(items, area);
      var merged := MergeRanges(byArea[area]);
      var more := SplitMerged(area, merged);
      chunks := chunks + more;
    }
    assert order[..|order|] == order;
    PlanOverOk(items, order);
    AllAreas(items, order, chunks);
    PlanLength(items, chunks);
  }

  // ---------- how many requests a batch takes ----------

  /** The requests for all ranges of one area, each rounded up on its own. */
  function RangesSize(merged: seq<Range>, limit: nat): nat
    requires limit > 0 && NonEmpty(merged)
  {
    if merged == [] then 0
    else
      var n := |merged| - 1;
      RangesSize(merged[..n], limit) + RequestsFor(merged[n].hi - merged[n].lo, limit)
  }

  function AreaSize(items: seq<ReadItem>, area: Area): nat
    requires AllCount(items)
  {
    RangesOfNonEmpty(items, area);
    MergedProps(RangesOf(items, area));
    RangesSize(Merged(RangesOf(items, area)), MaxRead(area))
  }

  /** The length of the plan, computed from the batch alone. */
  function PlanSize(items: seq<ReadItem>): nat
    requires AllCount(items)
  {
    AreaSize(items, HoldingArea) + AreaSize(items, InputArea) + AreaSize(items, CoilArea) + AreaSize(items, DiscreteArea)
  }

  const AREAS: seq<Area> := [HoldingArea, InputArea, CoilArea, DiscreteArea]

  lemma {:induction false} AreaChunksLength(area: Area, merged: seq<Range>)
    requires NonEmpty(merged)
    ensures |AreaChunks(area, merged)| == RangesSize(merged, MaxRead(area))
    decreases |merged|
  {
    if merged != [] {
      AreaChunksLength(area, merged[..|merged| - 1]);
      PiecesLength(area, merged[|merged| - 1].lo, merged[|merged| - 1].hi);
    }
  }

  lemma AreaLength(items: seq<ReadItem>, area: Area)
    requires AllCount(items)
    ensures |AreaChunks(area, Merged(RangesOf(items, area)))| == AreaSize(items, area)
  {
    RangesOfNonEmpty(items, area);
    MergedProps(RangesOf(items, area));
    AreaChunksLength(area, Merged(RangesOf(items, area)));
  }

  /** Every plan of this kind has exactly that many requests. */
  lemma PlanLength(items: seq<ReadItem>, cs: seq<Chunk>)
    requires AllCount(items) && PlanOk(items, cs)
    ensures |cs| == PlanSize(items)
  {
    hide PlanOk, PlanOkOver, AreaSize, AreaChunks, Merged, RangesOf;
    var plan := PlanOver(items, AREAS);
    EveryArea();
    PlanOverOk(items, AREAS);
    AllAreas(items, AREAS, plan);
    SamePlanLength(items, cs, plan);
    AreaLength(items, HoldingArea); AreaLength(items, InputArea);
    AreaLength(items, CoilArea); AreaLength(items, DiscreteArea);
    FourAreas(items);
  }

  lemma EveryArea()
    ensures Distinct(AREAS) && forall area: Area :: area in AREAS
  {
    forall area: Area
      ensures area in AREAS
    {
      match area
      case HoldingArea => assert AREAS[0] == area;
      case InputArea => assert AREAS[1] == area;
      case CoilArea => assert AREAS[2] == area;
      case DiscreteArea => assert AREAS[3] == area;
    }
  }

  lemma FourAreas(items: seq<ReadItem>)
    ensures PlanOver(items, AREAS)
         == AreaChunks(HoldingArea, Merged(RangesOf(items, HoldingArea))) + AreaChunks(InputArea, Merged(RangesOf(items, InputArea)))
            + AreaChunks(CoilArea, Merged(RangesOf(items, CoilArea))) + AreaChunks(DiscreteArea, Merged(RangesOf(items, DiscreteArea)))
  {
    hide AreaChunks, Merged, RangesOf, PlanOver;
    var h, i, c := [HoldingArea], [HoldingArea, InputArea], [HoldingArea, InputArea, CoilArea];
    assert AREAS[..3] == c && c[..2] == i && i[..1] == h && h[..0] == [];
    PlanOverStep(items, AREAS); PlanOverStep(items, c); PlanOverStep(items, i); PlanOverStep(items, h);
    PlanOverNone(items);
  }

  lemma PlanOverNone(items: seq<ReadItem>)
    ensures PlanOver(items, []) == []
  {}

  lemma SamePlanLength(items: seq<ReadItem>, a: seq<Chunk>, b: seq<Chunk>)
    requires PlanOk(items, a) && PlanOk(items, b)
    ensures |a| == |b|
  {
    PlanIsMinimal(items, a, b);
    PlanIsMinimal(items, b, a);
  }

  // ---------- optimality ----------

  lemma {:induction false} Pigeonhole(homes: seq<nat>, n: nat)
    requires forall i :: 0 <= i < |homes| ==> homes[i] < n
    requires forall i, j :: 0 <= i < j < |homes| ==> homes[i] != homes[j]
    ensures |homes| <= n
    decreases n
  {
    assert homes != [] ==> homes[0] < n;
    if n > 0 && n - 1 in homes {
      var p :| 0 <= p < |homes| && homes[p] == n - 1;
      var rest := homes[..p] + homes[p + 1..];
      Pigeonhole(rest, n - 1);
    } else if n > 0 {
      Pigeonhole(homes, n - 1);
    }
  }

  /** If no request of another plan can hold two of our starting addresses, the other plan has
      at least as many requests. */
  lemma NoFewerRequests(cs: seq<Chunk>, other: seq<Chunk>)
    requires WithinLimits(cs)
    requires forall i :: 0 <= i < |cs| ==> Reads(other, cs[i].area, cs[i].start)
    requires forall i, j, h :: 0 <= i < j < |cs| && 0 <= h < |other| ==>
               !(InChunk(other[h], cs[i].area, cs[i].start) && InChunk(other[h], cs[j].area, cs[j].start))
    ensures |cs| <= |other|
  {
    var homes: seq<nat> := [];
    for k := 0 to |cs|
      invariant |homes| == k
      invariant forall i :: 0 <= i < k ==> homes[i] < |other| && InChunk(other[homes[i]], cs[i].area, cs[i].start)
    {
      assert Reads(other, cs[k].area, cs[k].start);
      var h :| 0 <= h < |other| && InChunk(other[h], cs[k].area, cs[k].start);
      homes := homes + [h];
    }
    Pigeonhole(homes, |other|);
  }

  lemma CannotHoldBoth(items: seq<ReadItem>, a: Chunk, b: Chunk, o: Chunk)
    requires a.area == b.area && Apart(items, a, b)
    requires o.count <= MaxRead(o.area)
    requires forall x :: InChunk(o, a.area, x) ==> Requested(items, a.area, x)
    ensures !(InChunk(o, a.area, a.start) && InChunk(o, b.area, b.start))
  {
    if b.start < a.start + MaxRead(a.area) {
      var g :| a.start < g < b.start && !Requested(items, a.area, g);
      assert !InChunk(o, a.area, g);
    }
  }

  /** No plan that respects the limits and reads exactly the requested addresses has fewer requests. */
  lemma PlanIsMinimal(items: seq<ReadItem>, cs: seq<Chunk>, other: seq<Chunk>)
    requires PlanOk(items, cs)
    requires WithinLimits(other)
    requires forall area, x :: Reads(other, area, x) <==> Requested(items, area, x)
    ensures |cs| <= |other|
  {
    forall i | 0 <= i < |cs|
      ensures Reads(other, cs[i].area, cs[i].start)
    {
      assert InChunk(cs[i], cs[i].area, cs[i].start);
      assert Reads(cs, cs[i].area, cs[i].start);
    }
    forall i, j, h | 0 <= i < j < |cs| && 0 <= h < |other|
      ensures !(InChunk(other[h], cs[i].area, cs[i].start) && InChunk(other[h], cs[j].area, cs[j].start))
    {
      if cs[i].area == cs[j].area {
        forall x | InChunk(other[h], cs[i].area, x)
          ensures Requested(items, cs[i].area, x)
        {
          assert Reads(other, cs[i].area, x);
        }
        CannotHoldBoth(items, cs[i], cs[j], other[h]);
      }
    }
    NoFewerRequests(cs, other);
  }

  /** Bridging a gap with unrequested addresses can beat the plan, which never does so. */
  lemma BridgingCanBeShorter(r: Reading, wo: Order, bo: Order, n: Numbering, cs: seq<Chunk>)
    requires PlanOk([Holding(0, 1, r, wo, bo, n), Holding(2, 1, r, wo, bo, n)], cs)
    ensures var items := [Holding(0, 1, r, wo, bo, n), Holding(2, 1, r, wo, bo, n)];
            var bridged := [Chunk(HoldingArea, 0, 3)];
            && WithinLimits(bridged)
            && (forall area, x :: Requested(items, area, x) ==> Reads(bridged, area, x))
            && |bridged| < |cs|
  {
    var items := [Holding(0, 1, r, wo, bo, n), Holding(2, 1, r, wo, bo, n)];
    var bridged := [Chunk(HoldingArea, 0, 3)];
    assert InChunk(bridged[0], HoldingArea, 0) && InChunk(bridged[0], HoldingArea, 2);
    assert ItemArea(items[0]) == HoldingArea && ItemArea(items[1]) == HoldingArea;
    assert Requested(items, HoldingArea, 0) && Requested(items, HoldingArea, 2);
    assert !Requested(items, HoldingArea, 1);
    var i :| 0 <= i < |cs| && InChunk(cs[i], HoldingArea, 0);
    var j :| 0 <= j < |cs| && InChunk(cs[j], HoldingArea, 2);
    assert !Reads(cs, HoldingArea, 1);
    assert !InChunk(cs[i], HoldingArea, 1);
  }

  // ---------- exactly when bridging gaps would not help ----------

  /** Windows of full request length, each starting at a requested address that no other window
      reaches, that together cover every requested address: a left-to-right sweep. */
  ghost predicate IsSweep(items: seq<ReadItem>, ws: seq<Chunk>)
  {
    && (forall i :: 0 <= i < |ws| ==> ws[i].count == MaxRead(ws[i].area) && Requested(items, ws[i].area, ws[i].start))
    && (forall i, j :: 0 <= i < j < |ws| ==> Precedes(ws[i], ws[j]))
    && CoversItems(items, ws)
  }

  ghost predicate CoversItems(items: seq<ReadItem>, cs: seq<Chunk>)
  {
    forall area, x :: Requested(items, area, x) ==> Reads(cs, area, x)
  }

  /** No plan within the limits that reads at least the requested addresses has fewer requests. */
  ghost predicate ShortestOfAll(items: seq<ReadItem>, cs: seq<Chunk>)
  {
    forall other :: WithinLimits(other) && CoversItems(items, other) ==> |cs| <= |other|
  }

  /** The windows of a sweep cannot be merged by any plan. */
  lemma SweepIsLowerBound(items: seq<ReadItem>, ws: seq<Chunk>, other: seq<Chunk>)
    requires IsSweep(items, ws) && WithinLimits(other) && CoversItems(items, other)
    ensures |ws| <= |other|
  {
    forall i, j, h | 0 <= i < j < |ws| && 0 <= h < |other|
      ensures !(InChunk(other[h], ws[i].area, ws[i].start) && InChunk(other[h], ws[j].area, ws[j].start))
    {
      assert Precedes(ws[i], ws[j]);
    }
    NoFewerRequests(ws, other);
  }

  /** Full windows over sorted ranges, each opened at the first address that is neither below `from`
      nor in an earlier window. */
  function SweepRanges(area: Area, rs: seq<Range>, from: int): seq<Chunk>
    decreases |rs|, if rs == [] then 0 else Max(0, rs[0].hi - from)
  {
    if rs == [] then []
    else
      var p := Max(rs[0].lo, from);
      if p >= rs[0].hi then SweepRanges(area, rs[1..], from)
      else [Chunk(area, p, MaxRead(area))] + SweepRanges(area, rs, p + MaxRead(area))
  }

  ghost predicate SweepFrom(area: Area, rs: seq<Range>, from: int, ws: seq<Chunk>)
  {
    && (forall i :: 0 <= i < |ws| ==> Window(ws[i], area, from) && Covers(rs, ws[i].start))
    && InOrder(ws)
    && forall x :: Covers(rs, x) && x >= from ==> Reads(ws, area, x)
  }

  predicate Window(w: Chunk, area: Area, from: int)
  {
    w.area == area && w.count == MaxRead(area) && w.start >= from
  }

  lemma {:induction false} SweepRangesProps(area: Area, rs: seq<Range>, from: int)
    requires Canonical(rs)
    ensures SweepFrom(area, rs, from, SweepRanges(area, rs, from))
    decreases |rs|, if rs == [] then 0 else Max(0, rs[0].hi - from)
  {
    hide SweepFrom, Covers, Reads;
    if rs == [] {
      NothingToSweep(area, from);
    } else {
      var p := Max(rs[0].lo, from);
      if p >= rs[0].hi {
        SweepRangesProps(area, rs[1..], from);
        SkipRange(area, rs, from, SweepRanges(area, rs[1..], from));
      } else {
        var w := Chunk(area, p, MaxRead(area));
        SweepRangesProps(area, rs, p + MaxRead(area));
        OpenWindow(area, rs, from, w, SweepRanges(area, rs, p + MaxRead(area)));
      }
    }
  }

  lemma NothingToSweep(area: Area, from: int)
    ensures SweepFrom(area, [], from, [])
  {}

  lemma SkipRange(area: Area, rs: seq<Range>, from: int, ws: seq<Chunk>)
    requires Canonical(rs) && rs != [] && from >= rs[0].hi && SweepFrom(area, rs[1..], from, ws)
    ensures SweepFrom(area, rs, from, ws)
  {
    hide Covers, Reads;
    forall x
      ensures Covers(rs[1..], x) <==> Covers(rs, x) && x >= rs[0].hi
    {
      CoversTail(rs, x);
    }
  }

  lemma OpenWindow(area: Area, rs: seq<Range>, from: int, w: Chunk, ws: seq<Chunk>)
    requires Canonical(rs) && rs != [] && w == Chunk(area, Max(rs[0].lo, from), MaxRead(area)) && w.start < rs[0].hi
    requires SweepFrom(area, rs, w.start + MaxRead(area), ws)
    ensures SweepFrom(area, rs, from, [w] + ws)
  {
    hide Covers, Reads, MaxRead;
    HeadFacts(rs);
    forall x | Covers(rs, x) && x >= from
      ensures Reads([w] + ws, area, x)
    {
      ReadsConcat([w], ws, area, x);
      ReadsOne(w, area, x);
    }
    hide InChunk;
    forall i | 0 <= i < |[w] + ws|
      ensures Window(([w] + ws)[i], area, from) && Covers(rs, ([w] + ws)[i].start)
    {
      assert i > 0 ==> ([w] + ws)[i] == ws[i - 1];
      assert i > 0 ==> Window(ws[i - 1], area, w.start + w.count);
      NonNegative(area);
    }
    WindowFirst(w, ws);
  }

  lemma NonNegative(area: Area)
    ensures MaxRead(area) > 0
  {}

  lemma WindowFirst(w: Chunk, ws: seq<Chunk>)
    requires InOrder(ws) && forall i :: 0 <= i < |ws| ==> Precedes(w, ws[i])
    ensures InOrder([w] + ws)
  {
    hide Precedes;
  }

  /** The sweep of one area of a batch. */
  function SweepArea(items: seq<ReadItem>, area: Area): seq<Chunk>
  {
    var rs := Merged(RangesOf(items, area));
    SweepRanges(area, rs, if rs == [] then 0 else rs[0].lo)
  }

  /** The sweep of a batch, computed from its items. */
  function Sweep(items: seq<ReadItem>): seq<Chunk>
  {
    SweepArea(items, HoldingArea) + SweepArea(items, InputArea) + SweepArea(items, CoilArea) + SweepArea(items, DiscreteArea)
  }

  ghost predicate AreaSweep(items: seq<ReadItem>, area: Area, ws: seq<Chunk>)
  {
    && (forall i :: 0 <= i < |ws| ==> ws[i].area == area && ws[i].count == MaxRead(area) && Requested(items, area, ws[i].start))
    && InOrder(ws)
    && forall x :: Requested(items, area, x) ==> Reads(ws, area, x)
  }

  lemma SweepAreaProps(items: seq<ReadItem>, area: Area)
    requires AllCount(items)
    ensures AreaSweep(items, area, SweepArea(items, area))
  {
    hide Covers, Requested, Reads, RangesOf, Merged, SweepRanges;
    RangesOfNonEmpty(items, area);
    MergedProps(RangesOf(items, area));
    var rs := Merged(RangesOf(items, area));
    var from := if rs == [] then 0 else rs[0].lo;
    SweepRangesProps(area, rs, from);
    HeadFacts(rs);
    forall x
      ensures Covers(rs, x) <==> Requested(items, area, x)
    {
      RangesOfCovers(items, area, x);
    }
    assert forall i :: 0 <= i < |SweepArea(items, area)| ==> Window(SweepArea(items, area)[i], area, from);
  }

  /** The sweep computed from the items is one. */
  lemma SweepIsSweep(items: seq<ReadItem>)
    requires AllCount(items)
    ensures IsSweep(items, Sweep(items))
  {
    hide SweepArea, Requested, Reads, MaxRead;
    var h, i, c, d := SweepArea(items, HoldingArea), SweepArea(items, InputArea), SweepArea(items, CoilArea), SweepArea(items, DiscreteArea);
    SweepAreaProps(items, HoldingArea); SweepAreaProps(items, InputArea);
    SweepAreaProps(items, CoilArea); SweepAreaProps(items, DiscreteArea);
    forall area, x | Requested(items, area, x)
      ensures Reads(Sweep(items), area, x)
    {
      ReadsConcat(h, i, area, x); ReadsConcat(h + i, c, area, x); ReadsConcat(h + i + c, d, area, x);
      match area
      case HoldingArea => assert Reads(h, area, x);
      case InputArea => assert Reads(i, area, x);
      case CoilArea => assert Reads(c, area, x);
      case DiscreteArea => assert Reads(d, area, x);
    }
  }

  /** Gaps are never bridged, so the plan can lose to one that bridges them. It does not, whatever
      the other plan reads, exactly when rounding up each range on its own costs no more than
      sweeping over the gaps: two numbers that come from the batch alone. */
  lemma ShortestIffSweep(items: seq<ReadItem>, cs: seq<Chunk>)
    requires AllCount(items) && PlanOk(items, cs)
    ensures |Sweep(items)| <= PlanSize(items)
    ensures ShortestOfAll(items, cs) <==> PlanSize(items) == |Sweep(items)|
  {
    hide PlanSize, Sweep;
    PlanLength(items, cs);
    SweepIsSweep(items);
    var ws := Sweep(items);
    SweepIsLowerBound(items, ws, cs);
    if |cs| == |ws| {
      forall other | WithinLimits(other) && CoversItems(items, other)
        ensures |cs| <= |other|
      {
        SweepIsLowerBound(items, ws, other);
      }
    }
    if ShortestOfAll(items, cs) {
      assert WithinLimits(ws);
    }
  }

  /** Every requested address is read by exactly one request. */
  lemma ReadExactlyOnce(items: seq<ReadItem>, cs: seq<Chunk>, area: Area, x: int)
    requires PlanOk(items, cs) && Requested(items, area, x)
    ensures exists i :: && 0 <= i < |cs| && InChunk(cs[i], area, x)
                        && forall j :: 0 <= j < |cs| && InChunk(cs[j], area, x) ==> j == i
  {
    assert Reads(cs, area, x);
    var i :| 0 <= i < |cs| && InChunk(cs[i], area, x);
    InOneOnly(cs, area, x, i);
  }

  lemma InOneOnly(cs: seq<Chunk>, area: Area, x: int, i: nat)
    requires InOrder(cs) && i < |cs| && InChunk(cs[i], area, x)
    ensures forall j :: 0 <= j < |cs| && InChunk(cs[j], area, x) ==> j == i
  {
    assert forall j :: 0 <= j < i ==> Precedes(cs[j], cs[i]);
    assert forall j :: i < j < |cs| ==> Precedes(cs[i], cs[j]);
  }
}
