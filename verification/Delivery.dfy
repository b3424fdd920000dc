/**
  Batch writes over a lossy network: the client of src/pymod/client.py retries, requests get lost
  on the way out and replies on the way back, and the results of src/pymod/planner.py still say
  which items are stored.
 */
module Delivery {
  import opened Basics
  import opened Errors
  import opened SimStore
  import opened Server
  import opened WritePlan
  import opened EndToEnd
  import Client

  /** For attempt n of the chunk at position k: what the client sees, and whether the request
      reached the device. */
  datatype Network = Network(outcome: (nat, nat) -> Result<seq<byte>, Error>, reached: (nat, nat) -> bool)

  /** A reply means that the request arrived. A failure leaves open whether it did. */
  ghost predicate Honest(net: Network)
  {
    forall k: nat, n: nat :: net.outcome(k, n).Ok? ==> net.reached(k, n)
  }

  /** What the retry loop made of one chunk. */
  datatype Ending = Ending(result: Result<seq<byte>, Error>, sends: nat)

  ghost predicate Carried(maxAttempts: int, retryOn: Error -> bool, net: Network, ends: seq<Ending>)
  {
    forall k :: 0 <= k < |ends| ==>
      Client.Ended(maxAttempts, retryOn, (n: nat) => net.outcome(k, n), Some(ends[k].result), ends[k].sends)
  }

  /** Some attempt that was made for chunk k reached the device. */
  predicate Arrived(net: Network, ends: seq<Ending>, k: nat)
    requires k < |ends|
  {
    exists n: nat :: n < ends[k].sends && net.reached(k, n)
  }

  /** The device executes exactly the chunks that arrived, in any order, any of them repeatedly. */
  ghost predicate Delivered(net: Network, ends: seq<Ending>, order: seq<nat>)
  {
    && (forall i :: 0 <= i < |order| ==> order[i] < |ends|)
    && (forall k :: 0 <= k < |ends| ==> (k in order <==> Arrived(net, ends, k)))
  }

  function ChunkErrors(cs: seq<WriteChunk>, ends: seq<Ending>): (errs: seq<Option<Error>>)
    requires |ends| == |cs|
    ensures |errs| == |cs|
  {
    seq(|cs|, k requires 0 <= k < |cs| => ExecuteWriteChunk(cs[k], (req: seq<byte>) => ends[k].result))
  }

  /** A chunk that ended well has arrived. */
  lemma OkChunkArrived(maxAttempts: int, retryOn: Error -> bool, net: Network, cs: seq<WriteChunk>, ends: seq<Ending>, k: nat)
    requires Honest(net) && |ends| == |cs| && Carried(maxAttempts, retryOn, net, ends) && k < |cs|
    requires ChunkErrors(cs, ends)[k].None?
    ensures Arrived(net, ends, k)
  {
    var last := ends[k].sends - 1;
    assert ends[k].result == net.outcome(k, last);
    assert net.reached(k, last);
  }

  /** A chunk can fail to encode only for its address, and then the whole batch raises. */
  lemma EncodesUnlessRaised(ws: seq<WriteItem>, cs: seq<WriteChunk>, ends: seq<Ending>, k: nat)
    requires Direct(ws).Ok? && WritePlanOk(Direct(ws).value, cs) && |ends| == |cs| && k < |cs|
    requires ChunkErrors(cs, ends)[k] != Some(ValueError)
    ensures Sendable(cs[k])
  {
    hide Direct, WritePlanOk;
    ChunkCells(ws, Direct(ws).value, cs, k);
    WritableArea(ws, Direct(ws).value, cs, k);
  }

  lemma WritableArea(ws: seq<WriteItem>, ds: seq<WriteChunk>, cs: seq<WriteChunk>, k: nat)
    requires Direct(ws) == Ok(ds) && WritePlanOk(ds, cs) && k < |cs|
    ensures cs[k].area.HoldingArea? || cs[k].area.CoilArea?
  {
    hide Direct;
    DirectItems(ws);
    assert SliceOf(cs[k], ds[cs[k].item]);
  }

  /** The batch came back with results: its plan, the endings of its chunks, and what the device did. */
  ghost predicate Completed(ws: seq<WriteItem>, cs: seq<WriteChunk>, maxAttempts: int, retryOn: Error -> bool,
                            net: Network, ends: seq<Ending>, order: seq<nat>)
  {
    && Direct(ws).Ok? && WritePlanOk(Direct(ws).value, cs) && |ends| == |cs|
    && Honest(net) && Carried(maxAttempts, retryOn, net, ends) && Delivered(net, ends, order)
    && forall k :: 0 <= k < |cs| ==> ChunkErrors(cs, ends)[k] != Some(ValueError)
  }

  lemma CompletedSends(ws: seq<WriteItem>, cs: seq<WriteChunk>, maxAttempts: int, retryOn: Error -> bool, net: Network, ends: seq<Ending>, order: seq<nat>)
    requires Completed(ws, cs, maxAttempts, retryOn, net, ends, order)
    ensures forall k :: 0 <= k < |cs| ==> Sendable(cs[k]) && EncodeWriteChunk(cs[k]).Ok?
    ensures forall i :: 0 <= i < |order| ==> order[i] < |cs|
  {
    hide Sendable, EncodeWriteChunk, Direct, WritePlanOk, ChunkErrors, Carried, Honest;
    forall k | 0 <= k < |cs|
      ensures Sendable(cs[k]) && EncodeWriteChunk(cs[k]).Ok?
    {
      EncodesUnlessRaised(ws, cs, ends, k);
      ChunkParses(cs[k]);
    }
  }

  /** An item reported ok is stored, every cell of it, whatever was lost, retried, repeated or
      failed elsewhere in the batch; and an address changes only if a chunk that holds it arrived. */
  lemma OkItemStored(cfg: SimConfig, s: Store, uid: byte, ws: seq<WriteItem>, cs: seq<WriteChunk>, maxAttempts: int,
                     retryOn: Error -> bool, net: Network, ends: seq<Ending>, order: seq<nat>)
    requires Reaches(cfg, uid) && Completed(ws, cs, maxAttempts, retryOn, net, ends, order)
    requires Consistent(Direct(ws).value)
    ensures (forall k :: 0 <= k < |cs| ==> EncodeWriteChunk(cs[k]).Ok?) && forall i :: 0 <= i < |order| ==> order[i] < |cs|
    ensures var t, ds := SendAll(cfg, s, uid, cs, order), Direct(ws).value;
            && (forall i, a :: 0 <= i < |ds| && FirstErrorOf(cs, ChunkErrors(cs, ends), i).None? && Holds(ds[i], ds[i].area, a) ==>
                  CellAt(t, ds[i].area, a) == Some(ValueAt(ds[i], a)))
            && (forall area, a :: (forall k :: 0 <= k < |cs| && Holds(cs[k], area, a) ==> !Arrived(net, ends, k)) ==>
                  CellAt(t, area, a) == CellAt(s, area, a))
  {
    CompletedSends(ws, cs, maxAttempts, retryOn, net, ends, order);
    hide Sendable, EncodeWriteChunk, SendAll, Execute, CellAt, ValueAt, Direct, WritePlanOk, Consistent, FirstErrorOf, ChunkErrors, Carried, Honest, Arrived;
    SendAllIsExecute(cfg, s, uid, cs, order);
    var ds := Direct(ws).value;
    forall i, a | 0 <= i < |ds| && FirstErrorOf(cs, ChunkErrors(cs, ends), i).None? && Holds(ds[i], ds[i].area, a)
      ensures CellAt(Execute(s, cs, order), ds[i].area, a) == Some(ValueAt(ds[i], a))
    {
      FailsIffOwnChunkFails(cs, ChunkErrors(cs, ends), i);
      forall k | 0 <= k < |cs| && cs[k].item == i
        ensures k in order
      {
        OkChunkArrived(maxAttempts, retryOn, net, cs, ends, k);
      }
      ExecutedItemStored(s, ds, cs, order, i, a);
    }
    forall area, a | forall k :: 0 <= k < |cs| && Holds(cs[k], area, a) ==> !Arrived(net, ends, k)
      ensures CellAt(Execute(s, cs, order), area, a) == CellAt(s, area, a)
    {
      ExecuteLookup(s, cs, order, area, a);
    }
  }

  /** Every attempt times out; whether the requests arrive is not for the client to see. */
  function Silence(arrives: bool): Network
  {
    Network((k: nat, n: nat) => Err(TimeoutError), (k: nat, n: nat) => arrives)
  }

  function TimedOut(chunks: nat, sends: nat): (ends: seq<Ending>)
    ensures |ends| == chunks && forall k :: 0 <= k < chunks ==> ends[k] == Ending(Err(TimeoutError), sends)
  {
    seq(chunks, k requires 0 <= k < chunks => Ending(Err(TimeoutError), sends))
  }

  /** The other direction cannot be had. For every batch, retry policy and device memory there are
      two runs that look the same to the client, with every item reported failed: in one all of
      the batch is stored, in the other nothing. */
  lemma FailureSaysNothing(cfg: SimConfig, s: Store, uid: byte, ws: seq<WriteItem>, cs: seq<WriteChunk>, maxAttempts: int, retryOn: Error -> bool)
    returns (ends: seq<Ending>)
    requires Reaches(cfg, uid) && Direct(ws).Ok? && InSpace(Direct(ws).value) && Consistent(Direct(ws).value)
    requires WritePlanOk(Direct(ws).value, cs) && maxAttempts >= 1
    ensures Completed(ws, cs, maxAttempts, retryOn, Silence(true), ends, Identity(|cs|))
    ensures Completed(ws, cs, maxAttempts, retryOn, Silence(false), ends, [])
    ensures forall i :: 0 <= i < |ws| ==> FirstErrorOf(cs, ChunkErrors(cs, ends), i).Some?
    ensures forall k :: 0 <= k < |cs| ==> EncodeWriteChunk(cs[k]).Ok?
    ensures SendAll(cfg, s, uid, cs, Identity(|cs|)) == Execute(s, Direct(ws).value, Identity(|ws|))
    ensures SendAll(cfg, s, uid, cs, []) == s
  {
    hide *;
    ends := TimedOut(|cs|, if retryOn(TimeoutError) then maxAttempts else 1);
    var ds := Direct(ws).value;
    PlanIsSendable(ws, ds, cs);
    AllTimeOut(cs, ends);
    SilentRuns(maxAttempts, retryOn, |cs|);
    BothComplete(ws, cs, maxAttempts, retryOn, ends);
    forall i | 0 <= i < |ws|
      ensures FirstErrorOf(cs, ChunkErrors(cs, ends), i).Some?
    {
      var k := SomeChunk(ws, ds, cs, i);
      FailsIffOwnChunkFails(cs, ChunkErrors(cs, ends), i);
    }
    InPlanOrder(cs);
    SendAllIsExecute(cfg, s, uid, cs, Identity(|cs|));
    OrderIndependent(s, ds, cs, Identity(|cs|));
    SendAllIsExecute(cfg, s, uid, cs, []);
    NothingExecuted(s, cs);
  }

  lemma BothComplete(ws: seq<WriteItem>, cs: seq<WriteChunk>, maxAttempts: int, retryOn: Error -> bool, ends: seq<Ending>)
    requires Direct(ws).Ok? && WritePlanOk(Direct(ws).value, cs) && |ends| == |cs|
    requires Honest(Silence(true)) && Carried(maxAttempts, retryOn, Silence(true), ends) && Delivered(Silence(true), ends, Identity(|cs|))
    requires Honest(Silence(false)) && Carried(maxAttempts, retryOn, Silence(false), ends) && Delivered(Silence(false), ends, [])
    requires forall k :: 0 <= k < |cs| ==> ChunkErrors(cs, ends)[k] == Some(TimeoutError)
    ensures Completed(ws, cs, maxAttempts, retryOn, Silence(true), ends, Identity(|cs|))
    ensures Completed(ws, cs, maxAttempts, retryOn, Silence(false), ends, [])
  {
    hide Direct, WritePlanOk, Honest, Carried, Delivered, ChunkErrors;
  }

  lemma SilentRuns(maxAttempts: int, retryOn: Error -> bool, chunks: nat)
    requires maxAttempts >= 1
    ensures var ends := TimedOut(chunks, if retryOn(TimeoutError) then maxAttempts else 1);
            && Honest(Silence(true)) && Carried(maxAttempts, retryOn, Silence(true), ends) && Delivered(Silence(true), ends, Identity(chunks))
            && Honest(Silence(false)) && Carried(maxAttempts, retryOn, Silence(false), ends) && Delivered(Silence(false), ends, [])
  {
    var ends, id := TimedOut(chunks, if retryOn(TimeoutError) then maxAttempts else 1), Identity(chunks);
    forall k | 0 <= k < chunks
      ensures k in id && Arrived(Silence(true), ends, k)
    {
      assert id[k] == k;
      assert Silence(true).reached(k, 0);
    }
  }

  lemma InPlanOrder(cs: seq<WriteChunk>)
    ensures Complete(cs, Identity(|cs|)) && forall i :: 0 <= i < |cs| ==> Identity(|cs|)[i] < |cs|
  {
    var id := Identity(|cs|);
    forall k | 0 <= k < |cs|
      ensures k in id
    {
      assert id[k] == k;
    }
  }

  lemma NothingExecuted(s: Store, cs: seq<WriteChunk>)
    ensures Execute(s, cs, []) == s
  {}

  lemma AllTimeOut(cs: seq<WriteChunk>, ends: seq<Ending>)
    requires |ends| == |cs| && forall k :: 0 <= k < |cs| ==> Sendable(cs[k]) && ends[k].result == Err(TimeoutError)
    ensures forall k :: 0 <= k < |cs| ==> ChunkErrors(cs, ends)[k] == Some(TimeoutError)
  {
    hide Sendable, EncodeWriteChunk;
    forall k | 0 <= k < |cs|
      ensures ChunkErrors(cs, ends)[k] == Some(TimeoutError)
    {
      ChunkParses(cs[k]);
    }
  }
}
