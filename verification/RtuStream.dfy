/**
  Reading RTU responses, which carry no length, from a byte stream:
  src/pymod/transport/_rtu_response.py.
 */
module RtuStream {
  import opened Basics
  import opened Pdu
  import RtuFrame

  datatype Taken = Frame(frame: seq<byte>, rest: seq<byte>) | Incomplete | UnknownFunction

  predicate IsReadFc(fc: byte) { 1 <= fc <= 4 }

  function TakeExactly(stream: seq<byte>, n: nat): Taken
  {
    if |stream| < n then Incomplete else Frame(stream[..n], stream[n..])
  }

  /** The frame at the front of the stream, its length inferred from the function code. */
  function TakeResponse(stream: seq<byte>): Taken
  {
    if |stream| < 2 then Incomplete
    else
      var fc := stream[1];
      if fc >= 0x80 then TakeExactly(stream, 5)
      else if IsReadFc(fc) then
        if |stream| < 3 then Incomplete else TakeExactly(stream, 5 + stream[2] as int)
      else if IsWriteFc(fc) then TakeExactly(stream, 8)
      else UnknownFunction
  }

  /** A byte source: each read takes bytes off the front, or fails and loses what was there. */
  class ByteSource {
    var pending: seq<byte>

    constructor (bytes: seq<byte>)
      ensures pending == bytes
    {
      pending := bytes;
    }

    method ReadExactly(n: nat) returns (r: Option<seq<byte>>)
      modifies this
      ensures r.Some? <==> n <= |old(pending)|
      ensures r.Some? ==> r.value == old(pending)[..n] && pending == old(pending)[n..]
      ensures r.None? ==> pending == []
    {
      if |pending| < n {
        pending := [];
        return None;
      }
      r := Some(pending[..n]);
      pending := pending[n..];
    }

    /** The reader: two, three or four reads, and exactly one frame consumed. */
    method ReadResponse() returns (t: Taken)
      modifies this
      ensures t == TakeResponse(old(pending))
      ensures pending == match t
                         case Frame(_, rest) => rest
                         case UnknownFunction => old(pending)[2..]
                         case Incomplete => []
    {
      ghost var s := pending;
      var head := ReadExactly(2);
      if head.None? {
        return Incomplete;
      }
      var fc := head.value[1];
      if fc >= 0x80 {
        var more := ReadExactly(3);
        if more.None? {
          return Incomplete;
        }
        JoinReads(s, 2, 3);
        t := Frame(head.value + more.value, pending);
      } else if IsReadFc(fc) {
        var bc := ReadExactly(1);
        if bc.None? {
          return Incomplete;
        }
        var more := ReadExactly(bc.value[0] as int + 2);
        if more.None? {
          return Incomplete;
        }
        JoinReads(s, 2, 1); JoinReads(s, 3, bc.value[0] as int + 2);
        t := Frame(head.value + bc.value + more.value, pending);
      } else if IsWriteFc(fc) {
        var more := ReadExactly(6);
        if more.None? {
          return Incomplete;
        }
        JoinReads(s, 2, 6);
        t := Frame(head.value + more.value, pending);
      } else {
        t := UnknownFunction;
      }
    }
  }

  lemma JoinReads(s: seq<byte>, a: nat, b: nat)
    requires a + b <= |s|
    ensures s[..a] + s[a..][..b] == s[..a + b] && s[a..][b..] == s[a + b..]
  {}

  // ---------- exact resynchronisation ----------

  datatype Sent = Sent(uid: byte, resp: Response)

  function FrameOf(m: Sent): (f: seq<byte>)
    requires ValidResponse(m.resp)
    ensures |f| == 3 + |EncodeResponse(m.resp)|
  {
    RtuFrame.EncodeFrame(m.uid, EncodeResponse(m.resp)).value
  }

  lemma FrameHead(m: Sent)
    requires ValidResponse(m.resp)
    ensures var f, pdu := FrameOf(m), EncodeResponse(m.resp);
            f[1] == pdu[0] && f[2] == pdu[1]
  {
    assert ([m.uid] + EncodeResponse(m.resp))[1] == EncodeResponse(m.resp)[0];
  }

  /** Whatever response the server can encode, the reader stops exactly at its end, and it never
      stops early. */
  lemma TakesExactlyOne(m: Sent, tail: seq<byte>)
    requires ValidResponse(m.resp)
    ensures TakeResponse(FrameOf(m) + tail) == Frame(FrameOf(m), tail)
    ensures forall n :: 0 <= n < |FrameOf(m)| ==> TakeResponse(FrameOf(m)[..n]) == Incomplete
  {
    var f, s := FrameOf(m), FrameOf(m) + tail;
    FrameHead(m);
    LengthFromHead(m);
    hide FrameOf, ValidResponse, EncodeResponse;
    assert s[1] == f[1] && s[2] == f[2];
    assert s[..|f|] == f && s[|f|..] == tail;
    forall n | 0 <= n < |f|
      ensures TakeResponse(f[..n]) == Incomplete
    {
      assert n > 1 ==> f[..n][1] == f[1];
      assert n > 2 ==> f[..n][2] == f[2];
    }
  }

  lemma LengthFromHead(m: Sent)
    requires ValidResponse(m.resp)
    ensures var f, pdu := FrameOf(m), EncodeResponse(m.resp);
            || (pdu[0] >= 0x80 && |f| == 5)
            || (IsReadFc(pdu[0]) && |f| == 5 + pdu[1] as int)
            || (IsWriteFc(pdu[0]) && |f| == 8)
  {}

  lemma FrameDecodes(m: Sent)
    requires ValidResponse(m.resp)
    ensures RtuFrame.DecodeFrame(FrameOf(m)) == Ok((m.uid, EncodeResponse(m.resp)))
  {
    RtuFrame.DecodeIffEncode(FrameOf(m), m.uid, EncodeResponse(m.resp));
  }

  /** A code the server never sends is refused as soon as it is there. */
  lemma UnknownCodeRefused(stream: seq<byte>)
    ensures TakeResponse(stream).UnknownFunction?
            <==> |stream| >= 2 && stream[1] < 128 && stream[1] !in {1, 2, 3, 4, 5, 6, 15, 16}
  {}

  function Concat(ms: seq<Sent>): seq<byte>
    requires forall i :: 0 <= i < |ms| ==> ValidResponse(ms[i].resp)
  {
    if ms == [] then [] else FrameOf(ms[0]) + Concat(ms[1..])
  }

  /** Read `n` responses and unwrap each. */
  function ReadMany(stream: seq<byte>, n: nat): Option<(seq<(byte, seq<byte>)>, seq<byte>)>
    decreases n
  {
    if n == 0 then Some(([], stream))
    else match TakeResponse(stream)
      case Frame(f, rest) =>
        (match RtuFrame.DecodeFrame(f)
         case Ok(m) =>
           (match ReadMany(rest, n - 1)
            case Some((more, tail)) => Some(([m] + more, tail))
            case None => None)
         case Err(_) => None)
      case _ => None
  }

  function Contents(ms: seq<Sent>): seq<(byte, seq<byte>)>
    requires forall i :: 0 <= i < |ms| ==> ValidResponse(ms[i].resp)
  {
    seq(|ms|, i requires 0 <= i < |ms| => (ms[i].uid, EncodeResponse(ms[i].resp)))
  }

  /** Any number of responses written back to back are read back one by one, none lost, none
      merged, and whatever follows them stays in the stream. */
  lemma {:induction false} StreamRoundTrip(ms: seq<Sent>, tail: seq<byte>)
    requires forall i :: 0 <= i < |ms| ==> ValidResponse(ms[i].resp)
    ensures ReadMany(Concat(ms) + tail, |ms|) == Some((Contents(ms), tail))
    decreases |ms|
  {
    hide FrameOf, TakeResponse, RtuFrame.DecodeFrame, EncodeResponse, ValidResponse;
    if ms == [] {
      assert Concat(ms) + tail == tail;
    } else {
      var f, rest := FrameOf(ms[0]), Concat(ms[1..]) + tail;
      assert Concat(ms) + tail == f + rest;
      TakesExactlyOne(ms[0], rest);
      FrameDecodes(ms[0]);
      StreamRoundTrip(ms[1..], tail);
      assert Contents(ms) == [(ms[0].uid, EncodeResponse(ms[0].resp))] + Contents(ms[1..]);
    }
  }
}
