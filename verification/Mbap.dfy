/**
  MBAP framing of src/pymod/protocol/adu_tcp.py, and the frame loop that the client's read
  loop (src/pymod/transport/tcp.py) and the server's connection handler (src/pymod/server.py)
  share.
 */
module Mbap {
  import opened Basics
  import opened Errors
  import opened Packing

  const HEADER: nat := 7
  const PEEK: nat := 6

  /** Why a frame is dropped; the source raises ModbusProtocolError for each. */
  datatype Malformed = TooShort | WrongProtocol | LengthMismatch | EmptyPdu

  datatype Message = Message(tid: word, uid: byte, pdu: seq<byte>)

  function EncodeFrame(tid: int, uid: int, pdu: seq<byte>): (r: Result<seq<byte>, Error>)
    ensures r.Ok? <==> 0 <= tid <= 0xFFFF && 0 <= uid <= 0xFF && 1 <= |pdu| <= 0xFFFE
    ensures r.Ok? ==> |r.value| == 7 + |pdu|
  {
    if !(0 <= tid <= 0xFFFF) then Err(ValueError)
    else if !(0 <= uid <= 0xFF) then Err(ValueError)
    else if |pdu| == 0 then Err(ValueError)
    else if 1 + |pdu| > 0xFFFF then Err(ValueError)
    else Ok(Be16(tid) + Be16(0) + Be16(1 + |pdu|) + [uid] + pdu)
  }

  function DecodeFrame(frame: seq<byte>): Result<Message, Malformed>
  {
    if |frame| < HEADER then Err(TooShort)
    else if FromBe16(frame, 2) != 0 then Err(WrongProtocol)
    else if |frame| - HEADER != FromBe16(frame, 4) as int - 1 then Err(LengthMismatch)
    else if |frame| == HEADER then Err(EmptyPdu)
    else Ok(Message(FromBe16(frame, 0), frame[6], frame[7..]))
  }

  function ExpectedLength(prefix: seq<byte>): Result<nat, Error>
  {
    if |prefix| < PEEK then Err(ProtocolError) else Ok(PEEK + FromBe16(prefix, 4))
  }

  /** A frame is as long as its own header says. */
  predicate Whole(f: seq<byte>)
  {
    |f| >= PEEK && |f| == PEEK + FromBe16(f, 4)
  }

  lemma EncodeDecode(tid: int, uid: int, pdu: seq<byte>)
    requires EncodeFrame(tid, uid, pdu).Ok?
    ensures Whole(EncodeFrame(tid, uid, pdu).value)
    ensures DecodeFrame(EncodeFrame(tid, uid, pdu).value) == Ok(Message(tid, uid, pdu))
  {
    var f, n := EncodeFrame(tid, uid, pdu).value, 1 + |pdu|;
    assert f[0] == (tid as word) / 256 && f[1] == (tid as word) % 256 && f[2] == 0 && f[3] == 0;
    assert f[4] == (n as word) / 256 && f[5] == (n as word) % 256;
    assert f[6] == uid && f[7..] == pdu;
  }

  /** The header byte by byte: id, two zero bytes, the length of what follows, unit id; then the PDU. */
  lemma FrameBytes(tid: int, uid: int, pdu: seq<byte>)
    ensures EncodeFrame(tid, uid, pdu)
            == if 0 <= tid <= 65535 && 0 <= uid <= 255 && 1 <= |pdu| <= 65534 then
                 Ok([tid / 256, tid % 256, 0, 0, (|pdu| + 1) / 256, (|pdu| + 1) % 256, uid] + pdu)
               else Err(ValueError)
  {
    if EncodeFrame(tid, uid, pdu).Ok? {
      var head: seq<byte> := [tid / 256, tid % 256, 0, 0, (|pdu| + 1) / 256, (|pdu| + 1) % 256, uid];
      assert Be16(tid) + Be16(0) + Be16(1 + |pdu|) + [uid] == head;
    }
  }

  /** A frame cut out of a stream is never rejected for its length; it is well-formed exactly when
      its protocol id is zero and its length field leaves room for a PDU. */
  lemma WholeFrames(f: seq<byte>)
    requires Whole(f)
    ensures DecodeFrame(f) != Err(LengthMismatch)
    ensures DecodeFrame(f).Ok? <==> FromBe16(f, 2) == 0 && FromBe16(f, 4) >= 2
  {}

  /** Decoding accepts only what encoding produces. */
  lemma DecodeEncode(f: seq<byte>)
    requires DecodeFrame(f).Ok?
    ensures var m := DecodeFrame(f).value; EncodeFrame(m.tid, m.uid, m.pdu) == Ok(f)
  {
    hide Be16, FromBe16;
    FieldBytes(f, 0); FieldBytes(f, 2); FieldBytes(f, 4);
    assert f == f[0..2] + f[2..4] + f[4..6] + [f[6]] + f[7..];
  }

  lemma FieldBytes(f: seq<byte>, i: nat)
    requires i + 2 <= |f|
    ensures Be16(FromBe16(f, i)) == f[i..i + 2]
  {}

  // ---------- cutting a stream into frames ----------

  /** The frame at the front of the stream, if all of it has arrived. */
  function NextFrame(stream: seq<byte>): (r: Option<(seq<byte>, seq<byte>)>)
    ensures r.Some? ==> Whole(r.value.0) && stream == r.value.0 + r.value.1
    ensures r.Some? ==> |r.value.1| <= |stream| - PEEK
  {
    if |stream| < PEEK then None
    else
      var total := PEEK + FromBe16(stream, 4);
      if |stream| < total then None
      else
        assert stream[..total][4] == stream[4] && stream[..total][5] == stream[5];
        Some((stream[..total], stream[total..]))
  }

  /** All complete frames and the unfinished rest. */
  function CutFrames(stream: seq<byte>): (seq<seq<byte>>, seq<byte>)
    decreases |stream|
  {
    match NextFrame(stream)
    case None => ([], stream)
    case Some((f, rest)) => var (fs, tail) := CutFrames(rest); ([f] + fs, tail)
  }

  predicate AllWhole(fs: seq<seq<byte>>)
  {
    forall i :: 0 <= i < |fs| ==> Whole(fs[i])
  }

  /** A front frame is found whatever follows it. */
  lemma NextOfWhole(f: seq<byte>, rest: seq<byte>)
    requires Whole(f)
    ensures NextFrame(f + rest) == Some((f, rest))
  {
    var s := f + rest;
    assert s[4] == f[4] && s[5] == f[5];
    assert s[..|f|] == f && s[|f|..] == rest;
  }

  /** The cut divides the stream into whole frames and an unfinished rest, losing nothing. */
  lemma {:induction false} CutDivides(stream: seq<byte>)
    ensures var (fs, tail) := CutFrames(stream);
            AllWhole(fs) && stream == Flatten(fs) + tail && NextFrame(tail).None?
    decreases |stream|
  {
    hide Whole;
    match NextFrame(stream)
    case None =>
      assert Flatten([]) + stream == stream;
    case Some((f, rest)) =>
      CutDivides(rest);
      var (fs, tail) := CutFrames(rest);
      assert ([f] + fs)[1..] == fs;
      assert f + (Flatten(fs) + tail) == Flatten([f] + fs) + tail;
  }

  /** It is the only such division: frame boundaries never depend on whether earlier frames were
      well-formed. */
  lemma {:induction false} CutIsUnique(fs: seq<seq<byte>>, tail: seq<byte>)
    requires AllWhole(fs) && NextFrame(tail).None?
    ensures CutFrames(Flatten(fs) + tail) == (fs, tail)
    decreases |fs|
  {
    hide Whole, NextFrame;
    if fs == [] {
      assert Flatten(fs) + tail == tail;
    } else {
      var rest := Flatten(fs[1..]) + tail;
      assert Flatten(fs) + tail == fs[0] + rest;
      NextOfWhole(fs[0], rest);
      CutIsUnique(fs[1..], tail);
      assert fs == [fs[0]] + fs[1..];
    }
  }

  /** One turn of the read side: peek six bytes, learn the length, take the frame. */
  method TakeFrame(rest: seq<byte>) returns (r: Option<(seq<byte>, seq<byte>)>)
    ensures r == NextFrame(rest)
  {
    if |rest| < PEEK {
      return None;
    }
    var total := ExpectedLength(rest[..PEEK]).value;
    PeekIsEnough(rest);
    if |rest| < total {
      return None;
    }
    r := Some((rest[..total], rest[total..]));
  }

  /** The read loop: one frame after the other until the stream ends. */
  method ReadLoop(stream: seq<byte>) returns (frames: seq<seq<byte>>, rest: seq<byte>)
    ensures (frames, rest) == CutFrames(stream)
  {
    hide Whole, Flatten, NextFrame, CutFrames;
    frames, rest := [], stream;
    NothingCut(stream);
    var next := TakeFrame(rest);
    while next.Some?
      invariant next == NextFrame(rest)
      invariant AllWhole(frames) && stream == Flatten(frames) + rest
      decreases |rest|
    {
      var (frame, more) := next.value;
      FlattenSnoc(frames, frame);
      assert Flatten(frames) + (frame + more) == (Flatten(frames) + frame) + more;
      frames := frames + [frame];
      rest := more;
      next := TakeFrame(rest);
    }
    CutIsUnique(frames, rest);
  }

  lemma NothingCut(stream: seq<byte>)
    ensures Flatten([]) + stream == stream
  {}

  /** Six bytes decide the frame's length. */
  lemma PeekIsEnough(rest: seq<byte>)
    requires |rest| >= PEEK
    ensures ExpectedLength(rest[..PEEK]) == Ok(PEEK + FromBe16(rest, 4))
  {
    assert rest[..PEEK][4] == rest[4] && rest[..PEEK][5] == rest[5];
  }

  /** The messages among a list of frames, malformed ones dropped. */
  function Messages(fs: seq<seq<byte>>): seq<Message>
  {
    if fs == [] then []
    else (if DecodeFrame(fs[0]).Ok? then [DecodeFrame(fs[0]).value] else []) + Messages(fs[1..])
  }
}
