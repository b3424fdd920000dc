/** One server connection from bytes to bytes: the loop of `_on_client` in src/pymod/server.py. */
module ServerStream {
  import opened Basics
  import opened Pdu
  import opened Mbap
  import opened SimStore
  import opened Server

  /** What the callbacks would do at each request, counted from zero. A request calls at most one
      callback, so this captures any state the application keeps between requests. */
  type Behaviour = nat -> Callbacks

  function ReplyTo(cb: Callbacks, m: Message): (r: Message)
    ensures r.tid == m.tid && r.uid == m.uid && 2 <= |r.pdu| <= 252
  {
    Message(m.tid, m.uid, EncodeResponse(Dispatch(cb, m.uid, m.pdu)))
  }

  function Replies(cbs: Behaviour, ms: seq<Message>): (rs: seq<Message>)
    ensures |rs| == |ms| && forall i :: 0 <= i < |ms| ==> rs[i] == ReplyTo(cbs(i), ms[i])
    ensures Sendable(rs)
  {
    seq(|ms|, i requires 0 <= i < |ms| => ReplyTo(cbs(i), ms[i]))
  }

  predicate Sendable(ms: seq<Message>)
  {
    forall i :: 0 <= i < |ms| ==> 1 <= |ms[i].pdu| <= 0xFFFE
  }

  function EncodeMessage(m: Message): seq<byte>
    requires 1 <= |m.pdu| <= 0xFFFE
  {
    Mbap.EncodeFrame(m.tid, m.uid, m.pdu).value
  }

  function EncodeAll(ms: seq<Message>): seq<seq<byte>>
    requires Sendable(ms)
  {
    seq(|ms|, i requires 0 <= i < |ms| => EncodeMessage(ms[i]))
  }

  /** The well-formed requests of a byte stream, malformed frames dropped. */
  function Asked(stream: seq<byte>): seq<Message>
  {
    Messages(CutFrames(stream).0)
  }

  /** Bytes in, bytes out. */
  function ServeBytes(cbs: Behaviour, stream: seq<byte>): seq<byte>
  {
    Flatten(EncodeAll(Replies(cbs, Asked(stream))))
  }

  lemma {:induction false} EncodedFramesDecode(ms: seq<Message>)
    requires Sendable(ms)
    ensures AllWhole(EncodeAll(ms)) && Messages(EncodeAll(ms)) == ms
    decreases |ms|
  {
    hide Whole, Mbap.DecodeFrame, Mbap.EncodeFrame;
    forall i | 0 <= i < |ms|
      ensures Whole(EncodeAll(ms)[i])
    {
      EncodeDecode(ms[i].tid, ms[i].uid, ms[i].pdu);
    }
    if ms != [] {
      EncodeDecode(ms[0].tid, ms[0].uid, ms[0].pdu);
      assert EncodeAll(ms)[1..] == EncodeAll(ms[1..]);
      EncodedFramesDecode(ms[1..]);
      assert ms == [ms[0]] + ms[1..];
    }
  }

  /** For every byte stream and whatever the callbacks return, raise or crash with: a client that
      cuts and decodes the server's output finds exactly one message per well-formed request, in
      order, with the request's transaction and unit ids, carrying the dispatcher's answer to that
      request, and nothing left over. */
  lemma OneReplyPerRequest(cbs: Behaviour, stream: seq<byte>)
    ensures var asked := Asked(stream);
            var (fs, tail) := CutFrames(ServeBytes(cbs, stream));
            && tail == []
            && |fs| == |Messages(fs)| == |asked|
            && forall i :: 0 <= i < |asked| ==>
                 && Messages(fs)[i].tid == asked[i].tid && Messages(fs)[i].uid == asked[i].uid
                 && Messages(fs)[i].pdu == EncodeResponse(Dispatch(cbs(i), asked[i].uid, asked[i].pdu))
  {
    var replies := Replies(cbs, Asked(stream));
    EncodedFramesDecode(replies);
    var out := EncodeAll(replies);
    assert Flatten(out) + [] == Flatten(out);
    CutIsUnique(out, []);
  }

  // ---------- the connection loop ----------

  /** Part of the stream has been served: `done` are the requests before `rest`, and `out` the
      bytes written for them. */
  ghost predicate Served(cbs: Behaviour, stream: seq<byte>, done: seq<Message>, rest: seq<byte>, out: seq<byte>)
  {
    && Asked(stream) == done + Asked(rest)
    && out == Flatten(EncodeAll(Replies(cbs, done)))
  }

  lemma NothingServed(cbs: Behaviour, stream: seq<byte>)
    ensures Served(cbs, stream, [], stream, [])
  {
    assert [] + Asked(stream) == Asked(stream);
    assert EncodeAll(Replies(cbs, [])) == [];
  }

  /** The frame at the front of the stream is the first of the cut. */
  lemma AskedStep(rest: seq<byte>, frame: seq<byte>, more: seq<byte>)
    requires NextFrame(rest) == Some((frame, more))
    ensures Asked(rest) == (if Mbap.DecodeFrame(frame).Ok? then [Mbap.DecodeFrame(frame).value] else []) + Asked(more)
  {
    hide NextFrame, Mbap.DecodeFrame;
    var fs := CutFrames(more).0;
    assert ([frame] + fs)[0] == frame && ([frame] + fs)[1..] == fs;
  }

  lemma ServeDropped(cbs: Behaviour, stream: seq<byte>, done: seq<Message>, rest: seq<byte>, out: seq<byte>, frame: seq<byte>, more: seq<byte>)
    requires Served(cbs, stream, done, rest, out) && NextFrame(rest) == Some((frame, more))
    requires Mbap.DecodeFrame(frame).Err?
    ensures Served(cbs, stream, done, more, out)
  {
    hide NextFrame, Mbap.DecodeFrame, Asked;
    AskedStep(rest, frame, more);
    assert [] + Asked(more) == Asked(more);
  }

  lemma ServeOne(cbs: Behaviour, stream: seq<byte>, done: seq<Message>, rest: seq<byte>, out: seq<byte>, frame: seq<byte>, more: seq<byte>)
    requires Served(cbs, stream, done, rest, out) && NextFrame(rest) == Some((frame, more))
    requires Mbap.DecodeFrame(frame).Ok?
    ensures var m := Mbap.DecodeFrame(frame).value;
            && |done| < |Asked(stream)| && m == Asked(stream)[|done|] && done == Asked(stream)[..|done|]
            && Served(cbs, stream, done + [m], more, out + EncodeMessage(ReplyTo(cbs(|done|), m)))
  {
    hide NextFrame, Mbap.DecodeFrame, Asked, EncodeMessage, ReplyTo;
    AskedStep(rest, frame, more);
    var m := Mbap.DecodeFrame(frame).value;
    assert done + ([m] + Asked(more)) == (done + [m]) + Asked(more);
    var rs, r := Replies(cbs, done), ReplyTo(cbs(|done|), m);
    assert Replies(cbs, done + [m]) == rs + [r];
    assert EncodeAll(rs + [r]) == EncodeAll(rs) + [EncodeMessage(r)];
    FlattenSnoc(EncodeAll(rs), EncodeMessage(r));
  }

  lemma AllServed(cbs: Behaviour, stream: seq<byte>, done: seq<Message>, rest: seq<byte>, out: seq<byte>)
    requires Served(cbs, stream, done, rest, out) && NextFrame(rest).None?
    ensures done == Asked(stream) && out == ServeBytes(cbs, stream)
  {
    assert Asked(rest) == [];
    assert done + [] == done;
  }

  /** The connection loop, with arbitrary callbacks. */
  method OnClient(cbs: Behaviour, stream: seq<byte>) returns (out: seq<byte>)
    ensures out == ServeBytes(cbs, stream)
  {
    hide Served, NextFrame, Mbap.DecodeFrame, Asked;
    out := [];
    var rest, n := stream, 0;
    ghost var done: seq<Message> := [];
    NothingServed(cbs, stream);
    var next := TakeFrame(rest);
    while next.Some?
      invariant next == NextFrame(rest) && n == |done| && Served(cbs, stream, done, rest, out)
      decreases |rest|
    {
      var (frame, more) := next.value;
      var decoded := Mbap.DecodeFrame(frame);
      if decoded.Ok? {
        var m := decoded.value;
        ServeOne(cbs, stream, done, rest, out, frame, more);
        out := out + EncodeMessage(ReplyTo(cbs(n), m));
        n, done := n + 1, done + [m];
      } else {
        ServeDropped(cbs, stream, done, rest, out, frame, more);
      }
      rest := more;
      next := TakeFrame(rest);
    }
    AllServed(cbs, stream, done, rest, out);
  }

  // ---------- the simulator ----------

  function Requests(ms: seq<Message>): (rs: seq<Request>)
    ensures |rs| == |ms|
  {
    seq(|ms|, i requires 0 <= i < |ms| => Request(ms[i].uid, ms[i].pdu))
  }

  /** The store when request `i` is answered: all earlier requests have been applied. */
  function StoreAt(cfg: SimConfig, s: Store, ms: seq<Message>, i: nat): Store
  {
    Run(cfg, s, Requests(if i <= |ms| then ms[..i] else ms))
  }

  /** The simulator is the behaviour whose callbacks at each request read the store of that moment. */
  function SimBehaviour(cfg: SimConfig, s: Store, ms: seq<Message>): Behaviour
  {
    (i: nat) => SimCallbacks(cfg, StoreAt(cfg, s, ms, i))
  }

  lemma {:induction false} RunSnoc(cfg: SimConfig, s: Store, rs: seq<Request>, r: Request)
    ensures Run(cfg, s, rs + [r]) == After(cfg, Run(cfg, s, rs), r.uid, r.pdu)
    decreases |rs|
  {
    hide After;
    if rs == [] {
      assert (rs + [r])[1..] == [];
    } else {
      assert (rs + [r])[1..] == rs[1..] + [r];
      RunSnoc(cfg, After(cfg, s, rs[0].uid, rs[0].pdu), rs[1..], r);
    }
  }

  lemma RequestApplied(cfg: SimConfig, s: Store, done: seq<Message>, m: Message)
    ensures Run(cfg, s, Requests(done + [m])) == After(cfg, Run(cfg, s, Requests(done)), m.uid, m.pdu)
  {
    assert Requests(done + [m]) == Requests(done) + [Request(m.uid, m.pdu)];
    RunSnoc(cfg, s, Requests(done), Request(m.uid, m.pdu));
  }

  /** The same loop driving the simulator's dispatcher object: every reply is computed from the
      store as the earlier requests of this stream left it. */
  method OnSimClient(server: SimServer, stream: seq<byte>) returns (out: seq<byte>)
    modifies server.sim
    ensures out == ServeBytes(SimBehaviour(server.cfg, old(server.sim.View()), Asked(stream)), stream)
    ensures server.sim.View() == Run(server.cfg, old(server.sim.View()), Requests(Asked(stream)))
  {
    hide After, Served, NextFrame, Mbap.DecodeFrame, Asked, Run;
    ghost var cfg, s, asked := server.cfg, server.sim.View(), Asked(stream);
    ghost var cbs := SimBehaviour(cfg, s, asked);
    out := [];
    var rest := stream;
    ghost var done: seq<Message> := [];
    NothingServed(cbs, stream);
    NothingRun(cfg, s);
    var next := TakeFrame(rest);
    while next.Some?
      invariant next == NextFrame(rest) && Served(cbs, stream, done, rest, out)
      invariant server.sim.View() == Run(cfg, s, Requests(done))
      decreases |rest|
    {
      var (frame, more) := next.value;
      var decoded := Mbap.DecodeFrame(frame);
      if decoded.Ok? {
        var m := decoded.value;
        ServeOne(cbs, stream, done, rest, out, frame, more);
        RequestApplied(cfg, s, done, m);
        assert StoreAt(cfg, s, asked, |done|) == server.sim.View();
        var resp := server.DispatchPdu(m.uid, m.pdu);
        out := out + EncodeMessage(Message(m.tid, m.uid, resp));
        done := done + [m];
      } else {
        ServeDropped(cbs, stream, done, rest, out, frame, more);
      }
      rest := more;
      next := TakeFrame(rest);
    }
    AllServed(cbs, stream, done, rest, out);
  }

  lemma NothingRun(cfg: SimConfig, s: Store)
    ensures Run(cfg, s, Requests([])) == s
  {}
}
