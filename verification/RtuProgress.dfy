/**
  What the RTU-over-TCP transport, src/pymod/transport/rtu_over_tcp.py, does besides never mixing
  replies up: a reply that arrives is returned, the lock is released, no call is stuck.
 */
module RtuProgress {
  import opened Basics
  import opened Pdu
  import RtuFrame
  import opened RtuStream
  import opened RtuOverTcp

  // ---------- what a call can be at ----------

  /** Where a call of each kind can be, and that what it wrote is its own request. */
  predicate CallOk(call: Call, wrote: Option<seq<byte>>)
  {
    match call.kind
    case Close => call.phase.Queued? || call.phase.Closing? || call.phase.Finished?
    case Connect => call.phase.Queued? || call.phase.Opening? || call.phase.Finished? || call.phase.Raised?
    case Send(unit, pdu) =>
      && !call.phase.Finished?
      && (call.phase.Sending? || call.phase.Receiving? || call.phase.Returned? ==>
            wrote.Some? && RtuFrame.EncodeFrame(unit, pdu) == Ok(wrote.value))
  }

  function WrittenBy(s: State, c: nat): Option<seq<byte>>
  {
    if c in s.written then Some(s.written[c]) else None
  }

  ghost predicate CallsInv(s: State)
  {
    forall c :: c in s.calls ==> CallOk(s.calls[c], WrittenBy(s, c))
  }

  lemma OneMoves(s: State, t: State, c: nat)
    requires CallsInv(s) && c in t.calls && t.calls == s.calls[c := t.calls[c]]
    requires forall d :: d in s.calls && d != c ==> WrittenBy(t, d) == WrittenBy(s, d)
    requires CallOk(t.calls[c], WrittenBy(t, c))
    ensures CallsInv(t)
  {
    hide CallOk;
  }

  lemma ProceedCalls(s: State, t: State, c: nat)
    requires CallsInv(s) && c in s.calls && (s.calls[c].phase.Queued? || s.calls[c].phase.Opening?)
    requires !s.calls[c].kind.Close? && t.calls == s.calls && t.written == s.written
    ensures CallsInv(Proceed(t, c))
  {
    hide RtuFrame.EncodeFrame;
    OneMoves(s, Proceed(t, c), c);
  }

  lemma StepKeepsCalls(s: State, a: Action)
    requires CallsInv(s) && Enabled(s, a)
    ensures CallsInv(Next(s, a))
  {
    hide TakeResponse, FrameOf, ValidResponse, EncodeResponse, RtuFrame.EncodeFrame, RtuFrame.DecodeFrame;
    match a
    case Acquire(c) => AcquireKeepsCalls(s, c);
    case OpenOk(c) => ProceedCalls(s, Teardown(s).(connected := true), c);
    case Receive(c) => ReceiveKeepsCalls(s, c);
    case Start(c, _) => OneMoves(s, Next(s, a), c);
    case OpenFail(c) => OneMoves(s, Next(s, a), c);
    case DrainOk(c) => OneMoves(s, Next(s, a), c);
    case DrainFail(c) => OneMoves(s, Next(s, a), c);
    case GiveUp(c) => OneMoves(s, Next(s, a), c);
    case TornDown(c) => OneMoves(s, Next(s, a), c);
    case _ =>
  }

  lemma AcquireKeepsCalls(s: State, c: nat)
    requires CallsInv(s) && Enabled(s, Acquire(c))
    ensures CallsInv(Next(s, Acquire(c)))
  {
    hide RtuFrame.EncodeFrame;
    if s.connected && !s.calls[c].kind.Close? {
      ProceedCalls(s, s.(holder := Some(c)), c);
    } else {
      OneMoves(s, Next(s, Acquire(c)), c);
    }
  }

  lemma ReceiveKeepsCalls(s: State, c: nat)
    requires CallsInv(s) && Enabled(s, Receive(c))
    ensures CallsInv(Next(s, Receive(c)))
  {
    hide TakeResponse, RtuFrame.EncodeFrame, RtuFrame.DecodeFrame;
    UnknownHasHead(s.inbox);
    OneMoves(s, Next(s, Receive(c)), c);
  }

  ghost predicate Sound(s: State) { Inv(s) && CallsInv(s) }

  lemma StepKeepsSound(s: State, a: Action)
    requires Sound(s) && Enabled(s, a)
    ensures Sound(Next(s, a))
  {
    hide Inv, CallsInv, Next, Enabled;
    StepKeepsInv(s, a);
    StepKeepsCalls(s, a);
  }

  lemma {:induction false} RunKeepsSound(ss: seq<State>, acts: seq<Action>, i: nat)
    requires Run(ss, acts) && i < |ss|
    ensures Sound(ss[i])
    decreases i
  {
    if i > 0 {
      hide Sound, Next, Enabled;
      RunKeepsSound(ss, acts, i - 1);
      StepKeepsSound(ss[i - 1], acts[i - 1]);
    }
  }

  /** A call that wrote, wrote the frame from which its unit id and PDU are read back. */
  lemma WroteItsRequest(ss: seq<State>, acts: seq<Action>, i: nat, c: nat)
    requires Run(ss, acts) && i < |ss| && c in ss[i].calls
    requires var p := ss[i].calls[c].phase; p.Sending? || p.Receiving? || p.Returned?
    ensures ss[i].calls[c].kind.Send? && c in ss[i].written
    ensures match RtuFrame.DecodeFrame(ss[i].written[c])
            case Ok((unit, pdu)) => ss[i].calls[c].kind == Send(unit, pdu)
            case Err(_) => false
  {
    RunKeepsSound(ss, acts, i);
    hide Inv;
    var kind := ss[i].calls[c].kind;
    assert CallOk(ss[i].calls[c], WrittenBy(ss[i], c));
    if kind.Send? {
      RtuFrame.DecodeIffEncode(ss[i].written[c], kind.unit, kind.pdu);
    }
  }

  // ---------- a reply that has arrived is returned ----------

  /** The reader can finish exactly when the whole reply to this request is there. The call then
      returns that reply, if it comes from the unit asked, and raises otherwise; either way the
      lock is free again, and the connection is kept, silent. */
  lemma ReplyIsReturned(ss: seq<State>, acts: seq<Action>, i: nat, c: nat)
    requires Run(ss, acts) && i < |ss| && InPhase(ss[i], c, Receiving)
    ensures ss[i].calls[c].kind.Send? && ss[i].connected && ss[i].holder == Some(c)
    ensures Enabled(ss[i], Receive(c)) <==> IsReplyTo(ss[i], c, ss[i].inbox)
    ensures i < |acts| && acts[i] == Receive(c) ==>
              var m := ss[i].replies[c];
              && ss[i + 1].calls == ss[i].calls[c := ss[i].calls[c].(phase :=
                   if m.uid == ss[i].calls[c].kind.unit then Returned(EncodeResponse(m.resp)) else Raised)]
              && ss[i + 1].holder.None? && ss[i + 1].connected && Quiet(ss[i + 1])
  {
    RunKeepsSound(ss, acts, i);
    ReceivingFacts(ss[i], c);
    hide Sound, Inv, CallsInv, Enabled;
    if i < |acts| && acts[i] == Receive(c) {
      Received(ss[i], c);
    }
  }

  lemma ReceivingFacts(s: State, c: nat)
    requires Sound(s) && InPhase(s, c, Receiving)
    ensures s.calls[c].kind.Send? && s.connected && s.holder == Some(c)
    ensures Enabled(s, Receive(c)) <==> IsReplyTo(s, c, s.inbox)
    ensures Enabled(s, Receive(c)) ==> s.coming == [] && s.owed.None?
  {
    hide TakeResponse, FrameOf, ValidResponse, EncodeResponse, RtuFrame.EncodeFrame;
    assert CallOk(s.calls[c], WrittenBy(s, c));
    EmptyIsIncomplete();
    hide CallsInv, AnswerInv, CloseInv;
    if Enabled(s, Receive(c)) {
      ReadsWholeReply(s.replies[c], s.inbox, s.coming);
      assert IsReplyTo(s, c, s.inbox);
    }
    if IsReplyTo(s, c, s.inbox) {
      TakesExactlyOne(s.replies[c], []);
      assert s.inbox + [] == s.inbox;
    }
  }

  lemma Received(s: State, c: nat)
    requires InPhase(s, c, Receiving) && Enabled(s, Receive(c)) && s.calls[c].kind.Send? && s.connected
    requires s.coming == [] && s.owed.None? && IsReplyTo(s, c, s.inbox)
    ensures var m, t := s.replies[c], Next(s, Receive(c));
            && t.calls == s.calls[c := s.calls[c].(phase :=
                 if m.uid == s.calls[c].kind.unit then Returned(EncodeResponse(m.resp)) else Raised)]
            && t.holder.None? && t.connected && Quiet(t) && t.written == s.written
  {
    hide TakeResponse, FrameOf, ValidResponse, EncodeResponse, RtuFrame.DecodeFrame;
    var m := s.replies[c];
    TakesExactlyOne(m, []);
    assert s.inbox + [] == s.inbox;
    FrameDecodes(m);
  }

  // ---------- the lock ----------

  /** In every reachable state the lock is held by exactly the call inside it, so whenever no call
      is inside, any queued call can take it. */
  lemma LockIsReleased(ss: seq<State>, acts: seq<Action>, i: nat)
    requires Run(ss, acts) && i < |ss|
    ensures forall c: nat :: ss[i].holder == Some(c) <==> c in ss[i].calls && HoldsLock(ss[i].calls[c].phase)
    ensures (forall d :: d in ss[i].calls ==> !HoldsLock(ss[i].calls[d].phase)) ==>
              forall c: nat :: InPhase(ss[i], c, Queued) ==> Enabled(ss[i], Acquire(c))
  {
    RtuOverTcp.RunKeepsInv(ss, acts, i);
    hide WireInv, AnswerInv, CloseInv;
  }

  // ---------- continuations of a run ----------

  /** The state after further steps, if each of them is enabled when its turn comes. */
  ghost function After(s: State, acts: seq<Action>): Option<State>
    decreases |acts|
  {
    if acts == [] then Some(s)
    else if Enabled(s, acts[0]) then After(Next(s, acts[0]), acts[1..])
    else None
  }

  lemma {:induction false} AfterThen(s: State, a: seq<Action>, t: State, b: Action)
    requires After(s, a) == Some(t) && Enabled(t, b)
    ensures After(s, a + [b]) == Some(Next(t, b))
    decreases |a|
  {
    hide Next, Enabled;
    if a == [] {
      assert a + [b] == [b] && [b][1..] == [];
    } else {
      assert (a + [b])[1..] == a[1..] + [b];
      AfterThen(Next(s, a[0]), a[1..], t, b);
    }
  }

  lemma {:induction false} AfterKeepsSound(s: State, acts: seq<Action>)
    requires Sound(s) && After(s, acts).Some?
    ensures Sound(After(s, acts).value)
    decreases |acts|
  {
    hide Next, Enabled, Sound;
    if acts != [] {
      StepKeepsSound(s, acts[0]);
      AfterKeepsSound(Next(s, acts[0]), acts[1..]);
    }
  }

  predicate Over(p: Phase) { p.Returned? || p.Raised? || p.Finished? }

  /** Steps that need nobody's help: the lock is granted, what is awaited fails or times out, and
      connections being closed are gone. */
  predicate Unaided(acts: seq<Action>)
  {
    forall k :: 0 <= k < |acts| ==> acts[k].Acquire? || acts[k].OpenFail? || acts[k].DrainFail? || acts[k].GiveUp? || acts[k].TornDown?
  }

  lemma UnaidedSnoc(acts: seq<Action>, a: Action)
    requires Unaided(acts) && (a.Acquire? || a.OpenFail? || a.DrainFail? || a.GiveUp? || a.TornDown?)
    ensures Unaided(acts + [a])
  {}

  /** One more step of a continuation. */
  lemma Further(s: State, acts: seq<Action>, t: State, a: Action) returns (more: seq<Action>, u: State)
    requires After(s, acts) == Some(t) && Enabled(t, a)
    ensures more == acts + [a] && u == Next(t, a) && After(s, more) == Some(u)
    ensures Unaided(acts) && (a.Acquire? || a.OpenFail? || a.DrainFail? || a.GiveUp? || a.TornDown?) ==> Unaided(more)
  {
    hide Next, Enabled;
    AfterThen(s, acts, t, a);
    more, u := acts + [a], Next(t, a);
  }

  /** Call `c` has ended and left the lock; the other calls stand where they stood. */
  ghost predicate Left(s: State, t: State, c: nat)
  {
    && c in s.calls && c in t.calls && Over(t.calls[c].phase)
    && t.calls == s.calls[c := t.calls[c]] && t.calls[c].kind == s.calls[c].kind
    && (s.calls[c].kind.Close? ==> !t.connected)
    && t.holder.None? && t.closed == s.closed && t.written == s.written
  }

  lemma EndsAtOnce(s: State, c: nat, a: Action)
    requires Sound(s) && c in s.calls
    requires match s.calls[c].phase case Opening => a == OpenFail(c) case Closing => a == TornDown(c) case _ => false
    ensures Enabled(s, a) && Left(s, Next(s, a), c)
  {
    InsideKind(s, c);
    hide Sound;
  }

  lemma InsideKind(s: State, c: nat)
    requires Sound(s) && c in s.calls && HoldsLock(s.calls[c].phase)
    ensures s.holder == Some(c)
    ensures s.calls[c].phase.Closing? ==> !s.connected
    ensures !s.calls[c].phase.Closing? ==> !s.calls[c].kind.Close?
  {
    hide AnswerInv, CloseInv, CallsInv, FrameOf;
  }

  /** A send that gives up tears down first. */
  lemma StartsTeardown(s: State, c: nat, a: Action)
    requires Sound(s) && c in s.calls
    requires match s.calls[c].phase case Sending => a == DrainFail(c) case Receiving => a == GiveUp(c) case _ => false
    ensures Enabled(s, a) && InPhase(Next(s, a), c, Closing)
    ensures forall t :: Left(Next(s, a), t, c) ==> Left(s, t, c)
  {
    InsideKind(s, c);
    hide Sound;
  }

  /** The call inside the lock ends. */
  lemma EmptyLock(s: State, acts: seq<Action>, t: State) returns (more: seq<Action>, u: State)
    requires Sound(t) && After(s, acts) == Some(t) && Unaided(acts)
    ensures After(s, more) == Some(u) && Unaided(more) && |more| <= |acts| + 2 && Sound(u)
    ensures if t.holder.Some? then Left(t, u, t.holder.value) else u == t
  {
    hide Next, Enabled, Left, Sound, Unaided, After;
    more, u := acts, t;
    if t.holder.Some? {
      HolderInside(t);
      var c := t.holder.value;
      if t.calls[c].phase.Sending? || t.calls[c].phase.Receiving? {
        var a := if t.calls[c].phase.Sending? then DrainFail(c) else GiveUp(c);
        StartsTeardown(t, c, a);
        more, u := FurtherSound(s, more, u, a);
      }
      var b := if u.calls[c].phase.Opening? then OpenFail(c) else TornDown(c);
      EndsAtOnce(u, c, b);
      more, u := FurtherSound(s, more, u, b);
    }
  }

  lemma HolderInside(t: State)
    requires Sound(t) && t.holder.Some?
    ensures t.holder.value in t.calls && HoldsLock(t.calls[t.holder.value].phase)
  {
    hide WireInv, AnswerInv, CloseInv, CallsInv;
  }

  lemma FurtherSound(s: State, acts: seq<Action>, t: State, a: Action) returns (more: seq<Action>, u: State)
    requires After(s, acts) == Some(t) && Enabled(t, a) && Sound(t)
    ensures more == acts + [a] && u == Next(t, a) && After(s, more) == Some(u) && Sound(u)
    ensures Unaided(acts) && (a.Acquire? || a.OpenFail? || a.DrainFail? || a.GiveUp? || a.TornDown?) ==> Unaided(more)
  {
    hide Next, Enabled, Sound;
    StepKeepsSound(t, a);
    more, u := Further(s, acts, t, a);
  }

  lemma AcquireOutcome(s: State, c: nat)
    requires Sound(s) && InPhase(s, c, Queued) && s.holder.None?
    ensures Enabled(s, Acquire(c))
    ensures var t := Next(s, Acquire(c));
            && c in t.calls && t.calls[c].kind == s.calls[c].kind
            && if Over(t.calls[c].phase) then s.calls[c].kind.Close? ==> !t.connected else t.holder == Some(c)
  {
    hide RtuFrame.EncodeFrame, Sound;
  }

  lemma CloseReturns(s: State, c: nat)
    requires Sound(s) && c in s.calls && s.calls[c].kind.Close? && Over(s.calls[c].phase)
    ensures s.calls[c].phase.Finished? && !s.connected
  {
    hide AnswerInv, LockInv, WireInv, RtuFrame.EncodeFrame;
    assert CallOk(s.calls[c], WrittenBy(s, c));
  }

  /** No call is stuck. From every state of every run, every call ends within five further steps
      that need nobody's help; a close() ends by returning, with the transport disconnected. */
  lemma EveryCallCanEnd(ss: seq<State>, acts: seq<Action>, i: nat, c: nat) returns (more: seq<Action>, t: State)
    requires Run(ss, acts) && i < |ss| && c in ss[i].calls
    ensures After(ss[i], more) == Some(t) && Unaided(more) && |more| <= 5
    ensures c in t.calls && Over(t.calls[c].phase) && t.calls[c].kind == ss[i].calls[c].kind
    ensures t.calls[c].kind.Close? ==> t.calls[c].phase.Finished? && !t.connected
  {
    RunKeepsSound(ss, acts, i);
    hide Next, Enabled, Sound, Run;
    more, t := [], ss[i];
    if !Over(t.calls[c].phase) {
      more, t := EmptyLock(ss[i], more, t);
    }
    if t.calls[c].phase.Queued? {
      AcquireOutcome(t, c);
      more, t := FurtherSound(ss[i], more, t, Acquire(c));
      if !Over(t.calls[c].phase) {
        more, t := EmptyLock(ss[i], more, t);
      }
    } else if !Over(t.calls[c].phase) {
      LeftNobody(t, c);
    }
    if t.calls[c].kind.Close? {
      CloseReturns(t, c);
    }
  }

  lemma LeftNobody(s: State, c: nat)
    requires Sound(s) && s.holder.None? && c in s.calls
    ensures Over(s.calls[c].phase) || s.calls[c].phase.Queued?
  {
    hide WireInv, AnswerInv, CloseInv, CallsInv;
  }

  // ---------- a request can always be served ----------

  /** The call has written its frame and nothing else is on the connection. */
  ghost predicate Asked(s: State, t: State, c: nat)
  {
    && c in s.calls && InPhase(t, c, Sending) && t.calls[c].kind == s.calls[c].kind
    && t.connected && t.holder == Some(c) && t.owed == Some(c) && t.inbox == [] && t.coming == []
  }

  lemma AskConnected(s: State, c: nat)
    requires Sound(s) && InPhase(s, c, Queued) && s.holder.None? && s.calls[c].kind.Send?
    requires RtuFrame.EncodeFrame(s.calls[c].kind.unit, s.calls[c].kind.pdu).Ok?
    ensures s.connected ==> Enabled(s, Acquire(c)) && Asked(s, Next(s, Acquire(c)), c)
    ensures !s.connected && !s.closed ==>
              && Enabled(s, Acquire(c)) && Enabled(Next(s, Acquire(c)), OpenOk(c))
              && Asked(s, Next(Next(s, Acquire(c)), OpenOk(c)), c)
  {
    LockFree(s);
    hide RtuFrame.EncodeFrame, Sound;
  }

  lemma Answered(s: State, c: nat, m: Sent) returns (t: State, u: State, v: State, w: State)
    requires InPhase(s, c, Sending) && s.calls[c].kind.Send? && s.connected && s.holder == Some(c)
    requires s.owed == Some(c) && s.inbox == [] && s.coming == [] && ValidResponse(m.resp)
    ensures Enabled(s, DrainOk(c)) && t == Next(s, DrainOk(c))
    ensures Enabled(t, PeerReplies(m)) && u == Next(t, PeerReplies(m))
    ensures Enabled(u, BytesArrive(|FrameOf(m)|)) && v == Next(u, BytesArrive(|FrameOf(m)|))
    ensures Enabled(v, Receive(c)) && w == Next(v, Receive(c))
    ensures InPhase(w, c, if m.uid == s.calls[c].kind.unit then Returned(EncodeResponse(m.resp)) else Raised)
  {
    hide TakeResponse, FrameOf, ValidResponse, EncodeResponse, RtuFrame.EncodeFrame, RtuFrame.DecodeFrame;
    t := Next(s, DrainOk(c));
    u := Next(t, PeerReplies(m));
    var f := FrameOf(m);
    assert [] + f == f && f[..|f|] == f && f[|f|..] == [];
    v := Next(u, BytesArrive(|f|));
    TakesExactlyOne(m, []);
    assert f + [] == f;
    Received(v, c);
    w := Next(v, Receive(c));
  }

  /** Every queued request that fits a frame can be served, whatever the others are doing: while
      the transport is not closed, some continuation leads to the reply that the peer gives, and
      the call returns it, if it comes from the unit asked. */
  lemma RequestCanBeServed(ss: seq<State>, acts: seq<Action>, i: nat, c: nat, m: Sent) returns (more: seq<Action>, t: State)
    requires Run(ss, acts) && i < |ss| && InPhase(ss[i], c, Queued) && ss[i].calls[c].kind.Send? && !ss[i].closed
    requires RtuFrame.EncodeFrame(ss[i].calls[c].kind.unit, ss[i].calls[c].kind.pdu).Ok? && ValidResponse(m.resp)
    ensures After(ss[i], more) == Some(t) && |more| <= 8
    ensures InPhase(t, c, if m.uid == ss[i].calls[c].kind.unit then Returned(EncodeResponse(m.resp)) else Raised)
  {
    RunKeepsSound(ss, acts, i);
    hide Next, Enabled, Sound, Run, ValidResponse, EncodeResponse, RtuFrame.EncodeFrame;
    more, t := EmptyLock(ss[i], [], ss[i]);
    QueuedStays(ss[i], t, c);
    AskConnected(t, c);
    more, t := Further(ss[i], more, t, Acquire(c));
    if !InPhase(t, c, Sending) {
      more, t := Further(ss[i], more, t, OpenOk(c));
    }
    var u, v, w, x := Answered(t, c, m);
    more, t := Further(ss[i], more, t, DrainOk(c));
    more, t := Further(ss[i], more, t, PeerReplies(m));
    more, t := Further(ss[i], more, t, BytesArrive(|FrameOf(m)|));
    more, t := Further(ss[i], more, t, Receive(c));
  }

  lemma QueuedStays(s: State, t: State, c: nat)
    requires Sound(s) && InPhase(s, c, Queued)
    requires if s.holder.Some? then Left(s, t, s.holder.value) else t == s
    ensures InPhase(t, c, Queued) && t.calls[c] == s.calls[c] && t.closed == s.closed && t.holder.None?
  {
    hide WireInv, AnswerInv, CloseInv, CallsInv;
  }

  lemma ConnectOutcome(s: State, c: nat)
    requires Sound(s) && InPhase(s, c, Queued) && s.holder.None? && s.calls[c].kind.Connect? && !s.closed
    ensures Enabled(s, Acquire(c))
    ensures s.connected ==> InPhase(Next(s, Acquire(c)), c, Finished) && Next(s, Acquire(c)).connected
    ensures !s.connected ==>
              && Enabled(Next(s, Acquire(c)), OpenOk(c))
              && var t := Next(Next(s, Acquire(c)), OpenOk(c)); InPhase(t, c, Finished) && t.connected && t.holder.None?
  {
    hide RtuFrame.EncodeFrame, Sound;
  }

  /** So can every queued connect(): it returns with the transport connected. */
  lemma ConnectCanReturn(ss: seq<State>, acts: seq<Action>, i: nat, c: nat) returns (more: seq<Action>, t: State)
    requires Run(ss, acts) && i < |ss| && InPhase(ss[i], c, Queued) && ss[i].calls[c].kind.Connect? && !ss[i].closed
    ensures After(ss[i], more) == Some(t) && |more| <= 4 && InPhase(t, c, Finished) && t.connected
  {
    RunKeepsSound(ss, acts, i);
    hide Next, Enabled, Sound, Run;
    more, t := EmptyLock(ss[i], [], ss[i]);
    QueuedStays(ss[i], t, c);
    ConnectOutcome(t, c);
    var connected := t.connected;
    more, t := Further(ss[i], more, t, Acquire(c));
    if !connected {
      more, t := Further(ss[i], more, t, OpenOk(c));
    }
  }

  // ---------- close() ----------

  /** The transport is closed exactly if a close() has begun. */
  lemma {:induction false} ClosedIffCloseBegan(ss: seq<State>, acts: seq<Action>, i: nat)
    requires Run(ss, acts) && i < |ss|
    ensures ss[i].closed <==> exists k :: 0 <= k < i && acts[k].Start? && acts[k].kind.Close?
    decreases i
  {
    if i > 0 {
      hide Next, Enabled;
      ClosedIffCloseBegan(ss, acts, i - 1);
      FlagsStep(ss[i - 1], acts[i - 1]);
      assert ss[i].closed <==> ss[i - 1].closed || (acts[i - 1].Start? && acts[i - 1].kind.Close?);
      hide Run;
    }
  }

  /** The step drops the connection: a send gives up, or close() gets the lock. */
  predicate Drops(s: State, a: Action)
  {
    a.DrainFail? || a.GiveUp? || (a.Acquire? && a.c in s.calls && s.calls[a.c].kind.Close?)
  }

  /** What each step makes of the flags. */
  lemma FlagsStep(s: State, a: Action)
    requires Enabled(s, a)
    ensures Next(s, a).closed <==> s.closed || (a.Start? && a.kind.Close?)
    ensures Next(s, a).connected <==> a.OpenOk? || (s.connected && !Drops(s, a))
  {
    hide TakeResponse, FrameOf, ValidResponse, Unwrap, RtuFrame.EncodeFrame;
    if a.Receive? {
      UnknownHasHead(s.inbox);
    }
  }

  /** It is connected exactly if nobody has dropped the connection since one was last opened. */
  lemma {:induction false} ConnectedIffOpenedLast(ss: seq<State>, acts: seq<Action>, i: nat)
    requires Run(ss, acts) && i < |ss|
    ensures ss[i].connected <==> exists k :: 0 <= k < i && acts[k].OpenOk? && forall j :: k < j < i ==> !Drops(ss[j], acts[j])
    decreases i
  {
    if i > 0 {
      hide Next, Enabled, Drops;
      ConnectedIffOpenedLast(ss, acts, i - 1);
      FlagsStep(ss[i - 1], acts[i - 1]);
      assert ss[i].connected <==> acts[i - 1].OpenOk? || (ss[i - 1].connected && !Drops(ss[i - 1], acts[i - 1]));
      hide Run;
      if ss[i].connected && !acts[i - 1].OpenOk? {
        var k :| 0 <= k < i - 1 && acts[k].OpenOk? && forall j :: k < j < i - 1 ==> !Drops(ss[j], acts[j]);
        assert forall j :: k < j < i ==> !Drops(ss[j], acts[j]);
      } else if k :| 0 <= k < i && acts[k].OpenOk? && forall j :: k < j < i ==> !Drops(ss[j], acts[j]) {
        assert k < i - 1 ==> !Drops(ss[i - 1], acts[i - 1]);
      }
    }
  }

  /** A send or connect is refused on entry exactly if a close() has begun, and a send of an empty
      PDU always; anything else is queued. */
  lemma RefusedIffClosed(ss: seq<State>, acts: seq<Action>, i: nat)
    requires Run(ss, acts) && i < |acts| && acts[i].Start?
    ensures ss[i + 1].calls == ss[i].calls[acts[i].c := ss[i + 1].calls[acts[i].c]]
    ensures var k := acts[i].kind;
            && ss[i + 1].calls[acts[i].c].kind == k
            && (ss[i + 1].calls[acts[i].c].phase.Queued? || ss[i + 1].calls[acts[i].c].phase.Raised?)
            && (ss[i + 1].calls[acts[i].c].phase.Raised? <==>
                  !k.Close? && ((exists j :: 0 <= j < i && acts[j].Start? && acts[j].kind.Close?) || (k.Send? && k.pdu == [])))
  {
    ClosedIffCloseBegan(ss, acts, i);
  }

  /** Once close() has begun, later sends and connects are refused, and no call that was not
      already opening a connection begins to. */
  lemma {:induction false} CloseRefuses(ss: seq<State>, acts: seq<Action>, i: nat, j: nat, c: nat)
    requires Run(ss, acts) && i <= j < |ss| && ss[i].closed
    ensures ss[j].closed
    ensures c !in ss[i].calls && c in ss[j].calls && !ss[j].calls[c].kind.Close? ==> ss[j].calls[c].phase.Raised?
    ensures InPhase(ss[j], c, Opening) ==> InPhase(ss[i], c, Opening)
    decreases j
  {
    hide Next, Enabled;
    if i < j {
      CloseRefuses(ss, acts, i, j - 1, c);
      ClosedStep(ss[j - 1], acts[j - 1], c);
    }
  }

  lemma ClosedStep(s: State, a: Action, c: nat)
    requires s.closed && Enabled(s, a)
    ensures Next(s, a).closed
    ensures InPhase(Next(s, a), c, Opening) ==> InPhase(s, c, Opening)
    ensures c !in s.calls && c in Next(s, a).calls && !Next(s, a).calls[c].kind.Close? ==> Next(s, a).calls[c].phase.Raised?
    ensures c in s.calls && s.calls[c].phase.Raised? ==> c in Next(s, a).calls && Next(s, a).calls[c] == s.calls[c]
    ensures c in s.calls ==> c in Next(s, a).calls && Next(s, a).calls[c].kind == s.calls[c].kind
  {
    hide TakeResponse, FrameOf, ValidResponse, RtuFrame.DecodeFrame, RtuFrame.EncodeFrame;
    if a.Receive? {
      UnknownHasHead(s.inbox);
    } else if a.Acquire? {
      hide Goto, Finish, Proceed;
      var t := s.(holder := Some(a.c));
      Moves(t, a.c, c); Moves(Teardown(t), a.c, c);
    }
  }

  lemma Moves(s: State, d: nat, c: nat)
    requires d in s.calls
    ensures forall p :: Goto(s, d, p) == s.(calls := s.calls[d := s.calls[d].(phase := p)])
    ensures forall p :: Finish(s, d, p) == s.(holder := None, calls := s.calls[d := s.calls[d].(phase := p)])
    ensures Proceed(s, d).closed == s.closed && d in Proceed(s, d).calls && !Proceed(s, d).calls[d].phase.Opening?
    ensures Proceed(s, d).calls == s.calls[d := Proceed(s, d).calls[d]] && Proceed(s, d).calls[d].kind == s.calls[d].kind
  {
    hide RtuFrame.EncodeFrame;
  }
}
