/**
  The RTU-over-TCP transport, src/pymod/transport/rtu_over_tcp.py, as atomic steps between
  awaits. The transport object is shared by any number of coroutines (`calls`) that queue on one
  lock; the peer answers each request at most once, with a well-formed frame that may arrive in
  pieces. Task cancellation is not part of the model.
 */
module RtuOverTcp {
  import opened Basics
  import opened Pdu
  import RtuFrame
  import opened RtuStream

  datatype Kind = Send(unit: int, pdu: seq<byte>) | Connect | Close

  /** Where a coroutine is suspended, or how it ended. */
  datatype Phase =
    | Queued        // waiting for the lock
    | Opening       // holds the lock, awaiting open_connection
    | Sending       // holds the lock, awaiting drain
    | Receiving     // holds the lock, awaiting the response
    | Closing       // holds the lock, awaiting wait_closed inside the teardown
    | Returned(reply: seq<byte>)
    | Raised
    | Finished      // connect() or close() returned

  datatype Call = Call(kind: Kind, phase: Phase)

  /** The transport's fields, the coroutines, and the current connection as seen from this end:
      bytes received and unread, bytes of the reply still under way, and the request not yet
      answered. `replies` records what the peer answered to each request, and `written` the frame
      of each request, on any connection. */
  datatype State = State(
    connected: bool, closed: bool, holder: Option<nat>, calls: map<nat, Call>,
    inbox: seq<byte>, coming: seq<byte>, owed: Option<nat>, replies: map<nat, Sent>,
    written: map<nat, seq<byte>>)

  const INITIAL := State(false, false, None, map[], [], [], None, map[], map[])

  datatype Action =
    | Start(c: nat, kind: Kind)
    | Acquire(c: nat)
    | OpenOk(c: nat)
    | OpenFail(c: nat)
    | DrainOk(c: nat)
    | DrainFail(c: nat)
    | Receive(c: nat)
    | GiveUp(c: nat)                // response timeout, or connection lost while waiting
    | TornDown(c: nat)              // the old connection is closed
    | PeerReplies(m: Sent)
    | BytesArrive(n: nat)

  predicate InPhase(s: State, c: nat, p: Phase) { c in s.calls && s.calls[c].phase == p }

  ghost predicate Enabled(s: State, a: Action)
  {
    match a
    case Start(c, _) => c !in s.calls
    case Acquire(c) => InPhase(s, c, Queued) && s.holder.None?
    case OpenOk(c) => InPhase(s, c, Opening)
    case OpenFail(c) => InPhase(s, c, Opening)
    case DrainOk(c) => InPhase(s, c, Sending)
    case DrainFail(c) => InPhase(s, c, Sending)
    case Receive(c) => InPhase(s, c, Receiving) && !TakeResponse(s.inbox).Incomplete?
    case GiveUp(c) => InPhase(s, c, Receiving)
    case TornDown(c) => InPhase(s, c, Closing)
    case PeerReplies(m) => s.connected && s.owed.Some? && ValidResponse(m.resp)
    case BytesArrive(n) => s.connected && n <= |s.coming|
  }

  // ---------- the steps ----------

  function Goto(s: State, c: nat, p: Phase): State
    requires c in s.calls
  {
    s.(calls := s.calls[c := s.calls[c].(phase := p)])
  }

  /** Leave the lock. */
  function Finish(s: State, c: nat, p: Phase): State
    requires c in s.calls
  {
    Goto(s, c, p).(holder := None)
  }

  /** `_teardown_locked` up to its await: the connection and everything on it are gone. */
  function Teardown(s: State): State
  {
    s.(connected := false, inbox := [], coming := [], owed := None)
  }

  /** From the end of `_open_locked` to the drain: a connect call is done, a send call writes. */
  function Proceed(s: State, c: nat): State
    requires c in s.calls
  {
    match s.calls[c].kind
    case Send(unit, pdu) =>
      (match RtuFrame.EncodeFrame(unit, pdu)
       case Err(_) => Finish(s, c, Raised)
       case Ok(frame) => Goto(s, c, Sending).(owed := Some(c), written := s.written[c := frame]))
    case _ => Finish(s, c, Finished)
  }

  function Started(s: State, kind: Kind): Phase
  {
    match kind
    case Send(_, pdu) => if s.closed || pdu == [] then Raised else Queued
    case Connect => if s.closed then Raised else Queued
    case Close => Queued
  }

  function Next(s: State, a: Action): State
    requires Enabled(s, a)
  {
    match a
    case Start(c, kind) =>
      s.(calls := s.calls[c := Call(kind, Started(s, kind))], closed := s.closed || kind.Close?)
    case Acquire(c) =>
      var t := s.(holder := Some(c));
      if s.calls[c].kind.Close? then
        if s.connected then Goto(Teardown(t), c, Closing) else Finish(t, c, Finished)
      else if s.connected then Proceed(t, c)
      else if s.closed then Finish(t, c, Raised)
      else Goto(t, c, Opening)
    case OpenOk(c) => Proceed(Teardown(s).(connected := true), c)
    case OpenFail(c) => Finish(s, c, Raised)
    case DrainOk(c) => Goto(s, c, Receiving)
    case DrainFail(c) => Goto(Teardown(s), c, Closing)
    case Receive(c) =>
      var t := TakeResponse(s.inbox);
      if t.Frame? then Finish(s.(inbox := t.rest), c, Unwrap(s, c, t.frame))
      else Finish(s.(inbox := s.inbox[2..]), c, Raised)  // unknown function code
    case GiveUp(c) => Goto(Teardown(s), c, Closing)
    case TornDown(c) => Finish(s, c, if s.calls[c].kind.Close? then Finished else Raised)
    case PeerReplies(m) => s.(coming := s.coming + FrameOf(m), owed := None, replies := s.replies[s.owed.value := m])
    case BytesArrive(n) => s.(inbox := s.inbox + s.coming[..n], coming := s.coming[n..])
  }

  /** CRC and unit id are checked after the frame has been consumed; neither tears down. */
  function Unwrap(s: State, c: nat, f: seq<byte>): Phase
    requires c in s.calls
  {
    match RtuFrame.DecodeFrame(f)
    case Err(_) => Raised
    case Ok((uid, pdu)) =>
      if s.calls[c].kind.Send? && uid == s.calls[c].kind.unit then Returned(pdu) else Raised
  }

  // ---------- the invariant ----------

  predicate Quiet(s: State) { s.inbox == [] && s.coming == [] && s.owed.None? }

  predicate HoldsLock(p: Phase) { p.Opening? || p.Sending? || p.Receiving? || p.Closing? }

  /** The bytes are what the peer answered to the request of `c`. */
  predicate IsReplyTo(s: State, c: nat, f: seq<byte>)
  {
    c in s.replies && ValidResponse(s.replies[c].resp) && f == FrameOf(s.replies[c])
  }

  /** Exactly the coroutine that holds the lock is inside it. */
  ghost predicate LockInv(s: State)
  {
    && (s.holder.Some? ==> s.holder.value in s.calls && HoldsLock(s.calls[s.holder.value].phase))
    && (forall c :: c in s.calls && HoldsLock(s.calls[c].phase) ==>
          s.holder == Some(c) && (s.calls[c].kind.Close? ==> s.calls[c].phase.Closing?))
  }

  /** What is on the connection is either nothing, or belongs to the request of the call inside. */
  ghost predicate WireInv(s: State)
  {
    && (!s.connected ==> Quiet(s))
    && (s.holder.None? ==> Quiet(s))
    && (s.holder.Some? && s.holder.value in s.calls ==>
          var p := s.calls[s.holder.value].phase;
          && (p.Opening? || p.Closing? ==> !s.connected)
          && (p.Sending? || p.Receiving? ==>
                && s.connected
                && ((s.owed == s.holder && s.inbox == [] && s.coming == [])
                    || (s.owed.None? && IsReplyTo(s, s.holder.value, s.inbox + s.coming)))))
  }

  ghost predicate AnswerInv(s: State)
  {
    forall c :: c in s.calls && s.calls[c].phase.Returned? ==> AnswersOwn(s, c, s.calls[c].phase)
  }

  /** The reply returned is the PDU the peer sent for this very request, from the unit asked. */
  predicate AnswersOwn(s: State, c: nat, p: Phase)
  {
    && c in s.replies && c in s.calls && p.Returned? && ValidResponse(s.replies[c].resp)
    && p.reply == EncodeResponse(s.replies[c].resp)
    && s.calls[c].kind.Send? && s.calls[c].kind.unit == s.replies[c].uid
  }

  /** A request is answered only while it is owed, so once. */
  ghost predicate OwedInv(s: State)
  {
    s.owed.Some? ==> s.owed == s.holder
  }

  ghost predicate CloseInv(s: State)
  {
    forall c :: c in s.calls && s.calls[c].kind.Close? ==>
      && s.closed
      && (s.calls[c].phase.Finished? ==> !s.connected && s.holder.None?)
  }

  ghost predicate Inv(s: State)
  {
    LockInv(s) && WireInv(s) && OwedInv(s) && AnswerInv(s) && CloseInv(s)
  }

  /** Bytes that are a prefix of one reply frame can only be read as that frame, when all of it
      is there. */
  lemma ReadsWholeReply(m: Sent, inbox: seq<byte>, coming: seq<byte>)
    requires ValidResponse(m.resp) && inbox + coming == FrameOf(m) && !TakeResponse(inbox).Incomplete?
    ensures coming == [] && inbox == FrameOf(m) && TakeResponse(inbox) == Frame(inbox, [])
  {
    var f := inbox + coming;
    TakesExactlyOne(m, []);
    assert f + [] == f && f[..|inbox|] == inbox;
  }

  lemma EmptyIsIncomplete()
    ensures TakeResponse([]).Incomplete?
  {}

  /** Writing the request of the call inside, on a silent connection. */
  lemma ProceedKeepsInv(s: State, c: nat)
    requires c in s.calls && !s.calls[c].kind.Close? && s.holder == Some(c) && s.connected && Quiet(s)
    requires forall d :: d in s.calls && d != c ==> !HoldsLock(s.calls[d].phase)
    requires AnswerInv(s) && (s.calls[c].phase.Queued? || s.calls[c].phase.Opening?)
    requires forall d :: d in s.calls && s.calls[d].kind.Close? ==> s.closed && !s.calls[d].phase.Finished?
    ensures Inv(Proceed(s, c))
  {
    hide FrameOf, EncodeResponse, ValidResponse, RtuFrame.EncodeFrame;
  }

  /** Ending the call inside, with nothing left on the wire. */
  lemma FinishKeepsInv(s: State, c: nat, p: Phase)
    requires c in s.calls && !HoldsLock(p) && Quiet(s) && AnswerInv(s)
    requires forall d :: d in s.calls && d != c ==> !HoldsLock(s.calls[d].phase)
    requires p.Returned? ==> AnswersOwn(s, c, p)
    requires forall d :: d in s.calls && s.calls[d].kind.Close? ==>
               s.closed && (s.connected ==> d != c && !s.calls[d].phase.Finished?)
    ensures Inv(Finish(s, c, p))
  {
    hide FrameOf, EncodeResponse, ValidResponse;
  }

  /** The call inside starts to tear the connection down. */
  lemma TeardownKeepsInv(s: State, c: nat)
    requires c in s.calls && s.holder == Some(c) && AnswerInv(s)
    requires forall d :: d in s.calls && d != c ==> !HoldsLock(s.calls[d].phase)
    requires forall d :: d in s.calls && s.calls[d].kind.Close? ==> s.closed && !s.calls[d].phase.Finished?
    ensures Inv(Goto(Teardown(s), c, Closing))
  {
    hide FrameOf, EncodeResponse, ValidResponse;
  }

  lemma ReceiveKeepsInv(s: State, c: nat)
    requires Inv(s) && Enabled(s, Receive(c))
    ensures Inv(Next(s, Receive(c)))
  {
    hide TakeResponse, FrameOf, EncodeResponse, ValidResponse, RtuFrame.DecodeFrame;
    EmptyIsIncomplete();
    var m := s.replies[c];
    ReadsWholeReply(m, s.inbox, s.coming);
    FrameDecodes(m);
    FinishKeepsInv(s.(inbox := []), c, Unwrap(s, c, s.inbox));
  }

  lemma WireKeepsInv(s: State, a: Action)
    requires Inv(s) && Enabled(s, a) && (a.PeerReplies? || a.BytesArrive?)
    ensures Inv(Next(s, a))
  {
    hide TakeResponse, FrameOf, EncodeResponse, ValidResponse;
    if a.PeerReplies? {
      assert [] + ([] + FrameOf(a.m)) == FrameOf(a.m);
    } else {
      assert s.inbox + s.coming == (s.inbox + s.coming[..a.n]) + s.coming[a.n..];
    }
  }

  /** What the invariant says about a call inside the lock. */
  lemma Inside(s: State, c: nat)
    requires Inv(s) && c in s.calls && HoldsLock(s.calls[c].phase)
    ensures s.holder == Some(c) && AnswerInv(s) && (s.calls[c].kind.Close? ==> s.calls[c].phase.Closing?)
    ensures forall d :: d in s.calls && d != c ==> !HoldsLock(s.calls[d].phase)
    ensures forall d :: d in s.calls && s.calls[d].kind.Close? ==> s.closed && !s.calls[d].phase.Finished?
    ensures s.calls[c].phase.Opening? || s.calls[c].phase.Closing? ==> !s.connected && Quiet(s)
  {
    hide FrameOf, EncodeResponse, ValidResponse;
  }

  /** What it says while the lock is free. */
  lemma LockFree(s: State)
    requires Inv(s) && s.holder.None?
    ensures Quiet(s) && AnswerInv(s)
    ensures forall d :: d in s.calls ==> !HoldsLock(s.calls[d].phase)
    ensures forall d :: d in s.calls && s.calls[d].kind.Close? ==> s.closed && (s.connected ==> !s.calls[d].phase.Finished?)
  {
    hide FrameOf, EncodeResponse, ValidResponse;
  }

  lemma StartKeepsInv(s: State, c: nat, kind: Kind)
    requires Inv(s) && c !in s.calls
    ensures Inv(Next(s, Start(c, kind)))
  {
    hide FrameOf, EncodeResponse, ValidResponse;
  }

  lemma OpeningKeepsInv(s: State, c: nat)
    requires Inv(s) && Enabled(s, Acquire(c)) && !s.connected && !s.closed && !s.calls[c].kind.Close?
    ensures Inv(Next(s, Acquire(c)))
  {
    hide FrameOf, EncodeResponse, ValidResponse;
  }

  lemma DrainKeepsInv(s: State, c: nat)
    requires Inv(s) && Enabled(s, DrainOk(c))
    ensures Inv(Next(s, DrainOk(c)))
  {
    hide FrameOf, EncodeResponse, ValidResponse;
  }

  lemma AcquireKeepsInv(s: State, c: nat)
    requires Inv(s) && Enabled(s, Acquire(c))
    ensures Inv(Next(s, Acquire(c)))
  {
    hide Inv, AnswerInv, Proceed, Finish, Goto;
    LockFree(s);
    var t := s.(holder := Some(c));
    SameAnswers(s, t);
    if s.calls[c].kind.Close? {
      if s.connected {
        TeardownKeepsInv(t, c);
      } else {
        FinishKeepsInv(t, c, Finished);
      }
    } else if s.connected {
      ProceedKeepsInv(t, c);
    } else if s.closed {
      FinishKeepsInv(t, c, Raised);
    } else {
      OpeningKeepsInv(s, c);
    }
  }

  lemma SameAnswers(s: State, t: State)
    requires AnswerInv(s) && t.calls == s.calls && t.replies == s.replies
    ensures AnswerInv(t)
  {
    hide EncodeResponse, ValidResponse;
  }

  /** Every step of every coroutine, of the peer and of the network keeps the invariant. */
  lemma StepKeepsInv(s: State, a: Action)
    requires Inv(s) && Enabled(s, a)
    ensures Inv(Next(s, a))
  {
    hide TakeResponse, FrameOf, ValidResponse, Inv, AnswerInv, Proceed, Finish, Goto;
    match a
    case Start(c, kind) =>
      StartKeepsInv(s, c, kind);
    case Acquire(c) =>
      AcquireKeepsInv(s, c);
    case OpenOk(c) =>
      Inside(s, c);
      SameAnswers(s, Teardown(s).(connected := true));
      ProceedKeepsInv(Teardown(s).(connected := true), c);
    case OpenFail(c) =>
      Inside(s, c);
      FinishKeepsInv(s, c, Raised);
    case DrainOk(c) =>
      DrainKeepsInv(s, c);
    case DrainFail(c) =>
      Inside(s, c);
      TeardownKeepsInv(s, c);
    case GiveUp(c) =>
      Inside(s, c);
      TeardownKeepsInv(s, c);
    case TornDown(c) =>
      Inside(s, c);
      FinishKeepsInv(s, c, if s.calls[c].kind.Close? then Finished else Raised);
    case Receive(c) =>
      ReceiveKeepsInv(s, c);
    case PeerReplies(_) =>
      WireKeepsInv(s, a);
    case BytesArrive(_) =>
      WireKeepsInv(s, a);
  }

  // ---------- whole runs ----------

  ghost predicate Run(ss: seq<State>, acts: seq<Action>)
  {
    && |ss| == |acts| + 1 && ss[0] == INITIAL
    && forall i :: 0 <= i < |acts| ==> Enabled(ss[i], acts[i]) && ss[i + 1] == Next(ss[i], acts[i])
  }

  lemma {:induction false} RunKeepsInv(ss: seq<State>, acts: seq<Action>, i: nat)
    requires Run(ss, acts) && i < |ss|
    ensures Inv(ss[i])
    decreases i
  {
    if i > 0 {
      RunKeepsInv(ss, acts, i - 1);
      StepKeepsInv(ss[i - 1], acts[i - 1]);
    }
  }

  /** In every state of every run: with the lock free, the transport is disconnected or the
      connection is silent and owes nothing; a call that returned holds the reply to its own
      request, never a late reply to an earlier one; and after a close() has returned the
      transport is not connected. */
  lemma LockStepSafety(ss: seq<State>, acts: seq<Action>, i: nat)
    requires Run(ss, acts) && i < |ss|
    ensures ss[i].holder.None? ==> !ss[i].connected || Quiet(ss[i])
    ensures forall c :: c in ss[i].calls && ss[i].calls[c].phase.Returned? ==> AnswersOwn(ss[i], c, ss[i].calls[c].phase)
    ensures (exists c :: c in ss[i].calls && ss[i].calls[c].kind.Close? && ss[i].calls[c].phase.Finished?) ==> !ss[i].connected
  {
    RunKeepsInv(ss, acts, i);
  }

  /** A call that has ended stays as it ended; in particular close() returns once and for all, so
      the transport is never connected again. */
  lemma {:induction false} NeverReconnects(ss: seq<State>, acts: seq<Action>, i: nat, j: nat, c: nat)
    requires Run(ss, acts) && i <= j < |ss|
    requires c in ss[i].calls && ss[i].calls[c].kind.Close? && ss[i].calls[c].phase.Finished?
    ensures c in ss[j].calls && ss[j].calls[c] == ss[i].calls[c] && !ss[j].connected
    decreases j
  {
    hide Next, Enabled, LockInv, WireInv, AnswerInv;
    RunKeepsInv(ss, acts, j);
    if i < j {
      NeverReconnects(ss, acts, i, j - 1, c);
      FinishedStays(ss[j - 1], acts[j - 1], c);
    }
  }

  lemma FinishedStays(s: State, a: Action, c: nat)
    requires Enabled(s, a) && c in s.calls && s.calls[c].phase.Finished?
    ensures c in Next(s, a).calls && Next(s, a).calls[c] == s.calls[c]
  {
    hide TakeResponse, FrameOf, ValidResponse, Unwrap, Proceed, Finish, Goto;
    match a
    case Start(_, _) =>
    case Acquire(d) =>
      var t := s.(holder := Some(d));
      OthersStay(Teardown(t), d, Closing, c);
      OthersStay(t, d, Finished, c);
      OthersStay(t, d, Raised, c);
      OthersStay(t, d, Opening, c);
    case OpenOk(d) => OthersStay(Teardown(s).(connected := true), d, Raised, c);
    case OpenFail(d) => OthersStay(s, d, Raised, c);
    case DrainOk(d) => OthersStay(s, d, Receiving, c);
    case DrainFail(d) => OthersStay(Teardown(s), d, Closing, c);
    case GiveUp(d) => OthersStay(Teardown(s), d, Closing, c);
    case TornDown(d) => OthersStay(s, d, if s.calls[d].kind.Close? then Finished else Raised, c);
    case Receive(d) =>
      UnknownHasHead(s.inbox);
      var t := TakeResponse(s.inbox);
      if t.Frame? {
        OthersStay(s.(inbox := t.rest), d, Unwrap(s, d, t.frame), c);
      } else {
        OthersStay(s.(inbox := s.inbox[2..]), d, Raised, c);
      }
    case _ =>
  }

  lemma UnknownHasHead(inbox: seq<byte>)
    ensures TakeResponse(inbox).UnknownFunction? ==> |inbox| >= 2
  {}

  lemma OthersStay(s: State, d: nat, p: Phase, c: nat)
    requires c in s.calls && d in s.calls && c != d
    ensures c in Goto(s, d, p).calls && Goto(s, d, p).calls[c] == s.calls[c]
    ensures c in Finish(s, d, p).calls && Finish(s, d, p).calls[c] == s.calls[c]
    ensures c in Proceed(s, d).calls && Proceed(s, d).calls[c] == s.calls[c]
  {
    hide RtuFrame.EncodeFrame;
  }

  // ---------- the transport object ----------

  class Transport {
    var connected: bool
    var closed: bool
    var holder: Option<nat>
    var calls: map<nat, Call>
    var inbox: seq<byte>
    var coming: seq<byte>
    var owed: Option<nat>          // history only: never read by a decision
    var replies: map<nat, Sent>    // history only
    var written: map<nat, seq<byte>> // history only

    constructor ()
      ensures Valid() && View() == INITIAL
    {
      connected, closed, holder, calls := false, false, None, map[];
      inbox, coming, owed, replies, written := [], [], None, map[], map[];
    }

    /** The invariant of every reachable state. */
    ghost predicate Valid()
      reads this
    {
      Inv(View())
    }

    function View(): State
      reads this
    {
      State(connected, closed, holder, calls, inbox, coming, owed, replies, written)
    }

    /** Entry of send_and_receive, connect and close, up to the wait for the lock. */
    method Begin(c: nat, kind: Kind)
      requires Valid()
      requires Enabled(View(), Start(c, kind))
      modifies this
      ensures Valid() && View() == Next(old(View()), Start(c, kind))
    {
      hide Inv;
      StepKeepsInv(View(), Start(c, kind));
      var phase := Queued;
      match kind {
        case Send(_, pdu) => if closed || |pdu| == 0 { phase := Raised; }
        case Connect => if closed { phase := Raised; }
        case Close => closed := true;
      }
      calls := calls[c := Call(kind, phase)];
    }

    method SetPhase(c: nat, p: Phase)
      requires c in calls
      modifies this`calls
      ensures View() == Goto(old(View()), c, p)
    {
      calls := calls[c := calls[c].(phase := p)];
    }

    method TeardownLocked()
      modifies this
      ensures View() == Teardown(old(View()))
    {
      connected := false;
      inbox, coming, owed := [], [], None;
    }

    /** Write the frame, or end the call that only wanted a connection. */
    method WriteRequest(c: nat)
      requires c in calls
      modifies this
      ensures View() == Proceed(old(View()), c)
    {
      match calls[c].kind {
        case Send(unit, pdu) =>
          var frame := RtuFrame.EncodeFrame(unit, pdu);
          if frame.Err? {
            SetPhase(c, Raised);
            holder := None;
          } else {
            SetPhase(c, Sending);
            owed, written := Some(c), written[c := frame.value];
          }
        case _ =>
          SetPhase(c, Finished);
          holder := None;
      }
    }

    /** The lock is granted. */
    method TakeLock(c: nat)
      requires Valid()
      requires Enabled(View(), Acquire(c))
      modifies this
      ensures Valid() && View() == Next(old(View()), Acquire(c))
    {
      hide Inv;
      StepKeepsInv(View(), Acquire(c));
      holder := Some(c);
      if calls[c].kind.Close? {
        if connected {
          TeardownLocked();
          SetPhase(c, Closing);
        } else {
          SetPhase(c, Finished);
          holder := None;
        }
      } else if connected {
        WriteRequest(c);
      } else if closed {
        SetPhase(c, Raised);
        holder := None;
      } else {
        SetPhase(c, Opening);
      }
    }

    method Opened(c: nat)
      requires Valid()
      requires Enabled(View(), OpenOk(c))
      modifies this
      ensures Valid() && View() == Next(old(View()), OpenOk(c))
    {
      hide Inv;
      StepKeepsInv(View(), OpenOk(c));
      inbox, coming, owed := [], [], None;
      connected := true;
      WriteRequest(c);
    }

    method OpenFailed(c: nat)
      requires Valid()
      requires Enabled(View(), OpenFail(c))
      modifies this
      ensures Valid() && View() == Next(old(View()), OpenFail(c))
    {
      hide Inv;
      StepKeepsInv(View(), OpenFail(c));
      SetPhase(c, Raised);
      holder := None;
    }

    /** The request has been drained: wait for the response. */
    method OnDrained(c: nat)
      requires Valid()
      requires Enabled(View(), DrainOk(c))
      modifies this
      ensures Valid() && View() == Next(old(View()), DrainOk(c))
    {
      hide Inv;
      StepKeepsInv(View(), DrainOk(c));
      SetPhase(c, Receiving);
    }

    /** Send failure, response timeout, lost connection: drop the connection, still under the lock. */
    method Abandon(c: nat)
      requires Valid()
      requires InPhase(View(), c, Sending) || InPhase(View(), c, Receiving)
      modifies this
      ensures Valid() && View() == Next(old(View()), if old(calls[c].phase).Sending? then DrainFail(c) else GiveUp(c))
    {
      hide Inv;
      StepKeepsInv(View(), if calls[c].phase.Sending? then DrainFail(c) else GiveUp(c));
      TeardownLocked();
      SetPhase(c, Closing);
    }

    /** The wait inside the teardown is over: release the lock; close() returns, a send raises. */
    method Closed(c: nat)
      requires Valid()
      requires Enabled(View(), TornDown(c))
      modifies this
      ensures Valid() && View() == Next(old(View()), TornDown(c))
    {
      hide Inv;
      StepKeepsInv(View(), TornDown(c));
      SetPhase(c, if calls[c].kind.Close? then Finished else Raised);
      holder := None;
    }

    /** The response reader finished: unwrap, check the unit id, release the lock. */
    method Answer(c: nat)
      requires Valid()
      requires Enabled(View(), Receive(c))
      modifies this
      ensures Valid() && View() == Next(old(View()), Receive(c))
    {
      hide Inv;
      StepKeepsInv(View(), Receive(c));
      var taken := TakeResponse(inbox);
      if taken.Frame? {
        inbox := taken.rest;
        match RtuFrame.DecodeFrame(taken.frame) {
          case Err(_) =>
            SetPhase(c, Raised);
          case Ok((uid, pdu)) =>
            if calls[c].kind.Send? && uid == calls[c].kind.unit {
              SetPhase(c, Returned(pdu));
            } else {
              SetPhase(c, Raised);
            }
        }
      } else {
        inbox := inbox[2..];
        SetPhase(c, Raised);
      }
      holder := None;
    }
  }
}
