/**
  What becomes of replies, of teardowns and of close() in the Modbus TCP transport,
  src/pymod/transport/tcp.py: who is registered when a reply arrives, and who can be served.
 */
module TcpReplies {
  import opened Basics
  import opened Mbap
  import opened TcpTransport
  import opened TcpProgress

  // ---------- futures ----------

  /** A future is fresh until its call has an id, and is cancelled only when its call ends; a call
      ends in the way of its kind. */
  predicate LifeOk(call: Call)
  {
    && (BeforeGrant(call.phase) ==> call.future.Unresolved?)
    && (InFlight(call.phase) ==> !call.future.Cancelled?)
    && (if call.kind.Request? then !call.phase.Finished? else !InFlight(call.phase) && !call.phase.Returned?)
  }

  ghost predicate LifeInv(s: State)
  {
    forall c :: c in s.calls ==> LifeOk(s.calls[c])
  }

  lemma MoveKeepsLife(s: State, c: nat, p: Phase)
    requires LifeInv(s) && c in s.calls
    requires InFlight(p) ==> !s.calls[c].future.Cancelled?
    requires BeforeGrant(p) ==> BeforeGrant(s.calls[c].phase)
    requires if s.calls[c].kind.Request? then !p.Finished? else !InFlight(p) && !p.Returned?
    ensures LifeInv(Goto(s, c, p)) && LifeInv(End(s, c, p)) && LifeInv(EndPop(s, c, p))
  {
    hide Tid;
  }

  lemma TransmitKeepsLife(s: State, c: nat)
    requires LifeInv(s) && c in s.calls && BeforeGrant(s.calls[c].phase)
    ensures LifeInv(Transmit(s, c))
  {
    hide Probe, Mbap.EncodeFrame, Successor, IdAt, Goto, End, EndPop, Grant, Wrote, LifeInv;
    FreshLives(s, c);
    match s.calls[c].kind
    case ConnectOnly => MoveKeepsLife(s, c, Finished);
    case Request(uid, pdu) =>
      match Probe(s.pending, s.nextTid, IDS)
      case None =>
        SameLife(s, s.(probes := s.probes + IDS));
        MoveKeepsLife(s.(probes := s.probes + IDS), c, Raised);
      case Some(k) =>
        GrantKeepsLife(s, c, k);
        MoveKeepsLife(Grant(s, c, k), c, Raised);
        var frame := Mbap.EncodeFrame(IdAt(s.nextTid, k), uid, pdu);
        if frame.Ok? {
          WroteKeepsLife(Grant(s, c, k), c, frame.value);
          MoveKeepsLife(Wrote(Grant(s, c, k), c, frame.value), c, Draining);
        }
  }

  lemma FreshLives(s: State, c: nat)
    requires LifeInv(s) && c in s.calls && BeforeGrant(s.calls[c].phase)
    ensures s.calls[c].future.Unresolved?
  {}

  lemma GrantKeepsLife(s: State, c: nat, k: nat)
    requires LifeInv(s) && c in s.calls
    ensures LifeInv(Grant(s, c, k))
    ensures Grant(s, c, k).calls[c].future == s.calls[c].future && Grant(s, c, k).calls[c].kind == s.calls[c].kind
  {
    hide IdAt, Successor;
  }

  lemma WroteKeepsLife(s: State, c: nat, frame: seq<byte>)
    requires LifeInv(s) && c in s.calls
    ensures LifeInv(Wrote(s, c, frame))
    ensures Wrote(s, c, frame).calls[c].future == s.calls[c].future && Wrote(s, c, frame).calls[c].kind == s.calls[c].kind
  {}

  lemma StepKeepsLife(s: State, a: Action)
    requires PendingInv(s) && LifeInv(s) && Enabled(s, a)
    ensures LifeInv(Next(s, a))
  {
    hide Transmit, End, EndPop, Goto, Mbap.DecodeFrame, FailPending, LifeInv;
    match a
    case Start(c, _) => PlainKeepsLife(s, a);
    case Enter(c) =>
      var t := if !s.pipeline && s.calls[c].kind.Request? then s.(serial := Some(c)) else s;
      SameLife(s, t);
      TransmitKeepsLife(t, c);
      MoveKeepsLife(t, c, NeedsConnection);
    case Lock(c) =>
      TransmitKeepsLife(s, c);
      MoveKeepsLife(s, c, Raised);
      MoveKeepsLife(s, c, Opening);
      SameLife(Goto(s, c, Opening), Goto(s, c, Opening).(opener := Some(c)));
    case OpenOk(c) =>
      var t := s.(connected := true, writer := true, opener := None);
      SameLife(s, t);
      TransmitKeepsLife(t, c);
    case OpenFail(c) =>
      SameLife(s, s.(opener := None));
      MoveKeepsLife(s.(opener := None), c, Raised);
    case Drained(c) => FlyingLives(s, c); MoveKeepsLife(s, c, Waiting);
    case DrainFail(c) => MoveKeepsLife(s, c, Raised);
    case Timeout(c) => TimeoutKeepsLife(s, c);
    case Resume(c) =>
      FlyingLives(s, c);
      MoveKeepsLife(s, c, match s.calls[c].future case Reply(pdu, origin) => Returned(pdu, origin) case _ => Raised);
    case Receive(_, _) => ReceiveKeepsLife(s, a);
    case TeardownEnd => FailedLife(s);
    case _ => SameLife(s, Next(s, a));
  }

  lemma SameLife(s: State, t: State)
    requires LifeInv(s) && t.calls == s.calls
    ensures LifeInv(t)
  {}

  lemma PlainKeepsLife(s: State, a: Action)
    requires LifeInv(s) && Enabled(s, a) && a.Start?
    ensures LifeInv(Next(s, a))
  {}

  lemma FlyingLives(s: State, c: nat)
    requires LifeInv(s) && c in s.calls && InFlight(s.calls[c].phase)
    ensures !s.calls[c].future.Cancelled? && s.calls[c].kind.Request?
  {}

  lemma TimeoutKeepsLife(s: State, c: nat)
    requires LifeInv(s) && Enabled(s, Timeout(c))
    ensures LifeInv(Next(s, Timeout(c)))
  {
    hide Tid;
  }

  lemma ReceiveKeepsLife(s: State, a: Action)
    requires PendingInv(s) && LifeInv(s) && a.Receive?
    ensures LifeInv(Next(s, a))
  {
    hide Tid, Mbap.DecodeFrame;
  }

  lemma FailedLife(s: State)
    requires PendingInv(s) && LifeInv(s)
    ensures LifeInv(s.(calls := FailPending(s), pending := map[]))
  {
    hide Tid;
  }

  lemma {:induction false} RunKeepsLife(pipeline: bool, ss: seq<State>, acts: seq<Action>, i: nat)
    requires Run(pipeline, ss, acts) && i < |ss|
    ensures LifeInv(ss[i])
    decreases i
  {
    if i > 0 {
      hide Next, Enabled, LifeInv, GrantInv, SerialInv, SentInv;
      RunKeepsLife(pipeline, ss, acts, i - 1);
      RunKeepsInv(pipeline, ss, acts, i - 1);
      StepKeepsLife(ss[i - 1], acts[i - 1]);
    }
  }

  /** A request never ends like a connect, nor a connect like a request. */
  lemma EndsByKind(pipeline: bool, ss: seq<State>, acts: seq<Action>, i: nat, c: nat)
    requires Run(pipeline, ss, acts) && i < |ss| && c in ss[i].calls && Over(ss[i].calls[c].phase)
    ensures if ss[i].calls[c].kind.Request? then ss[i].calls[c].phase.Returned? || ss[i].calls[c].phase.Raised?
            else ss[i].calls[c].phase.Finished? || ss[i].calls[c].phase.Raised?
  {
    RunKeepsLife(pipeline, ss, acts, i);
    assert LifeOk(ss[i].calls[c]);
  }

  // ---------- who is registered ----------

  predicate Registered(s: State, c: nat)
  {
    c in s.calls && Tid(s.calls[c]) in s.pending && s.pending[Tid(s.calls[c])] == c
  }

  /** The table knows every call in flight whose future is still open. */
  ghost predicate RegisteredInv(s: State)
  {
    forall c :: c in s.calls && InFlight(s.calls[c].phase) && s.calls[c].future.Unresolved? ==> Registered(s, c)
  }

  /** No call has stayed in flight while 65536 further ids were probed. */
  ghost predicate Prompt(s: State)
  {
    forall c :: Granted(s, c) && InFlight(s.calls[c].phase) ==> s.probes - (s.calls[c].grant.value + 1) < IDS
  }

  lemma IdsDiffer(s: State, c: nat, d: nat)
    requires GrantInv(s) && Prompt(s) && c != d && c in s.calls && d in s.calls
    requires InFlight(s.calls[c].phase) && InFlight(s.calls[d].phase)
    ensures Tid(s.calls[c]) != Tid(s.calls[d])
  {
    assert Granted(s, c) && Granted(s, d);
    var g, h := s.calls[c].grant.value, s.calls[d].grant.value;
    if Tid(s.calls[c]) == Tid(s.calls[d]) {
      SameResidue(if g <= h then g else h, if g <= h then h else g);
    }
  }

  lemma MoveKeepsRegistered(s: State, c: nat, p: Phase)
    requires RegisteredInv(s) && c in s.calls && (InFlight(p) ==> InFlight(s.calls[c].phase))
    ensures RegisteredInv(Goto(s, c, p)) && RegisteredInv(End(s, c, p))
  {
    var t := Goto(s, c, p);
    forall d | d in t.calls && InFlight(t.calls[d].phase) && t.calls[d].future.Unresolved?
      ensures Registered(t, d) && Registered(End(s, c, p), d)
    {
      assert Registered(s, d);
      SameTid(s.calls[d], t.calls[d]);
      hide Tid;
    }
  }

  /** Ending one call takes only its own entry away, if no other has its id. */
  lemma PopKeepsRegistered(s: State, c: nat, p: Phase)
    requires RegisteredInv(s) && c in s.calls && !InFlight(p)
    requires forall d :: d in s.calls && d != c && InFlight(s.calls[d].phase) && s.calls[d].future.Unresolved? ==>
               Tid(s.calls[d]) != Tid(s.calls[c])
    ensures RegisteredInv(EndPop(s, c, p))
  {
    var t := EndPop(s, c, p);
    forall d | d in t.calls && InFlight(t.calls[d].phase) && t.calls[d].future.Unresolved?
      ensures Registered(t, d)
    {
      assert Registered(s, d) && d != c;
      SameTid(s.calls[d], t.calls[d]);
      hide Tid;
    }
  }

  lemma GrantRegisters(s: State, c: nat, k: nat)
    requires FieldInv(s) && RegisteredInv(s) && c in s.calls && IdAt(s.nextTid, k) !in s.pending
    ensures RegisteredInv(Grant(s, c, k)) && Registered(Grant(s, c, k), c)
    ensures forall d :: d in s.calls && d != c && InFlight(s.calls[d].phase) && s.calls[d].future.Unresolved? ==>
              Tid(Grant(s, c, k).calls[d]) != Tid(Grant(s, c, k).calls[c])
  {
    GrantedTid(s, c, k);
    hide IdAt, Successor, Tid;
    var t := Grant(s, c, k);
    forall d | d in s.calls && d != c && InFlight(s.calls[d].phase) && s.calls[d].future.Unresolved?
      ensures Registered(t, d) && Tid(t.calls[d]) != Tid(t.calls[c])
    {
      assert Registered(s, d);
    }
  }

  lemma WroteKeepsRegistered(s: State, c: nat, frame: seq<byte>)
    requires RegisteredInv(s) && Registered(s, c)
    ensures RegisteredInv(Goto(Wrote(s, c, frame), c, Draining)) && Registered(Goto(Wrote(s, c, frame), c, Draining), c)
  {
    var t := Goto(Wrote(s, c, frame), c, Draining);
    forall d | d in t.calls && (d == c || (InFlight(t.calls[d].phase) && t.calls[d].future.Unresolved?))
      ensures Registered(t, d)
    {
      assert Registered(s, d);
      SameTid(s.calls[d], t.calls[d]);
      hide Tid;
    }
  }

  lemma TransmitKeepsRegistered(s: State, c: nat)
    requires FieldInv(s) && RegisteredInv(s) && c in s.calls && BeforeGrant(s.calls[c].phase)
    ensures RegisteredInv(Transmit(s, c))
  {
    AllocatorExact(s.pending, s.nextTid);
    hide Probe, Mbap.EncodeFrame, Successor, IdAt, Goto, End, EndPop, RegisteredInv, Wrote, Tid, Registered, Grant;
    match s.calls[c].kind
    case ConnectOnly => MoveKeepsRegistered(s, c, Finished);
    case Request(uid, pdu) =>
      match Probe(s.pending, s.nextTid, IDS)
      case None =>
        MoreProbes(s);
        MoveKeepsRegistered(s.(probes := s.probes + IDS), c, Raised);
      case Some(k) =>
        GrantRegisters(s, c, k);
        GrantMoves(s, c, k);
        PopKeepsRegistered(Grant(s, c, k), c, Raised);
        var frame := Mbap.EncodeFrame(IdAt(s.nextTid, k), uid, pdu);
        if frame.Ok? {
          WroteKeepsRegistered(Grant(s, c, k), c, frame.value);
        }
  }

  lemma MoreProbes(s: State)
    requires RegisteredInv(s)
    ensures RegisteredInv(s.(probes := s.probes + IDS))
  {
    hide Tid;
  }

  lemma GrantMoves(s: State, c: nat, k: nat)
    requires c in s.calls
    ensures var t := Grant(s, c, k);
            && t.calls.Keys == s.calls.Keys && t.writer == s.writer && t.connected == s.connected && t.closed == s.closed
            && t.calls[c].phase == s.calls[c].phase && t.calls[c].future == s.calls[c].future && t.calls[c].kind == s.calls[c].kind
            && forall d :: d in s.calls && d != c ==> t.calls[d] == s.calls[d]
  {}

  /** The registration survives what leaves the phases and the table alone. */
  lemma SameRegistered(s: State, t: State)
    requires RegisteredInv(s) && t.pending == s.pending && t.calls.Keys == s.calls.Keys
    requires forall c :: c in s.calls ==> Stands(s.calls[c], t.calls[c])
    requires forall c :: c in s.calls && t.calls[c].future.Unresolved? ==> s.calls[c].future.Unresolved?
    ensures RegisteredInv(t)
  {
    forall d | d in t.calls && InFlight(t.calls[d].phase) && t.calls[d].future.Unresolved?
      ensures Registered(t, d)
    {
      assert Registered(s, d);
      SameTid(s.calls[d], t.calls[d]);
      hide Tid;
    }
  }

  lemma EndsAlone(s: State, c: nat, p: Phase)
    requires GrantInv(s) && Prompt(s) && RegisteredInv(s) && c in s.calls && InFlight(s.calls[c].phase) && !InFlight(p)
    ensures RegisteredInv(EndPop(s, c, p))
  {
    hide Tid, GrantInv, Prompt, RegisteredInv, EndPop;
    forall d | d in s.calls && d != c && InFlight(s.calls[d].phase) && s.calls[d].future.Unresolved?
      ensures Tid(s.calls[d]) != Tid(s.calls[c])
    {
      IdsDiffer(s, c, d);
    }
    PopKeepsRegistered(s, c, p);
  }

  lemma StepKeepsRegistered(s: State, a: Action)
    requires Inv(s) && Prompt(s) && RegisteredInv(s) && Enabled(s, a)
    ensures RegisteredInv(Next(s, a))
  {
    hide Transmit, End, EndPop, Goto, Mbap.DecodeFrame, FailPending, RegisteredInv, Prompt, Inv, GrantInv, FieldInv, Tid;
    InvParts(s);
    match a
    case Start(c, _) => StartKeepsRegistered(s, a);
    case Enter(_) => ConnectingKeepsRegistered(s, a);
    case Lock(_) => ConnectingKeepsRegistered(s, a);
    case OpenOk(_) => ConnectingKeepsRegistered(s, a);
    case OpenFail(_) => ConnectingKeepsRegistered(s, a);
    case Drained(c) => MoveKeepsRegistered(s, c, Waiting);
    case DrainFail(c) => EndsAlone(s, c, Raised);
    case Timeout(c) => TimeoutKeepsRegistered(s, c);
    case Resume(c) =>
      EndsAlone(s, c, match s.calls[c].future case Reply(pdu, origin) => Returned(pdu, origin) case _ => Raised);
    case Receive(_, _) => ReceiveKeepsRegistered(s, a);
    case TeardownEnd => FailedRegistered(s);
    case _ => SameRegistered(s, Next(s, a));
  }

  lemma ReceiveKeepsRegistered(s: State, a: Action)
    requires RegisteredInv(s) && a.Receive?
    ensures RegisteredInv(Next(s, a))
  {
    hide Mbap.DecodeFrame, RegisteredInv;
    SameRegistered(s, Next(s, a));
  }

  lemma ConnectingKeepsRegistered(s: State, a: Action)
    requires FieldInv(s) && RegisteredInv(s) && Enabled(s, a) && (a.Enter? || a.Lock? || a.OpenOk? || a.OpenFail?)
    ensures RegisteredInv(Next(s, a))
  {
    hide Transmit, End, Goto, RegisteredInv, Tid;
    match a
    case Enter(c) =>
      var t := if !s.pipeline && s.calls[c].kind.Request? then s.(serial := Some(c)) else s;
      SameRegistered(s, t);
      TransmitKeepsRegistered(t, c);
      MoveKeepsRegistered(t, c, NeedsConnection);
    case Lock(c) =>
      TransmitKeepsRegistered(s, c);
      MoveKeepsRegistered(s, c, Raised);
      MoveKeepsRegistered(s, c, Opening);
      SameRegistered(Goto(s, c, Opening), Goto(s, c, Opening).(opener := Some(c)));
    case OpenOk(c) =>
      var t := s.(connected := true, writer := true, opener := None);
      SameRegistered(s, t);
      TransmitKeepsRegistered(t, c);
    case OpenFail(c) =>
      SameRegistered(s, s.(opener := None));
      MoveKeepsRegistered(s.(opener := None), c, Raised);
  }

  lemma InvParts(s: State)
    requires Inv(s)
    ensures FieldInv(s) && GrantInv(s)
  {}

  lemma StartKeepsRegistered(s: State, a: Action)
    requires RegisteredInv(s) && Enabled(s, a) && a.Start?
    ensures RegisteredInv(Next(s, a))
  {
    hide Tid;
    assert forall d :: d in s.calls && Registered(s, d) ==> Registered(Next(s, a), d);
  }

  lemma TimeoutKeepsRegistered(s: State, c: nat)
    requires Inv(s) && Prompt(s) && RegisteredInv(s) && Enabled(s, Timeout(c))
    ensures RegisteredInv(Next(s, Timeout(c)))
  {
    hide Inv, Prompt, RegisteredInv, Tid, GrantInv, FieldInv, EndPop;
    var f := s.calls[c].future;
    var t := s.(calls := s.calls[c := s.calls[c].(future := if f.Unresolved? then Cancelled else f)]);
    FutureKeepsInv(s, c, if f.Unresolved? then Cancelled else f);
    StaysPrompt(s, t);
    SameRegistered(s, t);
    InvParts(t);
    EndsAlone(t, c, Raised);
  }

  lemma StaysPrompt(s: State, t: State)
    requires Prompt(s) && t.probes == s.probes && t.calls.Keys == s.calls.Keys
    requires forall c :: c in s.calls ==> Stands(s.calls[c], t.calls[c])
    ensures Prompt(t)
  {
    assert forall c :: Granted(t, c) ==> Granted(s, c);
  }

  lemma FailedRegistered(s: State)
    requires RegisteredInv(s)
    ensures RegisteredInv(s.(calls := FailPending(s), pending := map[]))
  {
    hide Tid;
    var t := s.(calls := FailPending(s), pending := map[]);
    forall c | c in s.calls && InFlight(s.calls[c].phase) && s.calls[c].future.Unresolved?
      ensures !t.calls[c].future.Unresolved?
    {
      assert Registered(s, c);
    }
  }

  /** In a run in which no call stays in flight for 65536 further probes, every call in flight
      whose future is open is in the table under its own id. */
  lemma {:induction false} PromptCallsAreRegistered(pipeline: bool, ss: seq<State>, acts: seq<Action>, i: nat)
    requires Run(pipeline, ss, acts) && i < |ss| && forall j :: 0 <= j < i ==> Prompt(ss[j])
    ensures forall c :: c in ss[i].calls && InFlight(ss[i].calls[c].phase) && ss[i].calls[c].future.Unresolved? ==> Registered(ss[i], c)
    decreases i
  {
    if i > 0 {
      PromptCallsAreRegistered(pipeline, ss, acts, i - 1);
      assert RegisteredInv(ss[i - 1]);
      hide Next, Enabled, RegisteredInv, Inv, SentInv, Prompt;
      RunKeepsInv(pipeline, ss, acts, i - 1);
      StepKeepsRegistered(ss[i - 1], acts[i - 1]);
      IsRegistered(ss[i]);
    }
  }

  lemma IsRegistered(s: State)
    requires RegisteredInv(s)
    ensures forall c :: c in s.calls && InFlight(s.calls[c].phase) && s.calls[c].future.Unresolved? ==> Registered(s, c)
  {}

  // ---------- a reply that arrives is returned ----------

  /** A frame arrives that carries the id of a request in flight. If the table has the call under
      that id, its future holds the reply, waiting calls can go on, and the call returns exactly
      the PDU of that frame when it resumes, whatever happened in between; if not, the frame does
      nothing for the call. In a prompt run the table always has it. */
  lemma ReplyReturned(pipeline: bool, ss: seq<State>, acts: seq<Action>, j: nat, c: nat)
    requires Run(pipeline, ss, acts) && j < |acts| && acts[j].Receive?
    requires c in ss[j].calls && InFlight(ss[j].calls[c].phase) && ss[j].calls[c].future.Unresolved?
    requires Echoes(ss[j].calls[c].sent, acts[j].frame)
    ensures !Registered(ss[j], c) ==> c in ss[j + 1].calls && ss[j + 1].calls[c] == ss[j].calls[c]
    ensures Registered(ss[j], c) ==> forall k :: j < k < |ss| && InPhase(ss[k], c, Waiting) ==> Enabled(ss[k], Resume(c))
    ensures Registered(ss[j], c) ==> forall k :: j < k < |acts| && acts[k] == Resume(c) ==>
              InPhase(ss[k + 1], c, Returned(Mbap.DecodeFrame(acts[j].frame).value.pdu, acts[j].origin))
    ensures (forall i :: 0 <= i < j ==> Prompt(ss[i])) ==> Registered(ss[j], c)
  {
    RunKeepsInv(pipeline, ss, acts, j);
    if forall i :: 0 <= i < j ==> Prompt(ss[i]) {
      PromptCallsAreRegistered(pipeline, ss, acts, j);
    }
    OwnId(ss[j], c, acts[j].frame);
    Delivered(ss[j], acts[j], c);
    hide Mbap.DecodeFrame, Echoes, Inv, SentInv, Prompt, Registered, InFlight, Next, Enabled;
    if Registered(ss[j], c) {
      forall k | j < k < |ss|
        ensures InPhase(ss[k], c, Waiting) ==> Enabled(ss[k], Resume(c))
        ensures k < |acts| && acts[k] == Resume(c) ==>
                  InPhase(ss[k + 1], c, Returned(Mbap.DecodeFrame(acts[j].frame).value.pdu, acts[j].origin))
      {
        ResolvedOnceInRun(pipeline, ss, acts, j + 1, k, c);
        Resumes(ss[k], c);
      }
    }
  }

  lemma OwnId(s: State, c: nat, frame: seq<byte>)
    requires SentInv(s) && c in s.calls && Echoes(s.calls[c].sent, frame)
    ensures Mbap.DecodeFrame(frame).Ok? && Mbap.DecodeFrame(frame).value.tid == Tid(s.calls[c])
  {
    assert SentOk(s.calls[c]);
    EchoHasTid(s.calls[c], frame);
  }

  lemma Delivered(s: State, a: Action, c: nat)
    requires a.Receive? && c in s.calls && s.calls[c].future.Unresolved?
    requires Mbap.DecodeFrame(a.frame).Ok? && Mbap.DecodeFrame(a.frame).value.tid == Tid(s.calls[c])
    ensures c in Next(s, a).calls
    ensures Next(s, a).calls[c] == if Registered(s, c) then s.calls[c].(future := Reply(Mbap.DecodeFrame(a.frame).value.pdu, a.origin)) else s.calls[c]
  {
    hide Mbap.DecodeFrame, Tid;
  }

  lemma Resumes(s: State, c: nat)
    requires c in s.calls && s.calls[c].future.Reply?
    ensures Enabled(s, Resume(c)) <==> InPhase(s, c, Waiting)
    ensures Enabled(s, Resume(c)) ==> InPhase(Next(s, Resume(c)), c, Returned(s.calls[c].future.pdu, s.calls[c].future.origin))
  {
    hide Tid;
  }

  // ---------- teardown ----------

  /** A teardown fails whoever it finds registered and empties the table; in a prompt run that is
      everybody, so every waiting call can go on at once. */
  lemma TeardownStrandsNobody(pipeline: bool, ss: seq<State>, acts: seq<Action>, i: nat, c: nat)
    requires Run(pipeline, ss, acts) && i < |acts| && acts[i].TeardownEnd? && c in ss[i].calls
    ensures ss[i + 1].pending == map[] && c in ss[i + 1].calls
    ensures Registered(ss[i], c) && ss[i].calls[c].future.Unresolved? ==> ss[i + 1].calls[c] == ss[i].calls[c].(future := Failed)
    ensures (forall j :: 0 <= j < i ==> Prompt(ss[j])) && InPhase(ss[i + 1], c, Waiting) ==> Enabled(ss[i + 1], Resume(c))
  {
    RunKeepsLife(pipeline, ss, acts, i + 1);
    if forall j :: 0 <= j < i ==> Prompt(ss[j]) {
      PromptCallsAreRegistered(pipeline, ss, acts, i);
    }
    hide Prompt, Tid;
    assert LifeOk(ss[i + 1].calls[c]);
    assert Registered(ss[i], c) ==> c in ss[i].pending.Values;
  }

  // ---------- close() ----------

  /** The transport is closed exactly if close() has begun. */
  lemma {:induction false} ClosedIffCloseBegan(pipeline: bool, ss: seq<State>, acts: seq<Action>, i: nat)
    requires Run(pipeline, ss, acts) && i < |ss|
    ensures ss[i].closed <==> exists k :: 0 <= k < i && acts[k].CloseFlag?
    decreases i
  {
    if i > 0 {
      hide Next, Enabled;
      ClosedIffCloseBegan(pipeline, ss, acts, i - 1);
      FlagsStep(ss[i - 1], acts[i - 1]);
      assert ss[i].closed <==> ss[i - 1].closed || acts[i - 1].CloseFlag?;
      hide Run;
    }
  }

  /** What each step makes of the flags. */
  lemma FlagsStep(s: State, a: Action)
    requires Enabled(s, a)
    ensures Next(s, a).closed <==> s.closed || a.CloseFlag?
    ensures Next(s, a).connected <==> a.OpenOk? || (s.connected && !a.TeardownBegin?)
  {
    hide Transmit, Mbap.DecodeFrame, FailPending, Tid;
    match a
    case Enter(d) => Writing(if !s.pipeline && s.calls[d].kind.Request? then s.(serial := Some(d)) else s, d, d);
    case Lock(d) => Writing(s, d, d);
    case OpenOk(d) => Writing(s.(connected := true, writer := true, opener := None), d, d);
    case _ =>
  }

  /** It is connected exactly if no teardown has begun since a connection was last opened. */
  lemma {:induction false} ConnectedIffOpenedLast(pipeline: bool, ss: seq<State>, acts: seq<Action>, i: nat)
    requires Run(pipeline, ss, acts) && i < |ss|
    ensures ss[i].connected <==> exists k :: 0 <= k < i && acts[k].OpenOk? && forall j :: k < j < i ==> !acts[j].TeardownBegin?
    decreases i
  {
    if i > 0 {
      hide Next, Enabled;
      ConnectedIffOpenedLast(pipeline, ss, acts, i - 1);
      FlagsStep(ss[i - 1], acts[i - 1]);
      if ss[i].connected && !acts[i - 1].OpenOk? {
        var k :| 0 <= k < i - 1 && acts[k].OpenOk? && forall j :: k < j < i - 1 ==> !acts[j].TeardownBegin?;
        assert forall j :: k < j < i ==> !acts[j].TeardownBegin?;
      } else if k :| 0 <= k < i && acts[k].OpenOk? && forall j :: k < j < i ==> !acts[j].TeardownBegin? {
        assert k < i - 1 ==> !acts[i - 1].TeardownBegin?;
      }
    }
  }

  /** A call is refused on entry exactly if close() has begun; otherwise it is queued. */
  lemma RefusedIffClosed(pipeline: bool, ss: seq<State>, acts: seq<Action>, i: nat)
    requires Run(pipeline, ss, acts) && i < |acts| && acts[i].Start?
    ensures ss[i + 1].calls == ss[i].calls[acts[i].c := ss[i + 1].calls[acts[i].c]]
    ensures ss[i + 1].calls[acts[i].c].kind == acts[i].kind
    ensures ss[i + 1].calls[acts[i].c].phase == if exists k :: 0 <= k < i && acts[k].CloseFlag? then Raised else Queued
  {
    ClosedIffCloseBegan(pipeline, ss, acts, i);
  }

  /** Once closed, always closed: later requests are refused, and no call that was not already
      opening a connection begins to. */
  lemma {:induction false} CloseRefuses(pipeline: bool, ss: seq<State>, acts: seq<Action>, i: nat, j: nat, c: nat)
    requires Run(pipeline, ss, acts) && i <= j < |ss| && ss[i].closed
    ensures ss[j].closed
    ensures c !in ss[i].calls && c in ss[j].calls ==> ss[j].calls[c].phase.Raised?
    ensures InPhase(ss[j], c, Opening) ==> InPhase(ss[i], c, Opening)
    decreases j
  {
    hide Next, Enabled;
    if i < j {
      CloseRefuses(pipeline, ss, acts, i, j - 1, c);
      ClosedStep(ss[j - 1], acts[j - 1], c);
    }
  }

  lemma ClosedStep(s: State, a: Action, c: nat)
    requires s.closed && Enabled(s, a)
    ensures Next(s, a).closed
    ensures InPhase(Next(s, a), c, Opening) ==> InPhase(s, c, Opening)
    ensures c !in s.calls && c in Next(s, a).calls ==> Next(s, a).calls[c].phase.Raised?
    ensures c in s.calls && s.calls[c].phase.Raised? ==> c in Next(s, a).calls && Next(s, a).calls[c].phase.Raised?
  {
    hide Transmit, FailPending, Mbap.DecodeFrame, Tid;
    match a
    case Enter(_) => ClosedWriting(s, a, c);
    case Lock(_) => ClosedWriting(s, a, c);
    case OpenOk(_) => ClosedWriting(s, a, c);
    case TeardownEnd => FailsKeepPhases(s);
    case _ =>
  }

  lemma ClosedWriting(s: State, a: Action, c: nat)
    requires s.closed && Enabled(s, a) && (a.Enter? || a.Lock? || a.OpenOk?)
    ensures Next(s, a).closed && Next(s, a).calls.Keys == s.calls.Keys
    ensures InPhase(Next(s, a), c, Opening) ==> InPhase(s, c, Opening)
    ensures c in s.calls && s.calls[c].phase.Raised? ==> Next(s, a).calls[c].phase.Raised?
  {
    hide Transmit;
    match a
    case Enter(d) => Writing(if !s.pipeline && s.calls[d].kind.Request? then s.(serial := Some(d)) else s, d, c);
    case Lock(d) => Writing(s, d, c);
    case OpenOk(d) => Writing(s.(connected := true, writer := true, opener := None), d, c);
  }

  lemma FailsKeepPhases(s: State)
    ensures FailPending(s).Keys == s.calls.Keys && forall d :: d in s.calls ==> FailPending(s)[d].phase == s.calls[d].phase
  {}

  /** A call that goes on to write leaves the others and the connection alone. */
  lemma Writing(s: State, d: nat, c: nat)
    requires d in s.calls
    ensures var t := Transmit(s, d);
            && t.closed == s.closed && t.connected == s.connected && t.calls.Keys == s.calls.Keys
            && (c in s.calls && c != d ==> t.calls[c] == s.calls[c])
            && (t.calls[d].phase.Draining? || t.calls[d].phase.Raised? || t.calls[d].phase.Finished?)
  {
    hide Probe, Mbap.EncodeFrame, IdAt, Successor, Tid, Goto, End, EndPop, Grant;
    match s.calls[d].kind
    case ConnectOnly => Moved(s, d, Finished, c);
    case Request(uid, pdu) =>
      match Probe(s.pending, s.nextTid, IDS)
      case None => Moved(s.(probes := s.probes + IDS), d, Raised, c);
      case Some(k) =>
        GrantMoves(s, d, k);
        Moved(Grant(s, d, k), d, Raised, c);
        var frame := Mbap.EncodeFrame(IdAt(s.nextTid, k), uid, pdu);
        if frame.Ok? {
          Moved(Wrote(Grant(s, d, k), d, frame.value), d, Draining, c);
        }
  }

  predicate MovedTo(s: State, t: State, d: nat, p: Phase, c: nat)
  {
    && t.closed == s.closed && t.connected == s.connected && t.calls.Keys == s.calls.Keys
    && (c in s.calls && c != d ==> t.calls[c] == s.calls[c])
    && d in t.calls && t.calls[d].phase == p
  }

  lemma Moved(s: State, d: nat, p: Phase, c: nat)
    requires d in s.calls
    ensures MovedTo(s, Goto(s, d, p), d, p, c) && MovedTo(s, End(s, d, p), d, p, c) && MovedTo(s, EndPop(s, d, p), d, p, c)
  {
    hide Tid;
  }

  lemma {:induction false} StaysDown(s: State, acts: seq<Action>)
    requires s.closed && !s.connected && (forall c: nat :: !InPhase(s, c, Opening)) && After(s, acts).Some?
    ensures !After(s, acts).value.connected
    decreases |acts|
  {
    hide Next, Enabled;
    if acts != [] {
      DownStep(s, acts[0]);
      StaysDown(Next(s, acts[0]), acts[1..]);
    }
  }

  lemma DownStep(s: State, a: Action)
    requires s.closed && !s.connected && (forall c: nat :: !InPhase(s, c, Opening)) && Enabled(s, a)
    ensures var t := Next(s, a); t.closed && !t.connected && forall c: nat :: !InPhase(t, c, Opening)
  {
    forall c: nat
      ensures !InPhase(Next(s, a), c, Opening)
    {
      ClosedStep(s, a, c);
    }
    ClosedStep(s, a, 0);
    hide Transmit, FailPending, Mbap.DecodeFrame, Tid;
  }

  /** A transport that is closed and disconnected can be connected again exactly if a call was
      opening a connection: close() does not wait for it. */
  lemma ReconnectsIffOpening(s: State)
    requires s.closed && !s.connected
    ensures (exists acts :: After(s, acts).Some? && After(s, acts).value.connected) <==> (exists c: nat :: InPhase(s, c, Opening))
  {
    if exists c: nat :: InPhase(s, c, Opening) {
      var c: nat :| InPhase(s, c, Opening);
      AfterOne(s, OpenOk(c));
      OpensConnected(s, c);
      assert After(s, [OpenOk(c)]).Some?;
    } else {
      forall acts | After(s, acts).Some?
        ensures !After(s, acts).value.connected
      {
        StaysDown(s, acts);
      }
    }
  }

  lemma OpensConnected(s: State, c: nat)
    requires InPhase(s, c, Opening)
    ensures Enabled(s, OpenOk(c)) && Next(s, OpenOk(c)).connected
  {
    hide Transmit;
    Writing(s.(connected := true, writer := true, opener := None), c, c);
  }

  // ---------- a request can always be served ----------

  predicate Fits(uid: int, pdu: seq<byte>) { Mbap.EncodeFrame(0, uid, pdu).Ok? }

  lemma FitsAnyId(tid: nat, uid: int, pdu: seq<byte>)
    requires Fits(uid, pdu) && tid < IDS
    ensures Mbap.EncodeFrame(tid, uid, pdu).Ok?
    ensures Mbap.DecodeFrame(Mbap.EncodeFrame(tid, uid, pdu).value) == Ok(Message(tid, uid as byte, pdu))
  {
    EncodeDecode(tid, uid, pdu);
  }

  /** The request has been written under a fresh id, is registered, and nobody has answered yet. */
  ghost predicate Sent(s: State, c: nat, uid: int, pdu: seq<byte>)
  {
    && InPhase(s, c, Draining) && Registered(s, c) && s.calls[c].future.Unresolved?
    && s.calls[c].grant == Some(s.probes - 1) && Tid(s.calls[c]) < IDS
    && Mbap.EncodeFrame(Tid(s.calls[c]), uid, pdu) == Ok(s.calls[c].sent)
  }

  lemma TransmitServes(s: State, c: nat, uid: int, pdu: seq<byte>, free: nat)
    requires FieldInv(s) && s.connected && c in s.calls && s.calls[c].kind == Request(uid, pdu) && Fits(uid, pdu)
    requires s.calls[c].future.Unresolved? && free < IDS && free !in s.pending
    ensures Sent(Transmit(s, c), c, uid, pdu)
  {
    hide *;
    FreeIdFound(s, free);
    var k := Probe(s.pending, s.nextTid, IDS).value;
    IdInRange(s.nextTid, k);
    FitsAnyId(IdAt(s.nextTid, k), uid, pdu);
    Granting(s, c, k);
    var frame := Mbap.EncodeFrame(IdAt(s.nextTid, k), uid, pdu).value;
    TransmitIs(s, c, uid, pdu, k, frame);
    WrittenIsSent(Grant(s, c, k), c, uid, pdu, frame);
  }

  lemma FreeIdFound(s: State, free: nat)
    requires FieldInv(s) && free < IDS && free !in s.pending
    ensures Probe(s.pending, s.nextTid, IDS).Some? && s.connected == s.writer
  {
    hide Probe;
    AllocatorExact(s.pending, s.nextTid);
  }

  lemma IdInRange(next: nat, k: nat)
    ensures IdAt(next, k) < IDS
  {}

  lemma TransmitIs(s: State, c: nat, uid: int, pdu: seq<byte>, k: nat, frame: seq<byte>)
    requires c in s.calls && s.calls[c].kind == Request(uid, pdu) && s.writer && Probe(s.pending, s.nextTid, IDS) == Some(k)
    requires Mbap.EncodeFrame(IdAt(s.nextTid, k), uid, pdu) == Ok(frame)
    ensures Transmit(s, c) == Goto(Wrote(Grant(s, c, k), c, frame), c, Draining)
  {
    GrantMoves(s, c, k);
    hide Probe, Mbap.EncodeFrame, IdAt, Grant, Goto, Wrote, EndPop, End;
  }

  lemma Granting(s: State, c: nat, k: nat)
    requires FieldInv(s) && c in s.calls
    ensures var t := Grant(s, c, k);
            && Registered(t, c) && Tid(t.calls[c]) == IdAt(s.nextTid, k)
            && t.probes == s.probes + k + 1 && t.calls[c].grant == Some(s.probes + k)
            && t.calls[c].future == s.calls[c].future
  {
    GrantedTid(s, c, k);
    hide IdAt, Tid;
  }

  lemma WrittenIsSent(t: State, c: nat, uid: int, pdu: seq<byte>, frame: seq<byte>)
    requires Registered(t, c) && t.calls[c].future.Unresolved? && t.probes > 0 && t.calls[c].grant == Some(t.probes - 1)
    requires Mbap.EncodeFrame(Tid(t.calls[c]), uid, pdu) == Ok(frame)
    ensures Sent(Goto(Wrote(t, c, frame), c, Draining), c, uid, pdu)
  {
    SameTid(t.calls[c], Goto(Wrote(t, c, frame), c, Draining).calls[c]);
    hide Mbap.EncodeFrame;
  }

  predicate Silent(acts: seq<Action>) { forall k :: 0 <= k < |acts| ==> !acts[k].Receive? }

  /** One more step of a continuation that hears nothing. */
  lemma Further(s: State, acts: seq<Action>, t: State, a: Action) returns (more: seq<Action>, u: State)
    requires After(s, acts) == Some(t) && Silent(acts) && Enabled(t, a) && !a.Receive? && Sound(t)
    ensures more == acts + [a] && u == Next(t, a) && After(s, more) == Some(u) && Silent(more) && Sound(u)
  {
    hide Next, Enabled, Sound, After;
    AfterOne(t, a);
    AfterThen(s, acts, t, [a]);
    AfterKeepsSound(t, [a]);
    more, u := acts + [a], Next(t, a);
  }

  lemma UnaidedIsSilent(acts: seq<Action>)
    requires Unaided(acts)
    ensures Silent(acts)
  {}

  /** An undisturbed call gets its connection. */
  lemma Connects(s: State, acts: seq<Action>, t: State, c: nat) returns (more: seq<Action>, u: State)
    requires After(s, acts) == Some(t) && Silent(acts) && Sound(t) && InPhase(t, c, NeedsConnection) && !t.connected && !t.closed
    ensures After(s, more) == Some(u) && Silent(more) && |more| <= |acts| + 2 && Sound(u)
    ensures c in u.calls && u.calls[c] == t.calls[c].(phase := Opening) && u.pending.Keys <= t.pending.Keys
  {
    hide Next, Enabled, Sound, After, Retired;
    var free, v := FreeOpener(t);
    OpenerIsOther(t, v, c);
    AfterThen(s, acts, t, free);
    AfterKeepsSound(t, free);
    UnaidedIsSilent(free);
    LockOutcome(v, c);
    more, u := Further(s, acts + free, v, Lock(c));
  }

  lemma OpenerIsOther(t: State, v: State, c: nat)
    requires Sound(t) && InPhase(t, c, NeedsConnection)
    requires if t.opener.Some? then Retired(t, v, t.opener.value) && InPhase(t, t.opener.value, Opening) else v == t
    ensures c in v.calls && v.calls[c] == t.calls[c] && v.pending.Keys <= t.pending.Keys
    ensures v.connected == t.connected && v.closed == t.closed
  {
    hide Sound;
  }

  /** From the serial lock to the written request. */
  lemma Writes(s: State, acts: seq<Action>, t: State, c: nat, uid: int, pdu: seq<byte>, free: nat) returns (more: seq<Action>, u: State)
    requires After(s, acts) == Some(t) && Silent(acts) && Sound(t) && InPhase(t, c, Queued) && Enabled(t, Enter(c)) && !t.closed
    requires t.calls[c].kind == Request(uid, pdu) && Fits(uid, pdu) && t.calls[c].future.Unresolved?
    requires free < IDS && free !in t.pending
    ensures After(s, more) == Some(u) && Silent(more) && |more| <= |acts| + 4 && Sound(u) && Sent(u, c, uid, pdu)
  {
    hide Next, Enabled, Sound, After, Sent, Transmit, Fits;
    EnterOutcome(t, c);
    SoundFacts(t, c);
    more, u := Further(s, acts, t, Enter(c));
    if t.connected {
      TransmitServes(if !t.pipeline then t.(serial := Some(c)) else t, c, uid, pdu, free);
    } else {
      more, u := Connects(s, more, u, c);
      SoundFacts(u, c);
      TransmitServes(u.(connected := true, writer := true, opener := None), c, uid, pdu, free);
      OpenOutcome(u, c);
      more, u := Further(s, more, u, OpenOk(c));
    }
  }

  lemma OpenOutcome(s: State, c: nat)
    requires InPhase(s, c, Opening)
    ensures Enabled(s, OpenOk(c)) && Next(s, OpenOk(c)) == Transmit(s.(connected := true, writer := true, opener := None), c)
  {
    hide Transmit;
  }

  /** A written request is answered and returns. */
  lemma Answered(s: State, c: nat, uid: int, pdu: seq<byte>, reply: seq<byte>) returns (t: State, frame: seq<byte>, u: State)
    requires Sent(s, c, uid, pdu) && Fits(uid, pdu) && Fits(uid, reply)
    ensures Enabled(s, Drained(c)) && t == Next(s, Drained(c))
    ensures Timely(t, Receive(frame, c)) && Mbap.DecodeFrame(frame).Ok? && Mbap.DecodeFrame(frame).value.pdu == reply
    ensures c in t.calls && Echoes(t.calls[c].sent, frame)
    ensures After(t, [Receive(frame, c), Resume(c)]) == Some(u) && InPhase(u, c, Returned(reply, c))
  {
    var tid := Tid(s.calls[c]);
    FitsAnyId(tid, uid, pdu);
    FitsAnyId(tid, uid, reply);
    frame := Mbap.EncodeFrame(tid, uid, reply).value;
    t := Drains(s, c);
    hide Mbap.EncodeFrame, Mbap.DecodeFrame, Tid, Fits, Sent, Registered;
    var a := Receive(frame, c);
    Delivered(t, a, c);
    var v := Next(t, a);
    u := Replied(v, c);
    assert Enabled(t, a);
    hide Next, Enabled;
    assert [a, Resume(c)][1..] == [Resume(c)];
    AfterOne(v, Resume(c));
  }

  lemma Drains(s: State, c: nat) returns (t: State)
    requires InPhase(s, c, Draining)
    ensures Enabled(s, Drained(c)) && t == Next(s, Drained(c)) && InPhase(t, c, Waiting)
    ensures t.calls[c] == s.calls[c].(phase := Waiting) && Tid(t.calls[c]) == Tid(s.calls[c])
    ensures t.probes == s.probes && t.pending == s.pending
    ensures Registered(s, c) ==> Registered(t, c)
  {
    t := Next(s, Drained(c));
    SameTid(s.calls[c], t.calls[c]);
    hide Tid;
  }

  lemma Replied(v: State, c: nat) returns (u: State)
    requires InPhase(v, c, Waiting) && v.calls[c].future.Reply?
    ensures Enabled(v, Resume(c)) && u == Next(v, Resume(c))
    ensures InPhase(u, c, Returned(v.calls[c].future.pdu, v.calls[c].future.origin))
  {
    Resumes(v, c);
    u := Next(v, Resume(c));
  }

  /** Every queued request that fits a frame can be served, whatever the others are doing: while
      the transport is not closed and an id is free, some continuation writes it, and then the
      peer's reply to it, sent in time, is what the call returns. */
  lemma RequestCanBeServed(pipeline: bool, ss: seq<State>, acts: seq<Action>, i: nat, c: nat, reply: seq<byte>, free: nat)
      returns (pre: seq<Action>, t: State, frame: seq<byte>, u: State)
    requires Run(pipeline, ss, acts) && i < |ss| && InPhase(ss[i], c, Queued) && ss[i].calls[c].kind.Request? && !ss[i].closed
    requires Fits(ss[i].calls[c].kind.uid, ss[i].calls[c].kind.pdu) && Fits(ss[i].calls[c].kind.uid, reply)
    requires free < IDS && free !in ss[i].pending
    ensures After(ss[i], pre) == Some(t) && Silent(pre) && |pre| <= 8
    ensures Timely(t, Receive(frame, c)) && Mbap.DecodeFrame(frame).Ok? && Mbap.DecodeFrame(frame).value.pdu == reply
    ensures c in t.calls && Echoes(t.calls[c].sent, frame)
    ensures After(t, [Receive(frame, c), Resume(c)]) == Some(u) && InPhase(u, c, Returned(reply, c))
  {
    RunKeepsInv(pipeline, ss, acts, i);
    RunKeepsLocks(pipeline, ss, acts, i);
    RunKeepsLife(pipeline, ss, acts, i);
    assert LifeOk(ss[i].calls[c]);
    var uid, pdu := ss[i].calls[c].kind.uid, ss[i].calls[c].kind.pdu;
    hide Next, Enabled, Inv, LockInv, After, Fits, Sent, LifeInv, Run, SentInv, Timely, Echoes, Mbap.DecodeFrame;
    pre, t := FreeSerial(ss[i], c);
    AfterKeepsSound(ss[i], pre);
    UnaidedIsSilent(pre);
    pre, t := Writes(ss[i], pre, t, c, uid, pdu, free);
    var v;
    v, frame, u := Answered(t, c, uid, pdu, reply);
    pre, t := Further(ss[i], pre, t, Drained(c));
  }

  /** So can every queued connect(): it returns with the transport connected. */
  lemma ConnectCanReturn(pipeline: bool, ss: seq<State>, acts: seq<Action>, i: nat, c: nat) returns (more: seq<Action>, t: State)
    requires Run(pipeline, ss, acts) && i < |ss| && InPhase(ss[i], c, Queued) && ss[i].calls[c].kind.ConnectOnly? && !ss[i].closed
    ensures After(ss[i], more) == Some(t) && |more| <= 4 && InPhase(t, c, Finished) && t.connected
  {
    RunKeepsInv(pipeline, ss, acts, i);
    RunKeepsLocks(pipeline, ss, acts, i);
    var s := ss[i];
    assert Enabled(s, Enter(c));
    EnterOutcome(s, c);
    OnlyConnects(s, c);
    hide Next, Enabled, Inv, LockInv, After, Run, SentInv, Transmit;
    more, t := Further(s, [], s, Enter(c));
    if !s.connected {
      more, t := Connects(s, more, t, c);
      OpenOutcome(t, c);
      OnlyConnects(t.(connected := true, writer := true, opener := None), c);
      more, t := Further(s, more, t, OpenOk(c));
    }
  }

  lemma OnlyConnects(s: State, c: nat)
    requires c in s.calls && s.calls[c].kind.ConnectOnly?
    ensures InPhase(Transmit(s, c), c, Finished) && Transmit(s, c).connected == s.connected
  {}

  // ---------- why promptness is needed ----------

  /** Call 0 was failed by a teardown and has not noticed yet: it still drains. */
  predicate Stale(s: State)
  {
    InPhase(s, 0, Draining) && s.calls[0].future.Failed?
  }

  /** The teardown has gone by; nothing is connected. */
  predicate Down(s: State)
  {
    && Stale(s) && Granted(s, 0) && s.calls[0].grant.value == 0 && s.calls[0].sent == SampleFrame(0)
    && s.pipeline && !s.connected && !s.writer && !s.closed && s.opener.None?
    && s.pending == map[] && s.probes == 1 && s.nextTid == 1
    && (forall i :: 1 <= i <= IDS ==> i !in s.calls)
  }

  lemma TeardownPasses(s: State)
    requires TcpTransport.Asked(s, 0)
    ensures Down(Next(Next(s, TeardownBegin), TeardownEnd))
  {
    hide Mbap.EncodeFrame;
    var t := Next(s, TeardownBegin);
    assert t.pending[0] == 0;
  }

  lemma Reconnecting(s: State) returns (t: State, u: State, v: State, w: State)
    requires Down(s)
    ensures Enabled(s, Start(1, SAMPLE)) && t == Next(s, Start(1, SAMPLE))
    ensures Enabled(t, Enter(1)) && u == Next(t, Enter(1))
    ensures Enabled(u, Lock(1)) && v == Next(u, Lock(1))
    ensures Enabled(v, OpenOk(1)) && w == Next(v, OpenOk(1)) && TcpTransport.Asked(w, 1) && Stale(w)
  {
    t := Next(s, Start(1, SAMPLE));
    u := Next(t, Enter(1));
    v := Next(u, Lock(1));
    w := Next(v, OpenOk(1));
    WritesFirst(v.(connected := true, writer := true, opener := None));
  }

  lemma WritesFirst(x: State)
    requires InPhase(x, 1, Opening) && x.calls[1] == Call(SAMPLE, Opening, Unresolved, None, []) && x.writer
    requires x.pending == map[] && x.nextTid == 1 && x.probes == 1
    ensures Transmit(x, 1) == Goto(Wrote(Grant(x, 1, 0), 1, SampleFrame(1)), 1, Draining)
  {
    assert Probe(x.pending, x.nextTid, IDS) == Some(0);
    assert IdAt(1, 0) == 1;
    hide Probe, IdAt;
  }

  /** The last call's reply arrives, in time and under its id, after call 0 has popped that id. */
  lemma PoppedByAnother(s: State, frame: seq<byte>) returns (t: State, u: State)
    requires s.pending == map[0 := IDS] && s.probes == IDS + 1
    requires InPhase(s, 0, Draining) && s.calls[0].grant == Some(0)
    requires InPhase(s, IDS, Draining) && s.calls[IDS].future.Unresolved?
    requires s.calls[IDS].grant == Some(IDS) && s.calls[IDS].sent == frame
    requires Mbap.DecodeFrame(frame) == Ok(Message(0, 1, [3]))
    ensures Enabled(s, DrainFail(0)) && t == Next(s, DrainFail(0))
    ensures Enabled(t, Drained(IDS)) && u == Next(t, Drained(IDS)) && InPhase(u, IDS, Waiting)
    ensures u.calls[IDS].future.Unresolved? && u.calls[IDS].sent == frame && Echoes(frame, frame)
    ensures Timely(u, Receive(frame, IDS)) && Next(u, Receive(frame, IDS)) == u
  {
    hide Next, Enabled, Timely, Echoes, Mbap.DecodeFrame, Tid, Registered;
    t := PopsZero(s, IDS);
    u := Drains(t, IDS);
    Unheard(u, frame);
  }

  /** Ending call 0 takes the entry of call `n` away. */
  lemma PopsZero(s: State, n: nat) returns (t: State)
    requires InPhase(s, 0, Draining) && s.calls[0].grant == Some(0) && s.pending == map[0 := n] && n in s.calls && n != 0
    ensures Enabled(s, DrainFail(0)) && t == Next(s, DrainFail(0))
    ensures t.pending == map[] && t.probes == s.probes && n in t.calls && t.calls[n] == s.calls[n]
  {
    t := Next(s, DrainFail(0));
  }

  lemma NewestFacts(s: State)
    requires TcpTransport.Asked(s, IDS)
    ensures 0 in s.calls && s.calls[0].grant == Some(0)
    ensures IDS in s.calls && s.calls[IDS].grant == Some(IDS) && s.calls[IDS].sent == SampleFrame(IDS) == SampleFrame(0)
  {
    hide Mbap.EncodeFrame;
  }

  lemma Unheard(u: State, frame: seq<byte>)
    requires Mbap.DecodeFrame(frame) == Ok(Message(0, 1, [3])) && u.pending == map[]
    requires Granted(u, IDS) && u.calls[IDS].grant.value == IDS && u.probes == IDS + 1 && u.calls[IDS].sent == frame
    ensures Timely(u, Receive(frame, IDS)) && Echoes(frame, frame) && Next(u, Receive(frame, IDS)) == u
  {
    hide Mbap.DecodeFrame;
  }

  lemma StaleThroughout(s: State, t: State, n: nat)
    requires Stale(s) && Untouched(s, t, n) && n > 0
    ensures Stale(t)
  {}

  /** Without promptness a timely reply can be lost: there is a run in which a call failed by a
      teardown is resumed only after a whole turn of the ids, and takes away the table entry of the
      newer call with its id, whose reply then finds nobody. */
  lemma StaleCleanupLosesReply() returns (ss: seq<State>, acts: seq<Action>)
    ensures Run(true, ss, acts) && TimelyRun(ss, acts) && |acts| >= 1
    ensures var s, a := ss[|acts| - 1], acts[|acts| - 1];
            && a == Receive(SampleFrame(0), IDS) && InPhase(s, IDS, Waiting) && s.calls[IDS].future.Unresolved?
            && Echoes(s.calls[IDS].sent, a.frame) && ss[|acts|] == s
  {
    hide Next, Enabled, Timely, TcpTransport.Asked, Idle, Echoes, Granted, InPhase, Mbap.EncodeFrame, SampleFrame, Stale, Down, Untouched;
    ss, acts := StaleTurn();
    AskedFacts(ss[|acts|]);
    NewestFacts(ss[|acts|]);
    FirstSample();
    StaleDrains(ss[|acts|]);
    hide Mbap.DecodeFrame;
    var t, u := PoppedByAnother(ss[|acts|], SampleFrame(0));
    hide Run, TimelyRun;
    ss, acts := Later(ss, acts, DrainFail(0));
    ss, acts := Later(ss, acts, Drained(IDS));
    var a := Receive(SampleFrame(0), IDS);
    AlwaysEnabled(u, a);
    Extend(ss, acts, a);
    ss, acts := ss + [Next(u, a)], acts + [a];
  }

  lemma StaleDrains(s: State)
    requires Stale(s)
    ensures InPhase(s, 0, Draining)
  {}

  lemma AlwaysEnabled(s: State, a: Action)
    requires a.Receive? || a.TeardownBegin? || a.TeardownEnd?
    ensures Enabled(s, a)
  {}

  lemma Later(ss0: seq<State>, acts0: seq<Action>, a: Action) returns (ss: seq<State>, acts: seq<Action>)
    requires |ss0| == |acts0| + 1 && Run(true, ss0, acts0) && TimelyRun(ss0, acts0) && Enabled(ss0[|acts0|], a) && !a.Receive?
    ensures |ss| == |acts| + 1 && Run(true, ss, acts) && TimelyRun(ss, acts)
    ensures ss == ss0 + [Next(ss0[|acts0|], a)] && acts == acts0 + [a]
  {
    hide Next, Enabled, Timely, Run, TimelyRun;
    NoReply(ss0[|acts0|], a);
    Extend(ss0, acts0, a);
    ss, acts := ss0 + [Next(ss0[|acts0|], a)], acts0 + [a];
  }

  lemma StaleTurn() returns (ss: seq<State>, acts: seq<Action>)
    ensures Run(true, ss, acts) && TimelyRun(ss, acts) && TcpTransport.Asked(ss[|acts|], IDS) && Stale(ss[|acts|])
  {
    ss, acts := StaleStart();
    hide Next, Enabled, Timely, TcpTransport.Asked, Idle, Stale, Untouched;
    var s, n := Last(ss, acts), IDS;
    ss, acts := AbandonsMany(ss, acts, 2, n);
    StaleThroughout(s, Last(ss, acts), 2);
    s := Last(ss, acts);
    ss, acts := Ask(ss, acts, n);
    StaleThroughout(s, Last(ss, acts), n);
  }

  function Last(ss: seq<State>, acts: seq<Action>): State
    requires |ss| == |acts| + 1
  {
    ss[|acts|]
  }

  lemma StaleStart() returns (ss: seq<State>, acts: seq<Action>)
    ensures |ss| == |acts| + 1 && Run(true, ss, acts) && TimelyRun(ss, acts) && Idle(Last(ss, acts), 2) && Stale(Last(ss, acts))
  {
    ss, acts := ConnectsFirst();
    hide Next, Enabled, Timely, TcpTransport.Asked, Idle, Stale, Down, Untouched;
    ss, acts := Ask(ss, acts, 0);
    var s := ss[|acts|];
    hide Run, TimelyRun;
    TeardownPasses(s);
    AlwaysEnabled(s, TeardownBegin);
    ss, acts := Later(ss, acts, TeardownBegin);
    AlwaysEnabled(ss[|acts|], TeardownEnd);
    ss, acts := Later(ss, acts, TeardownEnd);
    var t, u, v, w := Reconnecting(ss[|acts|]);
    ss, acts := Later(ss, acts, Start(1, SAMPLE));
    ss, acts := Later(ss, acts, Enter(1));
    ss, acts := Later(ss, acts, Lock(1));
    ss, acts := Later(ss, acts, OpenOk(1));
    AbandonMakesIdle(w, 1);
    ss, acts := Later(ss, acts, DrainFail(1));
    StaleThroughout(w, ss[|acts|], 1);
  }
}
