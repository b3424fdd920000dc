/**
  What the Modbus TCP transport, src/pymod/transport/tcp.py, does besides never mixing replies up:
  locks are released, a reply in time is returned, no call is stuck, and close() keeps closed.
 */
module TcpProgress {
  import opened Basics
  import opened Mbap
  import opened TcpTransport

  // ---------- who holds the locks ----------

  /** The locks, leaving call `c` out of account while it is on its way. */
  ghost predicate LocksBut(s: State, c: nat)
  {
    && (s.opener.Some? ==> s.opener.value != c && InPhase(s, s.opener.value, Opening))
    && (forall d: nat :: InPhase(s, d, Opening) && d != c ==> s.opener == Some(d))
    && (s.serial.Some? && s.serial != Some(c) ==> SerialHeld(s, s.serial.value))
    && (s.serial == Some(c) ==> !s.pipeline && c in s.calls && s.calls[c].kind.Request?)
  }

  /** The holder of the serial lock is a request inside the serial section. */
  predicate SerialHeld(s: State, c: nat)
  {
    !s.pipeline && c in s.calls && s.calls[c].kind.Request? && InsideSerial(s.calls[c].phase)
  }

  ghost predicate LockInv(s: State)
  {
    && (s.opener.Some? ==> InPhase(s, s.opener.value, Opening))
    && (forall d: nat :: InPhase(s, d, Opening) ==> s.opener == Some(d))
    && (s.serial.Some? ==> SerialHeld(s, s.serial.value))
  }

  lemma NotOpening(s: State, c: nat)
    requires LockInv(s) && !InPhase(s, c, Opening)
    ensures LocksBut(s, c)
  {}

  lemma MoveKeepsLocks(s: State, c: nat, p: Phase)
    requires LocksBut(s, c) && c in s.calls && !p.Opening?
    ensures InsideSerial(p) || s.serial != Some(c) ==> LockInv(Goto(s, c, p))
    ensures LockInv(End(s, c, p)) && LockInv(EndPop(s, c, p))
  {
    hide Tid;
  }

  /** Only futures, ids and written bytes differ. */
  lemma SamePhases(s: State, t: State, c: nat)
    requires LocksBut(s, c) && t.calls.Keys == s.calls.Keys
    requires forall d :: d in s.calls ==> t.calls[d].phase == s.calls[d].phase && t.calls[d].kind == s.calls[d].kind
    requires t.opener == s.opener && t.serial == s.serial && t.pipeline == s.pipeline
    ensures LocksBut(t, c)
  {}

  lemma SameLocks(s: State, t: State)
    requires LockInv(s) && t.calls.Keys == s.calls.Keys
    requires forall d :: d in s.calls ==> t.calls[d].phase == s.calls[d].phase && t.calls[d].kind == s.calls[d].kind
    requires t.opener == s.opener && t.serial == s.serial && t.pipeline == s.pipeline
    ensures LockInv(t)
  {}

  lemma TransmitKeepsLocks(s: State, c: nat)
    requires LocksBut(s, c) && c in s.calls
    ensures LockInv(Transmit(s, c))
  {
    hide Probe, Mbap.EncodeFrame, Successor, IdAt, Goto, End, EndPop, Grant, Wrote, LocksBut, LockInv, InsideSerial;
    match s.calls[c].kind
    case ConnectOnly => MoveKeepsLocks(s, c, Finished);
    case Request(uid, pdu) =>
      match Probe(s.pending, s.nextTid, IDS)
      case None =>
        SamePhases(s, s.(probes := s.probes + IDS), c);
        MoveKeepsLocks(s.(probes := s.probes + IDS), c, Raised);
      case Some(k) =>
        var t := Grant(s, c, k);
        GrantKeepsLocks(s, c, k);
        MoveKeepsLocks(t, c, Raised);
        var frame := Mbap.EncodeFrame(IdAt(s.nextTid, k), uid, pdu);
        if frame.Ok? {
          WroteKeepsLocks(t, c, frame.value);
          MoveKeepsLocks(Wrote(t, c, frame.value), c, Draining);
          DrainingIsInside();
        }
  }

  lemma GrantKeepsLocks(s: State, c: nat, k: nat)
    requires LocksBut(s, c) && c in s.calls
    ensures LocksBut(Grant(s, c, k), c) && c in Grant(s, c, k).calls
  {
    hide LocksBut, IdAt, Successor;
    SamePhases(s, Grant(s, c, k), c);
  }

  lemma WroteKeepsLocks(s: State, c: nat, frame: seq<byte>)
    requires LocksBut(s, c) && c in s.calls
    ensures LocksBut(Wrote(s, c, frame), c)
  {
    hide LocksBut;
    SamePhases(s, Wrote(s, c, frame), c);
  }

  lemma DrainingIsInside()
    ensures InsideSerial(Draining) && InsideSerial(NeedsConnection) && InsideSerial(Waiting)
  {}

  lemma EnterKeepsLocks(s: State, c: nat)
    requires LockInv(s) && Enabled(s, Enter(c))
    ensures LockInv(Next(s, Enter(c)))
  {
    hide Transmit;
    NotOpening(s, c);
    var t := if !s.pipeline && s.calls[c].kind.Request? then s.(serial := Some(c)) else s;
    assert LocksBut(t, c);
    hide LockInv, LocksBut;
    if s.connected {
      TransmitKeepsLocks(t, c);
    } else {
      MoveKeepsLocks(t, c, NeedsConnection);
    }
  }

  lemma OpeningKeepsLocks(s: State, c: nat)
    requires LockInv(s) && Enabled(s, Lock(c))
    ensures LockInv(Next(s, Lock(c)))
  {
    hide Transmit;
    NotOpening(s, c);
    if s.connected {
      TransmitKeepsLocks(s, c);
    } else {
      MoveKeepsLocks(s, c, Raised);
    }
  }

  /** Every step keeps the locks with their holders. */
  lemma StepKeepsLocks(s: State, a: Action)
    requires LockInv(s) && Enabled(s, a)
    ensures LockInv(Next(s, a))
  {
    hide Transmit, End, EndPop, Goto, Mbap.DecodeFrame, FailPending, LockInv, LocksBut;
    match a
    case Start(c, kind) => StartKeepsLocks(s, c, kind);
    case Enter(c) => EnterKeepsLocks(s, c);
    case Lock(c) => OpeningKeepsLocks(s, c);
    case OpenOk(c) =>
      Opened(s, c);
      TransmitKeepsLocks(s.(connected := true, writer := true, opener := None), c);
    case OpenFail(c) =>
      Opened(s, c);
      MoveKeepsLocks(s.(opener := None), c, Raised);
    case Drained(c) =>
      NotOpening(s, c);
      DrainingIsInside();
      MoveKeepsLocks(s, c, Waiting);
    case DrainFail(c) =>
      NotOpening(s, c);
      MoveKeepsLocks(s, c, Raised);
    case Timeout(c) => TimeoutKeepsLocks(s, c);
    case Resume(c) =>
      NotOpening(s, c);
      MoveKeepsLocks(s, c, match s.calls[c].future case Reply(pdu, origin) => Returned(pdu, origin) case _ => Raised);
    case TeardownEnd => FailedLocks(s);
    case _ => SameLocks(s, Next(s, a));
  }

  lemma TimeoutKeepsLocks(s: State, c: nat)
    requires LockInv(s) && Enabled(s, Timeout(c))
    ensures LockInv(Next(s, Timeout(c)))
  {
    hide EndPop, LockInv, LocksBut;
    var f := s.calls[c].future;
    var t := s.(calls := s.calls[c := s.calls[c].(future := if f.Unresolved? then Cancelled else f)]);
    SameLocks(s, t);
    NotOpening(t, c);
    MoveKeepsLocks(t, c, Raised);
  }

  lemma Opened(s: State, c: nat)
    requires LockInv(s) && InPhase(s, c, Opening)
    ensures LocksBut(s.(opener := None), c) && LocksBut(s.(connected := true, writer := true, opener := None), c)
  {}

  lemma StartKeepsLocks(s: State, c: nat, kind: Kind)
    requires LockInv(s) && c !in s.calls
    ensures LockInv(Next(s, Start(c, kind)))
  {}

  lemma FailedLocks(s: State)
    requires LockInv(s)
    ensures LockInv(s.(calls := FailPending(s), pending := map[]))
  {
    var t := s.(calls := FailPending(s), pending := map[]);
    assert t.calls.Keys == s.calls.Keys;
    SameLocks(s, t);
  }

  lemma {:induction false} RunKeepsLocks(pipeline: bool, ss: seq<State>, acts: seq<Action>, i: nat)
    requires Run(pipeline, ss, acts) && i < |ss|
    ensures LockInv(ss[i])
    decreases i
  {
    hide Next, Enabled;
    if i > 0 {
      hide LockInv;
      RunKeepsLocks(pipeline, ss, acts, i - 1);
      StepKeepsLocks(ss[i - 1], acts[i - 1]);
    }
  }

  /** In every reachable state: the connection lock is held by exactly the call that is opening a
      connection, and the serial lock, where there is one, by exactly the request inside the serial
      section. So whenever no call is opening, any call that needs a connection can take the
      connection lock, and whenever no request is inside, any queued call can enter. */
  lemma LocksAreReleased(pipeline: bool, ss: seq<State>, acts: seq<Action>, i: nat)
    requires Run(pipeline, ss, acts) && i < |ss|
    ensures forall c: nat :: ss[i].opener == Some(c) <==> InPhase(ss[i], c, Opening)
    ensures forall c: nat :: ss[i].serial == Some(c)
                        <==> !ss[i].pipeline && c in ss[i].calls && ss[i].calls[c].kind.Request? && InsideSerial(ss[i].calls[c].phase)
    ensures (forall d: nat :: !InPhase(ss[i], d, Opening)) ==>
              forall c: nat :: InPhase(ss[i], c, NeedsConnection) ==> Enabled(ss[i], Lock(c))
    ensures (forall d :: d in ss[i].calls && ss[i].calls[d].kind.Request? ==> !InsideSerial(ss[i].calls[d].phase)) ==>
              forall c: nat :: InPhase(ss[i], c, Queued) ==> Enabled(ss[i], Enter(c))
  {
    RunKeepsInv(pipeline, ss, acts, i);
    RunKeepsLocks(pipeline, ss, acts, i);
    hide SentInv, PendingInv, GrantInv;
  }

  // ---------- continuations of a run ----------

  /** The state after further steps, if each of them is enabled when its turn comes. */
  function After(s: State, acts: seq<Action>): Option<State>
    decreases |acts|
  {
    if acts == [] then Some(s)
    else if Enabled(s, acts[0]) then After(Next(s, acts[0]), acts[1..])
    else None
  }

  lemma AfterOne(s: State, a: Action)
    requires Enabled(s, a)
    ensures After(s, [a]) == Some(Next(s, a))
  {
    hide Next, Enabled;
    assert [a][1..] == [];
  }

  lemma {:induction false} AfterThen(s: State, a: seq<Action>, t: State, b: seq<Action>)
    requires After(s, a) == Some(t)
    ensures After(s, a + b) == After(t, b)
    decreases |a|
  {
    hide Next, Enabled;
    if a == [] {
      assert a + b == b;
    } else {
      assert (a + b)[1..] == a[1..] + b;
      AfterThen(Next(s, a[0]), a[1..], t, b);
    }
  }

  lemma {:induction false} AfterKeepsLocks(s: State, acts: seq<Action>)
    requires LockInv(s) && After(s, acts).Some?
    ensures LockInv(After(s, acts).value)
    decreases |acts|
  {
    hide Next, Enabled, LockInv;
    if acts != [] {
      StepKeepsLocks(s, acts[0]);
      AfterKeepsLocks(Next(s, acts[0]), acts[1..]);
    }
  }

  predicate Over(p: Phase) { p.Returned? || p.Raised? || p.Finished? }

  predicate IsOver(s: State, c: nat) { c in s.calls && Over(s.calls[c].phase) }

  /** Steps that need nobody's help: locks are granted, and what is awaited fails or times out. */
  predicate Unaided(acts: seq<Action>)
  {
    forall k :: 0 <= k < |acts| ==> acts[k].Enter? || acts[k].Lock? || acts[k].OpenFail? || acts[k].DrainFail? || acts[k].Timeout?
  }

  lemma UnaidedBoth(a: seq<Action>, b: seq<Action>)
    requires Unaided(a) && Unaided(b)
    ensures Unaided(a + b)
  {}

  /** Call `c` has ended and has let go of everything; the rest is as before. */
  ghost predicate Retired(s: State, t: State, c: nat)
  {
    && c in s.calls && IsOver(t, c)
    && t.calls.Keys == s.calls.Keys && (forall d :: d in s.calls && d != c ==> t.calls[d] == s.calls[d])
    && t.pipeline == s.pipeline && t.closed == s.closed && t.connected == s.connected
    && t.pending.Keys <= s.pending.Keys
    && t.serial == (if s.serial == Some(c) then None else s.serial)
    && t.opener == (if s.opener == Some(c) then None else s.opener)
  }

  lemma EndRetires(s: State, c: nat, p: Phase)
    requires c in s.calls && Over(p) && s.opener != Some(c)
    ensures Retired(s, End(s, c, p), c) && Retired(s, EndPop(s, c, p), c)
  {
    hide Tid;
  }

  lemma RetireOpening(s: State, c: nat)
    requires InPhase(s, c, Opening) && s.opener == Some(c)
    ensures Enabled(s, OpenFail(c)) && Retired(s, Next(s, OpenFail(c)), c)
  {}

  lemma RetireDraining(s: State, c: nat)
    requires InPhase(s, c, Draining) && s.opener != Some(c)
    ensures Enabled(s, DrainFail(c)) && Retired(s, Next(s, DrainFail(c)), c)
  {
    hide Tid;
  }

  lemma RetireWaiting(s: State, c: nat)
    requires InPhase(s, c, Waiting) && s.opener != Some(c)
    ensures Enabled(s, Timeout(c)) && Retired(s, Next(s, Timeout(c)), c)
  {
    hide Tid;
  }

  /** A call that goes on to write has ended, or is draining and can fail. */
  lemma RetireWriting(s: State, c: nat) returns (acts: seq<Action>, t: State)
    requires FieldInv(s) && c in s.calls && s.opener != Some(c)
    ensures After(Transmit(s, c), acts) == Some(t) && Retired(s, t, c) && |acts| <= 1 && Unaided(acts)
  {
    var u := Transmit(s, c);
    WritingOutcome(s, c);
    hide Transmit, Next, Enabled, Retired;
    if u.calls[c].phase.Draining? {
      acts := [DrainFail(c)];
      t := WritingFails(s, u, c);
      AfterOne(u, DrainFail(c));
    } else {
      acts, t := [], u;
    }
  }

  lemma WritingFails(s: State, u: State, c: nat) returns (t: State)
    requires InPhase(u, c, Draining) && s.opener != Some(c)
    requires Written(s, u, c)
    ensures Enabled(u, DrainFail(c)) && t == Next(u, DrainFail(c)) && Retired(s, t, c)
  {
    hide Tid;
    RetireDraining(u, c);
    t := Next(u, DrainFail(c));
    assert t.pending == u.pending - {Tid(u.calls[c])};
  }

  /** The call has registered and written; the rest is as before. */
  ghost predicate Written(s: State, u: State, c: nat)
  {
    && c in s.calls && c in u.calls
    && u.calls.Keys == s.calls.Keys && (forall d :: d in s.calls && d != c ==> u.calls[d] == s.calls[d])
    && u.pipeline == s.pipeline && u.closed == s.closed && u.connected == s.connected
    && u.serial == s.serial && u.opener == s.opener
    && u.pending == s.pending[Tid(u.calls[c]) := c]
  }

  lemma GrantedTid(s: State, c: nat, k: nat)
    requires FieldInv(s) && c in s.calls
    ensures Tid(Grant(s, c, k).calls[c]) == IdAt(s.nextTid, k)
  {
    GrantFields(s, c, k);
    hide IdAt, Successor, Tid;
    SameTid(Grant(s, c, k).calls[c], Goto(Grant(s, c, k), c, Draining).calls[c]);
  }

  lemma WritingOutcome(s: State, c: nat)
    requires FieldInv(s) && c in s.calls && s.opener != Some(c)
    ensures var u := Transmit(s, c);
            c in u.calls && if u.calls[c].phase.Draining? then Written(s, u, c) else Retired(s, u, c)
  {
    hide Probe, Mbap.EncodeFrame, Successor, Tid;
    match s.calls[c].kind
    case ConnectOnly => EndRetires(s, c, Finished);
    case Request(uid, pdu) =>
      match Probe(s.pending, s.nextTid, IDS)
      case None =>
      case Some(k) =>
        GrantedTid(s, c, k);
        var t := Grant(s, c, k);
        var frame := Mbap.EncodeFrame(IdAt(s.nextTid, k), uid, pdu);
        if frame.Ok? && t.writer {
          SameTid(t.calls[c], Wrote(t, c, frame.value).calls[c]);
          SameTid(t.calls[c], Goto(Wrote(t, c, frame.value), c, Draining).calls[c]);
        } else {
          assert EndPop(t, c, Raised).pending == t.pending - {Tid(t.calls[c])};
        }
  }

  // ---------- no call is stuck ----------

  ghost predicate Sound(s: State) { Inv(s) && LockInv(s) }

  lemma {:induction false} AfterKeepsSound(s: State, acts: seq<Action>)
    requires Sound(s) && After(s, acts).Some?
    ensures Sound(After(s, acts).value)
    decreases |acts|
  {
    hide Next, Enabled, LockInv, Inv;
    if acts != [] {
      StepKeepsInv(s, acts[0]);
      StepKeepsLocks(s, acts[0]);
      AfterKeepsSound(Next(s, acts[0]), acts[1..]);
    }
  }

  lemma SoundFacts(s: State, c: nat)
    requires Sound(s)
    ensures FieldInv(s)
    ensures s.opener == Some(c) <==> InPhase(s, c, Opening)
    ensures s.opener.Some? ==> InPhase(s, s.opener.value, Opening)
    ensures s.serial.Some? ==> SerialHeld(s, s.serial.value)
  {
    hide PendingInv, GrantInv, SerialInv;
  }

  /** Two stretches, one after the other, retire the call that the first brought on its way. */
  lemma Chain(s: State, a: seq<Action>, u: State, b: seq<Action>, t: State)
    requires After(s, a) == Some(u) && After(u, b) == Some(t) && Unaided(a) && Unaided(b)
    ensures After(s, a + b) == Some(t) && Unaided(a + b)
  {
    AfterThen(s, a, u, b);
  }

  /** The connection lock can always be freed: the attempt to connect fails. */
  lemma FreeOpener(s: State) returns (acts: seq<Action>, t: State)
    requires Sound(s)
    ensures After(s, acts) == Some(t) && Unaided(acts) && |acts| <= 1 && t.opener.None?
    ensures if s.opener.Some? then Retired(s, t, s.opener.value) && InPhase(s, s.opener.value, Opening) else t == s
  {
    hide Next, Enabled, Inv, LockInv, Retired;
    acts, t := [], s;
    if s.opener.Some? {
      var e := s.opener.value;
      SoundFacts(s, e);
      RetireOpening(s, e);
      acts, t := [OpenFail(e)], Next(s, OpenFail(e));
      AfterOne(s, OpenFail(e));
      RetiredFields(s, t, e);
    }
  }

  lemma RetiredFields(s: State, t: State, c: nat)
    requires Retired(s, t, c)
    ensures t.opener == (if s.opener == Some(c) then None else s.opener)
    ensures t.serial == (if s.serial == Some(c) then None else s.serial)
    ensures t.pipeline == s.pipeline && t.closed == s.closed && t.connected == s.connected && t.pending.Keys <= s.pending.Keys
    ensures forall d :: d in s.calls && d != c ==> d in t.calls && t.calls[d] == s.calls[d]
    ensures c in s.calls && IsOver(t, c)
  {}

  lemma RetiredAlong(s: State, u: State, t: State, e: nat, c: nat)
    requires Retired(s, u, e) && Retired(u, t, c) && c != e && c in s.calls
    ensures IsOver(t, c) && IsOver(t, e)
  {}

  /** A call past the serial lock ends, when the connection lock is free or its own. */
  lemma RetireInside(s: State, c: nat) returns (acts: seq<Action>, t: State)
    requires Sound(s) && c in s.calls && InsideSerial(s.calls[c].phase)
    requires s.calls[c].phase.NeedsConnection? ==> s.opener.None?
    ensures After(s, acts) == Some(t) && Retired(s, t, c) && |acts| <= 2 && Unaided(acts)
  {
    SoundFacts(s, c);
    hide Next, Enabled, Inv, LockInv, Retired;
    match s.calls[c].phase
    case NeedsConnection => acts, t := RetireLocking(s, c);
    case Opening =>
      RetireOpening(s, c);
      acts, t := [OpenFail(c)], Next(s, OpenFail(c));
      AfterOne(s, OpenFail(c));
    case Draining =>
      RetireDraining(s, c);
      acts, t := [DrainFail(c)], Next(s, DrainFail(c));
      AfterOne(s, DrainFail(c));
    case Waiting =>
      RetireWaiting(s, c);
      acts, t := [Timeout(c)], Next(s, Timeout(c));
      AfterOne(s, Timeout(c));
  }

  lemma RetireLocking(s: State, c: nat) returns (acts: seq<Action>, t: State)
    requires Sound(s) && InPhase(s, c, NeedsConnection) && s.opener.None?
    ensures After(s, acts) == Some(t) && Retired(s, t, c) && |acts| <= 2 && Unaided(acts)
  {
    SoundFacts(s, c);
    LockOutcome(s, c);
    var u := Next(s, Lock(c));
    AfterOne(s, Lock(c));
    hide Next, Enabled, Inv, LockInv, Retired, Transmit;
    if s.connected {
      var more;
      more, t := RetireWriting(s, c);
      acts := [Lock(c)] + more;
      Chain(s, [Lock(c)], u, more, t);
    } else if s.closed {
      acts, t := [Lock(c)], u;
    } else {
      RetireOpening(u, c);
      t := Next(u, OpenFail(c));
      AfterOne(u, OpenFail(c));
      OpenedAndFailed(s, u, t, c);
      acts := [Lock(c)] + [OpenFail(c)];
      Chain(s, [Lock(c)], u, [OpenFail(c)], t);
    }
  }

  lemma LockOutcome(s: State, c: nat)
    requires InPhase(s, c, NeedsConnection) && s.opener.None?
    ensures Enabled(s, Lock(c))
    ensures s.connected ==> Next(s, Lock(c)) == Transmit(s, c)
    ensures !s.connected && s.closed ==> Retired(s, Next(s, Lock(c)), c)
    ensures !s.connected && !s.closed ==> Next(s, Lock(c)) == s.(opener := Some(c), calls := s.calls[c := s.calls[c].(phase := Opening)])
  {
    hide Transmit;
  }

  lemma OpenedAndFailed(s: State, u: State, t: State, c: nat)
    requires c in s.calls && s.opener.None? && u == s.(opener := Some(c), calls := s.calls[c := s.calls[c].(phase := Opening)])
    requires Retired(u, t, c)
    ensures Retired(s, t, c)
  {}

  /** The serial lock, as far as a queued call needs it, can always be freed. */
  lemma FreeSerial(s: State, c: nat) returns (acts: seq<Action>, t: State)
    requires Sound(s) && InPhase(s, c, Queued)
    ensures After(s, acts) == Some(t) && Unaided(acts) && |acts| <= 3
    ensures Enabled(t, Enter(c)) && t.calls[c] == s.calls[c]
    ensures t.pipeline == s.pipeline && t.closed == s.closed && t.connected == s.connected && t.pending.Keys <= s.pending.Keys
  {
    acts, t := [], s;
    if !Enabled(s, Enter(c)) {
      hide Enabled, Next, Retired, Inv, LockInv;
      SoundFacts(s, c);
      var d := s.serial.value;
      var a, u := FreeOpener(s);
      if s.opener.Some? {
        RetiredFields(s, u, s.opener.value);
      }
      AfterKeepsSound(s, a);
      if u.serial.None? {
        acts, t := a, u;
      } else {
        SoundFacts(u, d);
        var b;
        b, t := RetireInside(u, d);
        RetiredFields(u, t, d);
        acts := a + b;
        Chain(s, a, u, b, t);
      }
      CanEnter(t, c);
    }
  }

  lemma CanEnter(t: State, c: nat)
    requires InPhase(t, c, Queued) && t.serial.None?
    ensures Enabled(t, Enter(c))
  {}

  /** What entering comes to. */
  lemma EnterOutcome(s: State, c: nat)
    requires Enabled(s, Enter(c))
    ensures var u := if !s.pipeline && s.calls[c].kind.Request? then s.(serial := Some(c)) else s;
            Next(s, Enter(c)) == if s.connected then Transmit(u, c) else u.(calls := u.calls[c := u.calls[c].(phase := NeedsConnection)])
  {
    hide Transmit;
  }

  /** A call that may enter ends. */
  lemma RetireEntering(s: State, c: nat) returns (acts: seq<Action>, t: State)
    requires Sound(s) && Enabled(s, Enter(c))
    ensures After(s, acts) == Some(t) && IsOver(t, c) && |acts| <= 4 && Unaided(acts)
  {
    EnterOutcome(s, c);
    SoundFacts(s, c);
    AfterOne(s, Enter(c));
    var u := Next(s, Enter(c));
    AfterKeepsSound(s, [Enter(c)]);
    hide Next, Enabled, Inv, LockInv, Transmit;
    if s.connected {
      var w := if !s.pipeline && s.calls[c].kind.Request? then s.(serial := Some(c)) else s;
      var more;
      more, t := RetireWriting(w, c);
      acts := [Enter(c)] + more;
      Chain(s, [Enter(c)], u, more, t);
    } else {
      var more;
      more, t := RetireNeedy(u, c);
      acts := [Enter(c)] + more;
      Chain(s, [Enter(c)], u, more, t);
    }
  }

  lemma RetireNeedy(s: State, c: nat) returns (acts: seq<Action>, t: State)
    requires Sound(s) && c in s.calls && InsideSerial(s.calls[c].phase)
    ensures After(s, acts) == Some(t) && IsOver(t, c) && |acts| <= 3 && Unaided(acts)
  {
    if s.calls[c].phase.NeedsConnection? {
      var a, u := FreeOpener(s);
      AfterKeepsSound(s, a);
      hide Next, Enabled, Inv, LockInv;
      var b;
      b, t := RetireInside(u, c);
      acts := a + b;
      Chain(s, a, u, b, t);
    } else {
      acts, t := RetireInside(s, c);
    }
  }

  /** No call is stuck. From every state of every run, every call ends within seven further steps
      that need nobody's help: locks are granted, attempts to connect fail, writes fail, replies
      time out. */
  lemma EveryCallCanEnd(pipeline: bool, ss: seq<State>, acts: seq<Action>, i: nat, c: nat) returns (more: seq<Action>, t: State)
    requires Run(pipeline, ss, acts) && i < |ss| && c in ss[i].calls
    ensures After(ss[i], more) == Some(t) && IsOver(t, c) && |more| <= 7 && Unaided(more)
  {
    RunKeepsInv(pipeline, ss, acts, i);
    RunKeepsLocks(pipeline, ss, acts, i);
    hide Next, Enabled, Inv, LockInv, SentInv, Run;
    var s := ss[i];
    if Over(s.calls[c].phase) {
      more, t := [], s;
    } else if s.calls[c].phase.Queued? {
      var a, u := FreeSerial(s, c);
      AfterKeepsSound(s, a);
      var b;
      b, t := RetireEntering(u, c);
      more := a + b;
      Chain(s, a, u, b, t);
    } else {
      more, t := RetireNeedy(s, c);
    }
  }
}
