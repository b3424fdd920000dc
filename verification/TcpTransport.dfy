/**
  The Modbus TCP transport, src/pymod/transport/tcp.py, as atomic steps between awaits. Any
  number of coroutines (`calls`) share the object; their steps, the frames the read loop receives
  and the two halves of a teardown interleave freely.
 */
module TcpTransport {
  import opened Basics
  import opened Mbap

  const IDS: nat := 0x1_0000

  datatype Kind = Request(uid: int, pdu: seq<byte>) | ConnectOnly

  /** A future's state. A result remembers the call whose request the reply answers. */
  datatype Future = Unresolved | Reply(pdu: seq<byte>, origin: nat) | Failed | Cancelled

  datatype Phase =
    | Queued            // before, or waiting for, the serial lock
    | NeedsConnection   // waiting for the connection lock
    | Opening           // holds the connection lock, awaiting open_connection
    | Draining          // frame written, awaiting drain
    | Waiting           // awaiting the future
    | Returned(reply: seq<byte>, replyTo: nat)
    | Raised
    | Finished          // connect() returned

  /** `grant` is the position, in the sequence of all id probes ever made, of the probe that gave
      this call its transaction id; `sent` are the bytes it wrote, empty until then. */
  datatype Call = Call(kind: Kind, phase: Phase, future: Future, grant: Option<nat>, sent: seq<byte>)

  datatype State = State(
    pipeline: bool, connected: bool, writer: bool, closed: bool,
    nextTid: nat, pending: map<nat, nat>,
    serial: Option<nat>, opener: Option<nat>,
    calls: map<nat, Call>, probes: nat)

  function Initial(pipeline: bool): State
  {
    State(pipeline, false, false, false, 0, map[], None, None, map[], 0)
  }

  datatype Action =
    | Start(c: nat, kind: Kind)
    | Enter(c: nat)                          // serial lock granted, or none needed
    | Lock(c: nat)                           // connection lock granted
    | OpenOk(c: nat)
    | OpenFail(c: nat)
    | Drained(c: nat)
    | DrainFail(c: nat)
    | Timeout(c: nat)
    | Resume(c: nat)                         // the awaited future is done
    | Receive(frame: seq<byte>, origin: nat) // the read loop has a frame; `origin` made the peer send it
    | TeardownBegin
    | TeardownEnd
    | CloseFlag

  predicate InPhase(s: State, c: nat, p: Phase) { c in s.calls && s.calls[c].phase == p }

  predicate Enabled(s: State, a: Action)
  {
    match a
    case Start(c, _) => c !in s.calls
    case Enter(c) => InPhase(s, c, Queued) && (s.pipeline || s.serial.None? || s.calls[c].kind.ConnectOnly?)
    case Lock(c) => InPhase(s, c, NeedsConnection) && s.opener.None?
    case OpenOk(c) => InPhase(s, c, Opening)
    case OpenFail(c) => InPhase(s, c, Opening)
    case Drained(c) => InPhase(s, c, Draining)
    case DrainFail(c) => InPhase(s, c, Draining)
    case Timeout(c) => InPhase(s, c, Waiting)
    case Resume(c) => InPhase(s, c, Waiting) && (s.calls[c].future.Reply? || s.calls[c].future.Failed?)
    case Receive(_, _) => true
    case TeardownBegin => true
    case TeardownEnd => true
    case CloseFlag => true
  }

  // ---------- the id allocator ----------

  function Successor(tid: nat): nat { (tid + 1) % IDS }

  /** How many pending ids a probe from `next` skips before a free one, within `left` probes. */
  function Probe(pending: map<nat, nat>, next: nat, left: nat): Option<nat>
    decreases left
  {
    if left == 0 then None
    else if next !in pending then Some(0)
    else match Probe(pending, Successor(next), left - 1) case Some(k) => Some(k + 1) case None => None
  }

  /** The id of the j-th probe from `next`. */
  function IdAt(next: nat, j: nat): nat { (next + j) % IDS }

  lemma {:induction false} ProbeFinds(pending: map<nat, nat>, next: nat, left: nat)
    requires next < IDS
    ensures var r := Probe(pending, next, left);
            && (r.Some? ==> r.value < left && IdAt(next, r.value) !in pending)
            && (forall j :: 0 <= j < (if r.Some? then r.value else left) ==> IdAt(next, j) in pending)
    decreases left
  {
    if left > 0 && next in pending {
      ProbeFinds(pending, Successor(next), left - 1);
      var r, t := Probe(pending, next, left), Probe(pending, Successor(next), left - 1);
      forall j | 0 <= j < if r.Some? then r.value else left
        ensures IdAt(next, j) in pending
      {
        if j > 0 {
          ShiftMod(next, j - 1);
        }
      }
      if t.Some? {
        ShiftMod(next, t.value);
      }
    }
  }

  lemma ShiftMod(next: nat, j: nat)
    ensures IdAt(Successor(next), j) == IdAt(next, j + 1)
  {}

  /** Allocation fails exactly when all 65536 ids are pending; otherwise the id it returns is free. */
  lemma AllocatorExact(pending: map<nat, nat>, next: nat)
    requires next < IDS
    ensures Probe(pending, next, IDS).None? <==> forall t :: 0 <= t < IDS ==> t in pending
    ensures Probe(pending, next, IDS).Some? ==> IdAt(next, Probe(pending, next, IDS).value) !in pending
  {
    hide Probe;
    ProbeFinds(pending, next, IDS);
    if Probe(pending, next, IDS).None? {
      forall t | 0 <= t < IDS
        ensures t in pending
      {
        assert IdAt(next, (t - next) % IDS) == t;
      }
    }
  }

  // ---------- the steps ----------

  function Goto(s: State, c: nat, p: Phase): State
    requires c in s.calls
  {
    s.(calls := s.calls[c := s.calls[c].(phase := p)])
  }

  /** The call ends: it leaves the serial lock. */
  function End(s: State, c: nat, p: Phase): State
    requires c in s.calls
  {
    Goto(s, c, p).(serial := if s.serial == Some(c) then None else s.serial)
  }

  function Tid(call: Call): nat
  {
    if call.grant.Some? then call.grant.value % IDS else 0
  }

  /** End through the `finally` that removes the call's id from the table. */
  function EndPop(s: State, c: nat, p: Phase): State
    requires c in s.calls
  {
    End(s, c, p).(pending := s.pending - {Tid(s.calls[c])})
  }

  /** The k-th probe gives call `c` a free id, under which its future is registered. */
  function Grant(s: State, c: nat, k: nat): (t: State)
    requires c in s.calls
    ensures c in t.calls
  {
    var tid := IdAt(s.nextTid, k);
    s.(nextTid := Successor(tid), probes := s.probes + k + 1, pending := s.pending[tid := c],
       calls := s.calls[c := s.calls[c].(grant := Some(s.probes + k))])
  }

  /** From the return of `_ensure_connected` to the drain, without a suspension point. */
  function Transmit(s: State, c: nat): State
    requires c in s.calls
  {
    match s.calls[c].kind
    case ConnectOnly => End(s, c, Finished)
    case Request(uid, pdu) =>
      (match Probe(s.pending, s.nextTid, IDS)
       case None => End(s.(probes := s.probes + IDS), c, Raised)
       case Some(k) =>
         var t, frame := Grant(s, c, k), Mbap.EncodeFrame(IdAt(s.nextTid, k), uid, pdu);
         if !t.writer || frame.Err? then EndPop(t, c, Raised)
         else Goto(Wrote(t, c, frame.value), c, Draining))
  }

  function Wrote(s: State, c: nat, frame: seq<byte>): (t: State)
    requires c in s.calls
    ensures c in t.calls
  {
    s.(calls := s.calls[c := s.calls[c].(sent := frame)])
  }

  /** Fail every registered future that is not done yet. */
  function FailPending(s: State): map<nat, Call>
  {
    map c | c in s.calls ::
      if c in s.pending.Values && s.calls[c].future.Unresolved? then s.calls[c].(future := Failed) else s.calls[c]
  }

  function Next(s: State, a: Action): State
    requires Enabled(s, a)
  {
    match a
    case Start(c, kind) =>
      s.(calls := s.calls[c := Call(kind, if s.closed then Raised else Queued, Unresolved, None, [])])
    case Enter(c) =>
      var t := if !s.pipeline && s.calls[c].kind.Request? then s.(serial := Some(c)) else s;
      if s.connected then Transmit(t, c) else Goto(t, c, NeedsConnection)
    case Lock(c) =>
      if s.connected then Transmit(s, c)
      else if s.closed then End(s, c, Raised)
      else Goto(s, c, Opening).(opener := Some(c))
    case OpenOk(c) => Transmit(s.(connected := true, writer := true, opener := None), c)
    case OpenFail(c) => End(s.(opener := None), c, Raised)
    case Drained(c) => Goto(s, c, Waiting)
    case DrainFail(c) => EndPop(s, c, Raised)
    case Timeout(c) =>
      var f := s.calls[c].future;
      var t := s.(calls := s.calls[c := s.calls[c].(future := if f.Unresolved? then Cancelled else f)]);
      EndPop(t, c, Raised)
    case Resume(c) =>
      (match s.calls[c].future
       case Reply(pdu, origin) => EndPop(s, c, Returned(pdu, origin))
       case _ => EndPop(s, c, Raised))
    case Receive(frame, origin) =>
      (match Mbap.DecodeFrame(frame)
       case Err(_) => s
       case Ok(m) =>
         if m.tid !in s.pending || s.pending[m.tid] !in s.calls then s
         else
           var d := s.pending[m.tid];
           if !s.calls[d].future.Unresolved? then s
           else s.(calls := s.calls[d := s.calls[d].(future := Reply(m.pdu, origin))]))
    case TeardownBegin => s.(connected := false, writer := false)
    case TeardownEnd => s.(calls := FailPending(s), pending := map[])
    case CloseFlag => s.(closed := true)
  }

  // ---------- the invariant ----------

  predicate InFlight(p: Phase) { p.Draining? || p.Waiting? }

  predicate BeforeGrant(p: Phase) { p.Queued? || p.NeedsConnection? || p.Opening? }

  predicate InsideSerial(p: Phase) { p.NeedsConnection? || p.Opening? || InFlight(p) }

  predicate Granted(s: State, c: nat) { c in s.calls && s.calls[c].grant.Some? }

  /** The connection flags agree, and the counter of probes is the allocator's position. */
  predicate FieldInv(s: State)
  {
    && s.connected == s.writer
    && s.nextTid == s.probes % IDS
  }

  /** Every entry of the table is a call in flight, under the id it was granted. */
  ghost predicate PendingInv(s: State)
  {
    forall t :: t in s.pending ==>
      && Granted(s, s.pending[t]) && InFlight(s.calls[s.pending[t]].phase) && t == Tid(s.calls[s.pending[t]])
  }

  /** Grants are past probes, all different; one that is pending is the latest of its id. */
  ghost predicate GrantInv(s: State)
  {
    && (forall c :: Granted(s, c) ==> s.calls[c].grant.value < s.probes)
    && (forall c, d :: Granted(s, c) && Granted(s, d) && s.calls[c].grant == s.calls[d].grant ==> c == d)
    && (forall c, t :: Granted(s, c) && t in s.pending && Tid(s.calls[c]) == t && Granted(s, s.pending[t]) ==>
          s.calls[c].grant.value <= s.calls[s.pending[t]].grant.value)
    && (forall c :: c in s.calls && InFlight(s.calls[c].phase) ==> s.calls[c].grant.Some? && s.calls[c].kind.Request?)
    && (forall c :: c in s.calls && BeforeGrant(s.calls[c].phase) ==> s.calls[c].grant.None?)
  }

  ghost predicate SerialInv(s: State)
  {
    !s.pipeline ==>
      forall c :: c in s.calls && s.calls[c].kind.Request? && InsideSerial(s.calls[c].phase) ==> s.serial == Some(c)
  }

  ghost predicate Inv(s: State)
  {
    FieldInv(s) && PendingInv(s) && GrantInv(s) && SerialInv(s)
  }

  /** The frame carries the transaction id that stands in the bytes of the request. */
  predicate Echoes(request: seq<byte>, frame: seq<byte>)
  {
    && Mbap.DecodeFrame(request).Ok? && Mbap.DecodeFrame(frame).Ok?
    && Mbap.DecodeFrame(frame).value.tid == Mbap.DecodeFrame(request).value.tid
  }

  /** The peer's part: a frame carries the id of the request it answers, as it was written, and
      reaches the read loop before 65536 further ids have been probed. */
  predicate Timely(s: State, a: Action)
  {
    a.Receive? && Mbap.DecodeFrame(a.frame).Ok? ==>
      && Granted(s, a.origin)
      && Echoes(s.calls[a.origin].sent, a.frame)
      && s.probes - (s.calls[a.origin].grant.value + 1) < IDS
  }

  lemma SameResidue(g: nat, h: nat)
    requires g <= h < g + IDS && g % IDS == h % IDS
    ensures g == h
  {}

  /** Within the window, the table can map the reply's id only to the request it answers. */
  lemma ReplyFindsItsCall(s: State, origin: nat)
    requires PendingInv(s) && GrantInv(s) && Granted(s, origin)
    requires s.probes - (s.calls[origin].grant.value + 1) < IDS
    requires Tid(s.calls[origin]) in s.pending
    ensures s.pending[Tid(s.calls[origin])] == origin
  {
    var d := s.pending[Tid(s.calls[origin])];
    SameResidue(s.calls[origin].grant.value, s.calls[d].grant.value);
  }

  // ---------- every step keeps the invariant ----------

  /** A call moves on without touching the table. */
  lemma GotoKeepsInv(s: State, c: nat, p: Phase)
    requires Inv(s) && c in s.calls && !p.Queued?
    requires InFlight(p) ==> InFlight(s.calls[c].phase)
    requires !InFlight(p) ==> forall t :: t in s.pending ==> s.pending[t] != c
    requires p.NeedsConnection? || p.Opening? ==> s.calls[c].grant.None?
    requires !s.pipeline && s.calls[c].kind.Request? && InsideSerial(p) ==> s.serial == Some(c)
    ensures Inv(Goto(s, c, p))
  {
    hide PendingInv, GrantInv, SerialInv;
    GotoPending(s, c, p);
    GotoGrants(s, c, p);
    GotoSerial(s, c, p);
  }

  lemma GotoPending(s: State, c: nat, p: Phase)
    requires PendingInv(s) && c in s.calls
    requires !InFlight(p) ==> forall t :: t in s.pending ==> s.pending[t] != c
    ensures PendingInv(Goto(s, c, p))
  {
    hide Tid;
    var u := Goto(s, c, p);
    forall t | t in u.pending
      ensures Granted(u, u.pending[t]) && InFlight(u.calls[u.pending[t]].phase) && t == Tid(u.calls[u.pending[t]])
    {
      SameTid(s.calls[u.pending[t]], u.calls[u.pending[t]]);
    }
  }

  lemma SameTid(b: Call, c: Call)
    requires b.grant == c.grant
    ensures Tid(b) == Tid(c)
  {}

  lemma GotoGrants(s: State, c: nat, p: Phase)
    requires GrantInv(s) && c in s.calls && !p.Queued?
    requires InFlight(p) ==> InFlight(s.calls[c].phase)
    requires p.NeedsConnection? || p.Opening? ==> s.calls[c].grant.None?
    ensures GrantInv(Goto(s, c, p))
  {
    SameGrants(s, Goto(s, c, p));
  }

  /** What GrantInv says about two states with the same grants, apart from the phases. */
  lemma SameGrants(s: State, t: State)
    requires GrantInv(s) && t.calls.Keys == s.calls.Keys && t.probes == s.probes
    requires forall c :: c in s.calls ==> t.calls[c].grant == s.calls[c].grant && t.calls[c].kind == s.calls[c].kind
    requires t.pending.Keys <= s.pending.Keys && forall u :: u in t.pending ==> t.pending[u] == s.pending[u]
    requires forall c :: c in t.calls && InFlight(t.calls[c].phase) ==> InFlight(s.calls[c].phase)
    requires forall c :: c in t.calls && BeforeGrant(t.calls[c].phase) ==> t.calls[c].grant.None?
    ensures GrantInv(t)
  {
    hide Tid;
    assert forall c :: Granted(t, c) <==> Granted(s, c);
    forall c, u | Granted(t, c) && u in t.pending && Tid(t.calls[c]) == u && Granted(t, t.pending[u])
      ensures t.calls[c].grant.value <= t.calls[t.pending[u]].grant.value
    {
      SameTid(s.calls[c], t.calls[c]);
    }
  }

  lemma GotoSerial(s: State, c: nat, p: Phase)
    requires SerialInv(s) && c in s.calls
    requires !s.pipeline && s.calls[c].kind.Request? && InsideSerial(p) ==> s.serial == Some(c)
    ensures SerialInv(Goto(s, c, p))
  {}

  /** Only futures and table entries differ: entries may be gone, futures may be done. */
  lemma StandingKeepsInv(s: State, t: State)
    requires Inv(s) && FieldInv(t) && t.pipeline == s.pipeline && t.serial == s.serial && t.probes == s.probes
    requires t.calls.Keys == s.calls.Keys
    requires forall c :: c in s.calls ==> Stands(s.calls[c], t.calls[c])
    requires t.pending.Keys <= s.pending.Keys && forall u :: u in t.pending ==> t.pending[u] == s.pending[u]
    ensures Inv(t)
  {
    StandingPending(s, t);
    hide Tid, PendingInv;
    SameGrants(s, t);
    hide GrantInv;
  }

  lemma StandingPending(s: State, t: State)
    requires PendingInv(s) && t.calls.Keys == s.calls.Keys
    requires forall c :: c in s.calls ==> Stands(s.calls[c], t.calls[c])
    requires forall u :: u in t.pending ==> u in s.pending && t.pending[u] == s.pending[u]
    ensures PendingInv(t)
  {
    hide Tid;
    forall u | u in t.pending
      ensures Granted(t, t.pending[u]) && InFlight(t.calls[t.pending[u]].phase) && u == Tid(t.calls[t.pending[u]])
    {
      SameTid(s.calls[t.pending[u]], t.calls[t.pending[u]]);
    }
  }

  /** The same call but for its future. */
  predicate Stands(b: Call, c: Call)
  {
    b.kind == c.kind && b.phase == c.phase && b.grant == c.grant
  }

  lemma EndKeepsInv(s: State, c: nat, p: Phase)
    requires Inv(s) && c in s.calls && !InsideSerial(p) && !p.Queued?
    requires forall t :: t in s.pending ==> s.pending[t] != c
    ensures Inv(End(s, c, p))
  {
    GotoKeepsInv(s, c, p);
  }

  lemma PopKeepsInv(s: State, t: nat)
    requires Inv(s)
    ensures Inv(s.(pending := s.pending - {t}))
  {
    StandingKeepsInv(s, s.(pending := s.pending - {t}));
  }

  lemma EndPopKeepsInv(s: State, c: nat, p: Phase)
    requires Inv(s) && Granted(s, c) && !InsideSerial(p) && !p.Queued?
    ensures Inv(EndPop(s, c, p))
  {
    var t := s.(pending := s.pending - {Tid(s.calls[c])});
    PopKeepsInv(s, Tid(s.calls[c]));
    EndKeepsInv(t, c, p);
  }

  lemma FutureKeepsInv(s: State, c: nat, f: Future)
    requires Inv(s) && c in s.calls
    ensures Inv(s.(calls := s.calls[c := s.calls[c].(future := f)]))
  {
    StandingKeepsInv(s, s.(calls := s.calls[c := s.calls[c].(future := f)]));
  }

  lemma ModPlus(p: nat, k: nat)
    ensures IdAt(p % IDS, k) == (p + k) % IDS
    ensures Successor((p + k) % IDS) == (p + k + 1) % IDS
  {}

  lemma GrantKeepsInv(s: State, c: nat, k: nat)
    requires Inv(s) && c in s.calls && s.calls[c].kind.Request? && s.calls[c].grant.None?
    requires IdAt(s.nextTid, k) !in s.pending
    requires forall t :: t in s.pending ==> s.pending[t] != c
    requires !s.pipeline ==> s.serial == Some(c)
    ensures Inv(Goto(Grant(s, c, k), c, Draining))
  {
    hide Successor, IdAt, Tid, FieldInv, GrantInv, PendingInv, SerialInv;
    var t, tid := Goto(Grant(s, c, k), c, Draining), IdAt(s.nextTid, k);
    GrantFields(s, c, k);
    NewestGrant(s, t, c, tid);
    NewEntry(s, t, c, tid);
    NewSerial(s, t, c);
  }

  lemma GrantFields(s: State, c: nat, k: nat)
    requires FieldInv(s) && c in s.calls
    ensures var t := Goto(Grant(s, c, k), c, Draining); FieldInv(t) && Tid(t.calls[c]) == IdAt(s.nextTid, k)
  {
    ModPlus(s.probes, k);
  }

  lemma NewSerial(s: State, t: State, c: nat)
    requires SerialInv(s) && c in s.calls && t.pipeline == s.pipeline && t.serial == s.serial && t.calls.Keys == s.calls.Keys
    requires forall d :: d in s.calls && d != c ==> t.calls[d] == s.calls[d]
    requires !s.pipeline ==> s.serial == Some(c)
    ensures SerialInv(t)
  {}

  lemma NewEntry(s: State, t: State, c: nat, tid: nat)
    requires PendingInv(s) && c in s.calls && t.pending == s.pending[tid := c] && t.calls.Keys == s.calls.Keys
    requires forall d :: d in s.calls && d != c ==> t.calls[d] == s.calls[d]
    requires forall u :: u in s.pending ==> s.pending[u] != c
    requires t.calls[c].phase.Draining? && Tid(t.calls[c]) == tid && t.calls[c].grant.Some?
    ensures PendingInv(t)
  {
    hide Tid;
  }

  /** A new grant is the latest of its id and no older than any other. */
  lemma NewestGrant(s: State, t: State, c: nat, tid: nat)
    requires GrantInv(s) && c in s.calls && tid !in s.pending && s.calls[c].kind.Request? && s.calls[c].grant.None?
    requires t.pending == s.pending[tid := c] && t.calls.Keys == s.calls.Keys
    requires forall d :: d in s.calls && d != c ==> t.calls[d] == s.calls[d]
    requires forall u :: u in s.pending ==> s.pending[u] != c
    requires t.calls[c].kind.Request? && t.calls[c].phase.Draining? && Tid(t.calls[c]) == tid
    requires t.calls[c].grant.Some? && s.probes <= t.calls[c].grant.value < t.probes
    ensures GrantInv(t)
  {
    hide Tid;
    assert forall d :: Granted(t, d) <==> Granted(s, d) || d == c;
    forall d, e | Granted(t, d) && Granted(t, e) && t.calls[d].grant == t.calls[e].grant
      ensures d == e
    {
      assert (d == c || t.calls[d] == s.calls[d]) && (e == c || t.calls[e] == s.calls[e]);
    }
    forall d, u | Granted(t, d) && u in t.pending && Tid(t.calls[d]) == u && Granted(t, t.pending[u])
      ensures t.calls[d].grant.value <= t.calls[t.pending[u]].grant.value
    {
      NewestOfId(s, t, c, tid, d, u);
    }
  }

  lemma NewestOfId(s: State, t: State, c: nat, tid: nat, d: nat, u: nat)
    requires GrantInv(s) && c in s.calls && s.calls[c].grant.None? && t.pending == s.pending[tid := c] && tid !in s.pending
    requires t.calls.Keys == s.calls.Keys && forall e :: e in s.calls && e != c ==> t.calls[e] == s.calls[e]
    requires t.calls[c].grant.Some? && s.probes <= t.calls[c].grant.value && Tid(t.calls[c]) == tid
    requires u in s.pending ==> s.pending[u] != c
    requires Granted(t, d) && u in t.pending && Tid(t.calls[d]) == u && Granted(t, t.pending[u])
    ensures t.calls[d].grant.value <= t.calls[t.pending[u]].grant.value
  {
    hide Tid;
    if u == tid {
      assert d == c || Granted(s, d);
    } else {
      assert d != c && Granted(s, d) && Granted(s, s.pending[u]);
    }
  }

  lemma RequestKeepsInv(s: State, c: nat)
    requires Inv(s) && c in s.calls && s.calls[c].kind.Request? && s.calls[c].grant.None?
    requires BeforeGrant(s.calls[c].phase)
    requires !s.pipeline ==> s.serial == Some(c)
    ensures Inv(Transmit(s, c))
  {
    hide Probe, Mbap.EncodeFrame, Inv, Successor, IdAt, Tid, Grant, Goto, EndPop, End;
    NotPending(s, c);
    AllocatorExactIn(s);
    match Probe(s.pending, s.nextTid, IDS)
    case None =>
      WholeTurnKeepsInv(s);
      EndKeepsInv(s.(probes := s.probes + IDS), c, Raised);
    case Some(k) =>
      GrantKeepsInv(s, c, k);
      GrantGrants(s, c, k);
      var u := Grant(s, c, k);
      EndPopKeepsInv(Goto(u, c, Draining), c, Raised);
      SameEnd(u, c);
      var frame := Mbap.EncodeFrame(IdAt(s.nextTid, k), s.calls[c].kind.uid, s.calls[c].kind.pdu);
      if frame.Ok? {
        WroteKeepsInv(Goto(u, c, Draining), c, frame.value);
        WroteThenDraining(u, c, frame.value);
      }
  }

  lemma WroteKeepsInv(s: State, c: nat, frame: seq<byte>)
    requires Inv(s) && c in s.calls
    ensures Inv(Wrote(s, c, frame))
  {
    StandingKeepsInv(s, Wrote(s, c, frame));
  }

  lemma WroteThenDraining(u: State, c: nat, frame: seq<byte>)
    requires c in u.calls
    ensures Goto(Wrote(u, c, frame), c, Draining) == Wrote(Goto(u, c, Draining), c, frame)
  {}

  lemma SameEnd(u: State, c: nat)
    requires c in u.calls
    ensures EndPop(Goto(u, c, Draining), c, Raised) == EndPop(u, c, Raised)
  {}

  lemma GrantGrants(s: State, c: nat, k: nat)
    requires c in s.calls
    ensures Granted(Goto(Grant(s, c, k), c, Draining), c)
  {}

  /** A call that has no id yet is not in the table. */
  lemma NotPending(s: State, c: nat)
    requires Inv(s) && c in s.calls && BeforeGrant(s.calls[c].phase)
    ensures s.calls[c].grant.None? && forall t :: t in s.pending ==> s.pending[t] != c
    ensures !s.pipeline && s.calls[c].kind.Request? && InsideSerial(s.calls[c].phase) ==> s.serial == Some(c)
  {
    hide Tid;
  }

  lemma AllocatorExactIn(s: State)
    requires Inv(s)
    ensures var r := Probe(s.pending, s.nextTid, IDS); r.Some? ==> IdAt(s.nextTid, r.value) !in s.pending
  {
    AllocatorExact(s.pending, s.nextTid);
  }

  lemma WholeTurnKeepsInv(s: State)
    requires Inv(s)
    ensures Inv(s.(probes := s.probes + IDS))
  {
    assert (s.probes + IDS) % IDS == s.probes % IDS;
  }

  lemma TransmitKeepsInv(s: State, c: nat)
    requires Inv(s) && c in s.calls
    requires BeforeGrant(s.calls[c].phase)
    requires !s.pipeline && s.calls[c].kind.Request? ==> s.serial == Some(c)
    ensures Inv(Transmit(s, c))
  {
    hide Inv, End, EndPop, Grant, Probe;
    NotPending(s, c);
    if s.calls[c].kind.Request? {
      RequestKeepsInv(s, c);
    } else {
      EndKeepsInv(s, c, Finished);
    }
  }

  lemma ReceiveKeepsInv(s: State, frame: seq<byte>, origin: nat)
    requires Inv(s)
    ensures Inv(Next(s, Receive(frame, origin)))
  {
    hide Mbap.DecodeFrame;
    var r := Mbap.DecodeFrame(frame);
    if r.Ok? && r.value.tid in s.pending {
      FutureKeepsInv(s, s.pending[r.value.tid], Reply(r.value.pdu, origin));
    }
  }

  lemma StartKeepsInv(s: State, c: nat, kind: Kind)
    requires Inv(s) && c !in s.calls
    ensures Inv(Next(s, Start(c, kind)))
  {
    var t := Next(s, Start(c, kind));
    NewCallGrants(s, t, c);
    hide Tid, GrantInv;
  }

  lemma NewCallGrants(s: State, t: State, c: nat)
    requires GrantInv(s) && PendingInv(s) && c !in s.calls
    requires t.pending == s.pending && t.probes == s.probes && t.calls.Keys == s.calls.Keys + {c}
    requires forall d :: d in s.calls ==> t.calls[d] == s.calls[d]
    requires t.calls[c].grant.None? && !InFlight(t.calls[c].phase)
    ensures GrantInv(t)
  {
    hide Tid;
    assert forall d :: Granted(t, d) ==> Granted(s, d);
  }

  /** Taking the free serial lock. */
  lemma TakeSerialKeepsInv(s: State, c: nat)
    requires Inv(s) && Enabled(s, Enter(c)) && !s.pipeline && s.calls[c].kind.Request?
    ensures Inv(s.(serial := Some(c)))
  {}

  lemma LockedKeepsInv(s: State, c: nat)
    requires Inv(s) && Enabled(s, Lock(c))
    ensures Inv(Next(s, Lock(c)))
  {
    hide Inv, Transmit, End, Goto;
    NotPending(s, c);
    if s.connected {
      TransmitKeepsInv(s, c);
    } else {
      if s.closed {
        EndKeepsInv(s, c, Raised);
      } else {
        GotoKeepsInv(s, c, Opening);
        var t := Goto(s, c, Opening);
        FlagsAgree(t);
        ConnectKeepsInv(t, t.(opener := Some(c)));
      }
    }
  }

  lemma EnterKeepsInv(s: State, c: nat)
    requires Inv(s) && Enabled(s, Enter(c))
    ensures Inv(Next(s, Enter(c)))
  {
    hide Inv, Transmit, Goto;
    var t := s;
    if !s.pipeline && s.calls[c].kind.Request? {
      TakeSerialKeepsInv(s, c);
      t := s.(serial := Some(c));
    }
    if s.connected {
      TransmitKeepsInv(t, c);
    } else {
      NotPending(t, c);
      GotoKeepsInv(t, c, NeedsConnection);
    }
  }

  lemma OpenKeepsInv(s: State, a: Action)
    requires Inv(s) && Enabled(s, a) && (a.OpenOk? || a.OpenFail?)
    ensures Inv(Next(s, a))
  {
    hide Inv, Transmit, End;
    NotPending(s, a.c);
    if a.OpenOk? {
      var u := s.(connected := true, writer := true, opener := None);
      ConnectKeepsInv(s, u);
      TransmitKeepsInv(u, a.c);
    } else {
      FlagsAgree(s);
      ConnectKeepsInv(s, s.(opener := None));
      EndKeepsInv(s.(opener := None), a.c, Raised);
    }
  }

  /** The connection's own fields may change, as long as they agree. */
  lemma ConnectKeepsInv(s: State, t: State)
    requires Inv(s) && t == s.(connected := t.connected, writer := t.writer, opener := t.opener, closed := t.closed)
    requires t.connected == t.writer
    ensures Inv(t)
  {
    StandingKeepsInv(s, t);
  }

  lemma DropKeepsInv(s: State)
    requires Inv(s)
    ensures Inv(s.(connected := false, writer := false)) && Inv(s.(closed := true))
  {
    FlagsAgree(s);
    ConnectKeepsInv(s, s.(connected := false, writer := false));
    ConnectKeepsInv(s, s.(closed := true));
  }

  lemma FailPendingKeepsInv(s: State)
    requires Inv(s)
    ensures Inv(s.(calls := FailPending(s), pending := map[]))
  {
    var t := s.(calls := FailPending(s), pending := map[]);
    assert t.calls.Keys == s.calls.Keys;
    StandingKeepsInv(s, t);
  }

  lemma FlightKeepsInv(s: State, a: Action)
    requires Inv(s) && Enabled(s, a) && (a.Drained? || a.DrainFail? || a.Timeout? || a.Resume?)
    ensures Inv(Next(s, a))
  {
    hide EndPop, Goto;
    match a
    case Drained(c) =>
      GotoKeepsInv(s, c, Waiting);
    case DrainFail(c) =>
      EndPopKeepsInv(s, c, Raised);
    case Timeout(c) =>
      var f := if s.calls[c].future.Unresolved? then Cancelled else s.calls[c].future;
      FutureKeepsInv(s, c, f);
      EndPopKeepsInv(s.(calls := s.calls[c := s.calls[c].(future := f)]), c, Raised);
    case Resume(c) =>
      EndPopKeepsInv(s, c, match s.calls[c].future case Reply(pdu, origin) => Returned(pdu, origin) case _ => Raised);
  }

  /** Every step keeps the structural invariant, however late or wrong the frames are. */
  lemma StepKeepsInv(s: State, a: Action)
    requires Inv(s) && Enabled(s, a)
    ensures Inv(Next(s, a))
  {
    hide Inv, Transmit, End, EndPop, Goto, FailPending, Mbap.DecodeFrame;
    match a
    case Start(c, kind) => StartKeepsInv(s, c, kind);
    case Enter(c) => EnterKeepsInv(s, c);
    case Lock(c) => LockedKeepsInv(s, c);
    case OpenOk(_) => OpenKeepsInv(s, a);
    case OpenFail(_) => OpenKeepsInv(s, a);
    case Drained(_) => FlightKeepsInv(s, a);
    case DrainFail(_) => FlightKeepsInv(s, a);
    case Timeout(_) => FlightKeepsInv(s, a);
    case Resume(_) => FlightKeepsInv(s, a);
    case Receive(frame, origin) => ReceiveKeepsInv(s, frame, origin);
    case TeardownBegin => DropKeepsInv(s);
    case TeardownEnd => FailPendingKeepsInv(s);
    case CloseFlag => DropKeepsInv(s);
  }

  // ---------- what is written ----------

  /** What a call has written is the frame of its own request under its own id. */
  predicate SentOk(call: Call)
  {
    call.sent != [] ==>
      && call.kind.Request? && call.grant.Some?
      && Mbap.EncodeFrame(Tid(call), call.kind.uid, call.kind.pdu) == Ok(call.sent)
  }

  ghost predicate SentInv(s: State)
  {
    forall c :: c in s.calls ==> SentOk(s.calls[c]) && (InFlight(s.calls[c].phase) ==> s.calls[c].sent != [])
  }

  lemma MoveKeepsSent(s: State, c: nat, p: Phase)
    requires SentInv(s) && c in s.calls && (InFlight(p) ==> s.calls[c].sent != [])
    ensures SentInv(Goto(s, c, p)) && SentInv(End(s, c, p)) && SentInv(EndPop(s, c, p))
  {
    hide Mbap.EncodeFrame;
  }

  lemma GrantKeepsSent(s: State, c: nat, k: nat)
    requires SentInv(s) && c in s.calls && s.calls[c].grant.None? && !InFlight(s.calls[c].phase)
    ensures var t := Grant(s, c, k); SentInv(t) && Tid(t.calls[c]) == (s.probes + k) % IDS
  {
    hide Mbap.EncodeFrame;
  }

  lemma WriteKeepsSent(s: State, c: nat, frame: seq<byte>)
    requires SentInv(s) && c in s.calls && s.calls[c].kind.Request? && s.calls[c].grant.Some? && frame != []
    requires Mbap.EncodeFrame(Tid(s.calls[c]), s.calls[c].kind.uid, s.calls[c].kind.pdu) == Ok(frame)
    ensures SentInv(Goto(Wrote(s, c, frame), c, Draining))
  {
    hide Mbap.EncodeFrame;
  }

  lemma TransmitKeepsSent(s: State, c: nat)
    requires FieldInv(s) && SentInv(s) && c in s.calls && s.calls[c].grant.None? && !InFlight(s.calls[c].phase)
    ensures SentInv(Transmit(s, c))
  {
    hide Probe, Mbap.EncodeFrame, Successor, IdAt, Goto, End, EndPop, SentInv, Wrote;
    match s.calls[c].kind
    case ConnectOnly => MoveKeepsSent(s, c, Finished);
    case Request(uid, pdu) =>
      match Probe(s.pending, s.nextTid, IDS)
      case None =>
        SameSent(s, s.(probes := s.probes + IDS));
        MoveKeepsSent(s.(probes := s.probes + IDS), c, Raised);
      case Some(k) =>
        ModPlus(s.probes, k);
        GrantKeepsSent(s, c, k);
        MoveKeepsSent(Grant(s, c, k), c, Raised);
        var frame := Mbap.EncodeFrame(IdAt(s.nextTid, k), uid, pdu);
        if frame.Ok? {
          GrantedKind(s, c, k);
          NotEmpty(IdAt(s.nextTid, k), uid, pdu);
          WriteKeepsSent(Grant(s, c, k), c, frame.value);
        }
  }

  lemma GrantedKind(s: State, c: nat, k: nat)
    requires c in s.calls
    ensures var t := Grant(s, c, k); t.calls[c].kind == s.calls[c].kind && t.calls[c].grant.Some?
  {}

  lemma NotEmpty(tid: int, uid: int, pdu: seq<byte>)
    ensures Mbap.EncodeFrame(tid, uid, pdu).Ok? ==> Mbap.EncodeFrame(tid, uid, pdu).value != []
  {}

  lemma SameSent(s: State, t: State)
    requires SentInv(s) && t.calls.Keys == s.calls.Keys
    requires forall c :: c in s.calls ==> Stands(s.calls[c], t.calls[c]) && t.calls[c].sent == s.calls[c].sent
    ensures SentInv(t)
  {
    hide Mbap.EncodeFrame, Tid;
    forall c | c in t.calls
      ensures SentOk(t.calls[c])
    {
      SameTid(s.calls[c], t.calls[c]);
    }
  }

  lemma StepKeepsSent(s: State, a: Action)
    requires Inv(s) && SentInv(s) && Enabled(s, a)
    ensures SentInv(Next(s, a))
  {
    hide Transmit, End, EndPop, Goto, Inv, SentInv, Mbap.DecodeFrame, FailPending;
    FlagsAgree(s);
    PositionOf(s);
    match a
    case Start(c, kind) => StartKeepsSent(s, c, kind);
    case Enter(c) =>
      NotPending(s, c);
      var t := if !s.pipeline && s.calls[c].kind.Request? then s.(serial := Some(c)) else s;
      SameSent(s, t);
      TransmitKeepsSent(t, c);
      MoveKeepsSent(t, c, NeedsConnection);
    case Lock(c) =>
      NotPending(s, c);
      TransmitKeepsSent(s, c);
      MoveKeepsSent(s, c, Raised);
      MoveKeepsSent(s, c, Opening);
      var t := Goto(s, c, Opening);
      SameSent(t, t.(opener := Some(c)));
    case OpenOk(c) =>
      NotPending(s, c);
      var t := s.(connected := true, writer := true, opener := None);
      SameSent(s, t);
      TransmitKeepsSent(t, c);
    case OpenFail(c) =>
      SameSent(s, s.(opener := None));
      MoveKeepsSent(s.(opener := None), c, Raised);
    case Drained(c) => DrainedHasSent(s, c); MoveKeepsSent(s, c, Waiting);
    case DrainFail(c) => MoveKeepsSent(s, c, Raised);
    case Timeout(c) =>
      var f := s.calls[c].future;
      var t := s.(calls := s.calls[c := s.calls[c].(future := if f.Unresolved? then Cancelled else f)]);
      SameSent(s, t);
      MoveKeepsSent(t, c, Raised);
    case Resume(c) =>
      MoveKeepsSent(s, c, match s.calls[c].future case Reply(pdu, origin) => Returned(pdu, origin) case _ => Raised);
    case Receive(frame, origin) => SameSent(s, Next(s, a));
    case TeardownEnd => FailedSent(s);
    case _ => SameSent(s, Next(s, a));
  }

  lemma DrainedHasSent(s: State, c: nat)
    requires SentInv(s) && InPhase(s, c, Draining)
    ensures s.calls[c].sent != []
  {}

  lemma StartKeepsSent(s: State, c: nat, kind: Kind)
    requires SentInv(s) && c !in s.calls
    ensures SentInv(Next(s, Start(c, kind)))
  {
    hide Mbap.EncodeFrame;
  }

  lemma FailedSent(s: State)
    requires SentInv(s)
    ensures SentInv(s.(calls := FailPending(s), pending := map[]))
  {
    var t := s.(calls := FailPending(s), pending := map[]);
    assert t.calls.Keys == s.calls.Keys;
    SameSent(s, t);
  }

  // ---------- every call gets its own reply ----------

  /** The step is the arrival of this PDU, sent by the peer for the request of call `c`. */
  predicate Carries(a: Action, c: nat, pdu: seq<byte>)
  {
    && a.Receive? && a.origin == c
    && Mbap.DecodeFrame(a.frame).Ok? && Mbap.DecodeFrame(a.frame).value.pdu == pdu
  }

  predicate Heard(past: seq<Action>, c: nat, pdu: seq<byte>)
  {
    exists k :: 0 <= k < |past| && Carries(past[k], c, pdu)
  }

  lemma HeardSnoc(past: seq<Action>, a: Action, c: nat, pdu: seq<byte>)
    ensures Heard(past, c, pdu) || Carries(a, c, pdu) ==> Heard(past + [a], c, pdu)
  {
    hide Carries;
    var now := past + [a];
    if Heard(past, c, pdu) {
      var k :| 0 <= k < |past| && Carries(past[k], c, pdu);
      assert now[k] == past[k];
    } else if Carries(a, c, pdu) {
      assert now[|past|] == a;
    }
  }

  /** A future holds bytes that arrived as the reply to its own call's request, and so does a
      call that returned. */
  ghost predicate AnswerInv(s: State, past: seq<Action>)
  {
    forall c :: c in s.calls ==> OwnFuture(past, c, s.calls[c].future) && OwnReturn(past, c, s.calls[c].phase)
  }

  predicate OwnFuture(past: seq<Action>, c: nat, f: Future)
  {
    f.Reply? ==> f.origin == c && Heard(past, c, f.pdu)
  }

  predicate OwnReturn(past: seq<Action>, c: nat, p: Phase)
  {
    p.Returned? ==> p.replyTo == c && Heard(past, c, p.reply)
  }

  lemma LaterAnswers(s: State, past: seq<Action>, a: Action)
    requires AnswerInv(s, past)
    ensures AnswerInv(s, past + [a])
  {
    forall c | c in s.calls
      ensures OwnFuture(past + [a], c, s.calls[c].future) && OwnReturn(past + [a], c, s.calls[c].phase)
    {
      var call := s.calls[c];
      assert OwnFuture(past, c, call.future) && OwnReturn(past, c, call.phase);
      hide Heard;
      if call.future.Reply? {
        HeardSnoc(past, a, c, call.future.pdu);
      }
      if call.phase.Returned? {
        HeardSnoc(past, a, c, call.phase.reply);
      }
    }
  }

  lemma EndAnswers(s: State, past: seq<Action>, c: nat, p: Phase)
    requires AnswerInv(s, past) && c in s.calls && OwnReturn(past, c, p)
    ensures AnswerInv(Goto(s, c, p), past) && AnswerInv(End(s, c, p), past) && AnswerInv(EndPop(s, c, p), past)
  {
    hide Tid, OwnFuture, OwnReturn;
  }

  lemma TransmitAnswers(s: State, past: seq<Action>, c: nat)
    requires AnswerInv(s, past) && c in s.calls
    ensures AnswerInv(Transmit(s, c), past)
  {
    hide Probe, Mbap.EncodeFrame, IdAt, Successor, End, EndPop, Goto, Heard;
    if s.calls[c].kind.Request? {
      var r := Probe(s.pending, s.nextTid, IDS);
      if r.None? {
        EndAnswers(s.(probes := s.probes + IDS), past, c, Raised);
      } else {
        EndAnswers(Grant(s, c, r.value), past, c, Raised);
        var frame := Mbap.EncodeFrame(IdAt(s.nextTid, r.value), s.calls[c].kind.uid, s.calls[c].kind.pdu);
        if frame.Ok? {
          EndAnswers(Wrote(Grant(s, c, r.value), c, frame.value), past, c, Draining);
        }
      }
    } else {
      EndAnswers(s, past, c, Finished);
    }
  }

  /** The id that the peer echoes is the id of the call. */
  lemma EchoHasTid(call: Call, frame: seq<byte>)
    requires SentOk(call) && Echoes(call.sent, frame)
    ensures Mbap.DecodeFrame(frame).value.tid == Tid(call)
  {
    EncodeDecode(Tid(call), call.kind.uid, call.kind.pdu);
    hide Mbap.EncodeFrame, Mbap.DecodeFrame;
  }

  lemma ReceiveAnswers(s: State, past: seq<Action>, frame: seq<byte>, origin: nat)
    requires Inv(s) && SentInv(s) && AnswerInv(s, past + [Receive(frame, origin)]) && Timely(s, Receive(frame, origin))
    ensures AnswerInv(Next(s, Receive(frame, origin)), past + [Receive(frame, origin)])
  {
    hide Mbap.DecodeFrame, Heard;
    var r := Mbap.DecodeFrame(frame);
    if r.Ok? && r.value.tid in s.pending {
      EchoHasTid(s.calls[origin], frame);
      ReplyFindsItsCall(s, origin);
      HeardSnoc(past, Receive(frame, origin), origin, r.value.pdu);
      hide Inv, Tid;
    }
  }

  lemma StepKeepsAnswers(s: State, past: seq<Action>, a: Action)
    requires Inv(s) && SentInv(s) && AnswerInv(s, past) && Enabled(s, a) && Timely(s, a)
    ensures AnswerInv(Next(s, a), past + [a])
  {
    hide Transmit, End, EndPop, Inv, SentInv, Timely, Goto, Heard;
    LaterAnswers(s, past, a);
    var now := past + [a];
    match a
    case Enter(c) =>
      var t := if !s.pipeline && s.calls[c].kind.Request? then s.(serial := Some(c)) else s;
      TransmitAnswers(t, now, c);
      EndAnswers(t, now, c, NeedsConnection);
    case Lock(c) =>
      TransmitAnswers(s, now, c);
      EndAnswers(s, now, c, Raised);
      EndAnswers(s, now, c, Opening);
    case OpenOk(c) => TransmitAnswers(s.(connected := true, writer := true, opener := None), now, c);
    case OpenFail(c) => EndAnswers(s.(opener := None), now, c, Raised);
    case Drained(c) => EndAnswers(s, now, c, Waiting);
    case DrainFail(c) => EndAnswers(s, now, c, Raised);
    case Timeout(c) =>
      var f := s.calls[c].future;
      EndAnswers(s.(calls := s.calls[c := s.calls[c].(future := if f.Unresolved? then Cancelled else f)]), now, c, Raised);
    case Resume(c) =>
      EndAnswers(s, now, c, match s.calls[c].future case Reply(pdu, origin) => Returned(pdu, origin) case _ => Raised);
    case Receive(frame, origin) => ReceiveAnswers(s, past, frame, origin);
    case _ =>
  }

  // ---------- whole runs ----------

  ghost predicate Run(pipeline: bool, ss: seq<State>, acts: seq<Action>)
  {
    && |ss| == |acts| + 1 && ss[0] == Initial(pipeline)
    && forall i :: 0 <= i < |acts| ==> Enabled(ss[i], acts[i]) && ss[i + 1] == Next(ss[i], acts[i])
  }

  ghost predicate TimelyRun(ss: seq<State>, acts: seq<Action>)
    requires |ss| == |acts| + 1
  {
    forall i :: 0 <= i < |acts| ==> Timely(ss[i], acts[i])
  }

  lemma {:induction false} RunKeepsInv(pipeline: bool, ss: seq<State>, acts: seq<Action>, i: nat)
    requires Run(pipeline, ss, acts) && i < |ss|
    ensures Inv(ss[i]) && SentInv(ss[i])
    decreases i
  {
    hide Inv, SentInv, Next, Enabled;
    if i == 0 {
      InitialInv(pipeline);
    } else {
      RunKeepsInv(pipeline, ss, acts, i - 1);
      StepKeepsInv(ss[i - 1], acts[i - 1]);
      StepKeepsSent(ss[i - 1], acts[i - 1]);
    }
  }

  lemma {:induction false} RunKeepsAnswers(pipeline: bool, ss: seq<State>, acts: seq<Action>, i: nat)
    requires Run(pipeline, ss, acts) && TimelyRun(ss, acts) && i < |ss|
    ensures AnswerInv(ss[i], acts[..i])
    decreases i
  {
    hide Inv, SentInv, Next, Enabled, Timely;
    if i > 0 {
      RunKeepsInv(pipeline, ss, acts, i - 1);
      RunKeepsAnswers(pipeline, ss, acts, i - 1);
      StepKeepsAnswers(ss[i - 1], acts[..i - 1], acts[i - 1]);
      assert acts[..i] == acts[..i - 1] + [acts[i - 1]];
    }
  }

  lemma InitialInv(pipeline: bool)
    ensures Inv(Initial(pipeline)) && SentInv(Initial(pipeline))
  {}

  /** Over every interleaving of sends, replies in any order, timeouts, teardowns and reconnects:
      a call that returns normally returns the reply to its own request. The bytes it returns are
      the PDU of a frame that arrived earlier in the run, that the peer sent for this call's
      request, after the call had written it and carrying the id that it was written under. */
  lemma DemultiplexingSafety(pipeline: bool, ss: seq<State>, acts: seq<Action>, i: nat, c: nat)
    requires Run(pipeline, ss, acts) && TimelyRun(ss, acts) && i < |ss|
    requires c in ss[i].calls && ss[i].calls[c].phase.Returned?
    ensures ss[i].calls[c].phase.replyTo == c
    ensures exists k :: && 0 <= k < i && Carries(acts[k], c, ss[i].calls[c].phase.reply)
                        && c in ss[k].calls && Echoes(ss[k].calls[c].sent, acts[k].frame)
  {
    hide Mbap.DecodeFrame, Next, Enabled, Echoes;
    RunKeepsAnswers(pipeline, ss, acts, i);
    assert OwnReturn(acts[..i], c, ss[i].calls[c].phase);
    var k :| 0 <= k < i && Carries(acts[..i][k], c, ss[i].calls[c].phase.reply);
    assert Timely(ss[k], acts[k]);
  }

  /** A future that is done never changes again, whatever else happens; no timeliness needed. */
  lemma ResolvedOnce(s: State, a: Action, c: nat)
    requires Enabled(s, a) && c in s.calls
    ensures c in Next(s, a).calls
    ensures !s.calls[c].future.Unresolved? ==> Next(s, a).calls[c].future == s.calls[c].future
  {
    hide Transmit, EndPop, End;
    match a
    case Enter(d) => TransmitLeavesFutures(if !s.pipeline && s.calls[d].kind.Request? then s.(serial := Some(d)) else s, d, c);
    case Lock(d) =>
      TransmitLeavesFutures(s, d, c);
      EndLeavesFutures(s, d, Raised, c);
    case OpenOk(d) => TransmitLeavesFutures(s.(connected := true, writer := true, opener := None), d, c);
    case OpenFail(d) => EndLeavesFutures(s.(opener := None), d, Raised, c);
    case DrainFail(d) => EndLeavesFutures(s, d, Raised, c);
    case Timeout(d) =>
      var f := s.calls[d].future;
      EndLeavesFutures(s.(calls := s.calls[d := s.calls[d].(future := if f.Unresolved? then Cancelled else f)]), d, Raised, c);
    case Resume(d) =>
      EndLeavesFutures(s, d, match s.calls[d].future case Reply(pdu, origin) => Returned(pdu, origin) case _ => Raised, c);
    case Receive(_, _) => hide Mbap.DecodeFrame;
    case _ =>
  }

  lemma EndLeavesFutures(s: State, c: nat, p: Phase, d: nat)
    requires c in s.calls && d in s.calls
    ensures d in End(s, c, p).calls && End(s, c, p).calls[d].future == s.calls[d].future
    ensures d in EndPop(s, c, p).calls && EndPop(s, c, p).calls[d].future == s.calls[d].future
  {}

  lemma TransmitLeavesFutures(s: State, c: nat, d: nat)
    requires c in s.calls && d in s.calls
    ensures d in Transmit(s, c).calls && Transmit(s, c).calls[d].future == s.calls[d].future
  {
    hide Probe, Mbap.EncodeFrame, IdAt, Successor, Tid;
    if s.calls[c].kind.Request? && Probe(s.pending, s.nextTid, IDS).Some? {
      var t := Grant(s, c, Probe(s.pending, s.nextTid, IDS).value);
      assert d in t.calls && t.calls[d].future == s.calls[d].future;
    }
  }

  lemma {:induction false} ResolvedOnceInRun(pipeline: bool, ss: seq<State>, acts: seq<Action>, i: nat, j: nat, c: nat)
    requires Run(pipeline, ss, acts) && i <= j < |ss| && c in ss[i].calls && !ss[i].calls[c].future.Unresolved?
    ensures c in ss[j].calls && ss[j].calls[c].future == ss[i].calls[c].future
    decreases j
  {
    hide Next, Enabled;
    if i < j {
      ResolvedOnceInRun(pipeline, ss, acts, i, j - 1, c);
      ResolvedOnce(ss[j - 1], acts[j - 1], c);
    }
  }

  /** In every reachable state: connected exactly when a writer is set, so a call that has ensured
      a connection always finds one; every table entry belongs to a call in flight, so none in
      flight means an empty table; without pipelining the table has at most one entry; and the
      next id is the number of probes made so far, modulo 65536. */
  lemma TransportInvariant(pipeline: bool, ss: seq<State>, acts: seq<Action>, i: nat)
    requires Run(pipeline, ss, acts) && i < |ss|
    ensures ss[i].connected == ss[i].writer
    ensures ss[i].nextTid == ss[i].probes % IDS
    ensures forall t :: t in ss[i].pending ==> ss[i].pending[t] in ss[i].calls && InFlight(ss[i].calls[ss[i].pending[t]].phase)
    ensures (forall c :: c in ss[i].calls ==> !InFlight(ss[i].calls[c].phase)) ==> ss[i].pending == map[]
    ensures !ss[i].pipeline ==> |ss[i].pending| <= 1
  {
    RunKeepsInv(pipeline, ss, acts, i);
    var s := ss[i];
    if forall c :: c in s.calls ==> !InFlight(s.calls[c].phase) {
      assert forall t :: t !in s.pending;
    }
    if !s.pipeline {
      AtMostOneEntry(s);
    }
  }

  lemma AtMostOneEntry(s: State)
    requires Inv(s) && !s.pipeline
    ensures |s.pending| <= 1
  {
    var x := if s.serial.Some? && s.serial.value in s.calls then Tid(s.calls[s.serial.value]) else 0;
    forall u | u in s.pending
      ensures u == x
    {
      assert s.serial == Some(s.pending[u]);
    }
    SingleKey(s.pending, x);
  }

  lemma SingleKey(m: map<nat, nat>, x: nat)
    requires forall u :: u in m ==> u == x
    ensures |m| <= 1
  {
    forall y | y in m.Keys
      ensures y in {x}
    {
      assert y in m;
    }
    assert m.Keys <= {x};
    assert |m.Keys| == |{x}| - |{x} - m.Keys|;
  }

  // ---------- steps that go on to write ----------

  /** The state in which the call of this step leaves `_ensure_connected` and goes on to write, if
      this is such a step. */
  function Writes(s: State, a: Action): (u: Option<State>)
    requires Enabled(s, a)
    ensures u.Some? ==> (a.Enter? || a.Lock? || a.OpenOk?) && a.c in u.value.calls && u.value.calls == s.calls
  {
    match a
    case Enter(c) =>
      if !s.connected then None
      else Some(if !s.pipeline && s.calls[c].kind.Request? then s.(serial := Some(c)) else s)
    case Lock(_) => if s.connected then Some(s) else None
    case OpenOk(_) => Some(s.(connected := true, writer := true, opener := None))
    case _ => None
  }

  /** In every run, a call that gets as far as writing has a writer: the branch that raises
      "connection unavailable" is dead. What can still stop it is an exhausted id space or a
      request that does not fit a frame. */
  lemma ConnectionAvailable(pipeline: bool, ss: seq<State>, acts: seq<Action>, i: nat)
    requires Run(pipeline, ss, acts) && i < |acts| && Writes(ss[i], acts[i]).Some?
    ensures var u, c := Writes(ss[i], acts[i]).value, acts[i].c;
            && u.writer && ss[i + 1] == Transmit(u, c) && c in ss[i + 1].calls
            && (ss[i + 1].calls[c].phase.Raised? && u.calls[c].kind.Request? ==>
                  || Probe(u.pending, u.nextTid, IDS).None?
                  || (forall tid :: 0 <= tid < IDS ==> Mbap.EncodeFrame(tid, u.calls[c].kind.uid, u.calls[c].kind.pdu).Err?))
  {
    RunKeepsInv(pipeline, ss, acts, i);
    hide Probe, Mbap.EncodeFrame, Inv;
    FlagsAgree(ss[i]);
    WritesTransmits(ss[i], acts[i]);
    WhyRaised(Writes(ss[i], acts[i]).value, acts[i].c);
  }

  lemma FlagsAgree(s: State)
    requires Inv(s)
    ensures s.connected == s.writer && s.nextTid < IDS
  {}

  lemma WritesTransmits(s: State, a: Action)
    requires Enabled(s, a)
    ensures var u := Writes(s, a);
            if u.Some? then Next(s, a) == Transmit(u.value, a.c) else Next(s, a).probes == s.probes
  {
    hide Transmit, FailPending, Mbap.DecodeFrame;
  }

  lemma WhyRaised(u: State, c: nat)
    requires c in u.calls && u.writer && u.nextTid < IDS
    ensures c in Transmit(u, c).calls
    ensures Transmit(u, c).calls[c].phase.Raised? && u.calls[c].kind.Request? ==>
              || Probe(u.pending, u.nextTid, IDS).None?
              || (forall tid :: 0 <= tid < IDS ==> Mbap.EncodeFrame(tid, u.calls[c].kind.uid, u.calls[c].kind.pdu).Err?)
  {
    hide Probe, Successor, Tid;
  }

  // ---------- the log of probed ids ----------

  /** The ids that the allocator looks at, in order. */
  function ProbedIds(pending: map<nat, nat>, next: nat, left: nat): seq<nat>
    decreases left
  {
    if left == 0 then []
    else [next] + if next in pending then ProbedIds(pending, Successor(next), left - 1) else []
  }

  lemma {:induction false} ProbedIdsAre(pending: map<nat, nat>, next: nat, left: nat)
    requires next < IDS
    ensures var ids, r := ProbedIds(pending, next, left), Probe(pending, next, left);
            && |ids| == (if r.Some? then r.value + 1 else left)
            && forall j :: 0 <= j < |ids| ==> ids[j] == IdAt(next, j)
    decreases left
  {
    if left > 0 && next in pending {
      ProbedIdsAre(pending, Successor(next), left - 1);
      var ids := ProbedIds(pending, next, left);
      forall j | 0 <= j < |ids|
        ensures ids[j] == IdAt(next, j)
      {
        if j > 0 {
          ShiftMod(next, j - 1);
        }
      }
    }
  }

  function ProbedIn(s: State, a: Action): seq<nat>
    requires Enabled(s, a)
  {
    match Writes(s, a)
    case Some(u) => if u.calls[a.c].kind.Request? then ProbedIds(u.pending, u.nextTid, IDS) else []
    case None => []
  }

  /** Every id looked at in the first `i` steps of a run. */
  ghost function ProbeLog(ss: seq<State>, acts: seq<Action>, i: nat): seq<nat>
    requires |ss| == |acts| + 1 && i < |ss| && forall j :: 0 <= j < |acts| ==> Enabled(ss[j], acts[j])
  {
    if i == 0 then [] else ProbeLog(ss, acts, i - 1) + ProbedIn(ss[i - 1], acts[i - 1])
  }

  lemma TransmitProbes(u: State, c: nat)
    requires c in u.calls
    ensures var r := Probe(u.pending, u.nextTid, IDS);
            Transmit(u, c).probes == u.probes + if u.calls[c].kind.ConnectOnly? then 0 else if r.Some? then r.value + 1 else IDS
  {
    hide Probe, Mbap.EncodeFrame, Successor, IdAt, EndPop, End, Goto;
    var r := Probe(u.pending, u.nextTid, IDS);
    if u.calls[c].kind.ConnectOnly? {
      MovesKeepProbes(u, c, Finished);
    } else if r.Some? {
      MovesKeepProbes(Grant(u, c, r.value), c, Raised);
      var frame := Mbap.EncodeFrame(IdAt(u.nextTid, r.value), u.calls[c].kind.uid, u.calls[c].kind.pdu);
      if frame.Ok? {
        MovesKeepProbes(Wrote(Grant(u, c, r.value), c, frame.value), c, Draining);
      }
    } else {
      MovesKeepProbes(u.(probes := u.probes + IDS), c, Raised);
    }
  }

  lemma MovesKeepProbes(s: State, c: nat, p: Phase)
    requires c in s.calls
    ensures Goto(s, c, p).probes == End(s, c, p).probes == EndPop(s, c, p).probes == s.probes
  {}

  lemma StepLogs(s: State, a: Action)
    requires Inv(s) && Enabled(s, a)
    ensures Next(s, a).probes == s.probes + |ProbedIn(s, a)|
    ensures forall j :: 0 <= j < |ProbedIn(s, a)| ==> ProbedIn(s, a)[j] == (s.probes + j) % IDS
  {
    hide Inv, Next, Enabled, Probe, ProbedIn, ProbedIds, Transmit, Writes;
    FlagsAgree(s);
    WritesTransmits(s, a);
    ProbedInIs(s, a);
    ProbedIdsAre(s.pending, s.nextTid, IDS);
    if Writes(s, a).Some? {
      SameAllocator(s, a);
      TransmitProbes(Writes(s, a).value, a.c);
    }
    var ids := ProbedIn(s, a);
    forall j | 0 <= j < |ids|
      ensures ids[j] == (s.probes + j) % IDS
    {
      PositionOf(s);
      ModPlus(s.probes, j);
    }
  }

  lemma ProbedInIs(s: State, a: Action)
    requires Enabled(s, a)
    ensures ProbedIn(s, a) == if Writes(s, a).Some? && Writes(s, a).value.calls[a.c].kind.Request? then ProbedIds(s.pending, s.nextTid, IDS) else []
  {
    hide ProbedIds;
  }

  lemma PositionOf(s: State)
    requires Inv(s)
    ensures s.nextTid == s.probes % IDS
  {}

  lemma SameAllocator(s: State, a: Action)
    requires Enabled(s, a) && Writes(s, a).Some?
    ensures var u := Writes(s, a).value; u.pending == s.pending && u.nextTid == s.nextTid && u.probes == s.probes
  {}

  /** The log of every run is 0, 1, 2, ... modulo 65536, without a gap, and `probes` counts it. */
  lemma {:induction false} LogIsCyclic(pipeline: bool, ss: seq<State>, acts: seq<Action>, i: nat)
    requires Run(pipeline, ss, acts) && i < |ss|
    ensures |ProbeLog(ss, acts, i)| == ss[i].probes
    ensures forall n :: 0 <= n < ss[i].probes ==> ProbeLog(ss, acts, i)[n] == n % IDS
    decreases i
  {
    hide Inv, Next, Enabled, ProbedIn;
    if i > 0 {
      LogIsCyclic(pipeline, ss, acts, i - 1);
      RunKeepsInv(pipeline, ss, acts, i - 1);
      StepLogs(ss[i - 1], acts[i - 1]);
    }
  }

  /** Two grants of one id are at least 65536 probes apart, and the log of probed ids holds every
      id between them. */
  lemma GrantsApart(pipeline: bool, ss: seq<State>, acts: seq<Action>, i: nat, c: nat, d: nat, t: nat)
    requires Run(pipeline, ss, acts) && i < |ss|
    requires var s := ss[i]; GrantPair(s, c, d) && t < IDS
    ensures var s, log := ss[i], ProbeLog(ss, acts, i);
            var g, h := s.calls[c].grant.value, s.calls[d].grant.value;
            && g + IDS <= h < |log| && log[g] == log[h] == Tid(s.calls[c])
            && exists n :: g < n <= h && log[n] == t
  {
    RunKeepsInv(pipeline, ss, acts, i);
    GrantPairApart(ss[i], c, d, t);
    LogIsCyclic(pipeline, ss, acts, i);
    hide ProbeLog, Next, Enabled;
    var log, g, h := ProbeLog(ss, acts, i), ss[i].calls[c].grant.value, ss[i].calls[d].grant.value;
    assert h < |log|;
    var n :| g < n <= h && n % IDS == t;
    assert log[n] == t;
  }

  /** Two calls that were granted the same id, in this order. */
  predicate GrantPair(s: State, c: nat, d: nat)
  {
    && Granted(s, c) && Granted(s, d) && c != d
    && Tid(s.calls[c]) == Tid(s.calls[d]) && s.calls[c].grant.value <= s.calls[d].grant.value
  }

  lemma GrantPairApart(s: State, c: nat, d: nat, t: nat)
    requires Inv(s) && GrantPair(s, c, d) && t < IDS
    ensures s.calls[c].grant.value + IDS <= s.calls[d].grant.value
    ensures exists n :: s.calls[c].grant.value < n <= s.calls[d].grant.value && n % IDS == t
  {
    var g, h := s.calls[c].grant.value, s.calls[d].grant.value;
    if h < g + IDS {
      SameResidue(g, h);
    }
    var n := g + 1 + (t - g - 1) % IDS;
    assert n % IDS == t;
  }

  // ---------- the window is tight ----------

  lemma Extend(ss: seq<State>, acts: seq<Action>, a: Action)
    requires Run(true, ss, acts) && Enabled(ss[|acts|], a)
    ensures Run(true, ss + [Next(ss[|acts|], a)], acts + [a])
    ensures TimelyRun(ss, acts) && Timely(ss[|acts|], a) ==> TimelyRun(ss + [Next(ss[|acts|], a)], acts + [a])
  {
    hide Next, Enabled, Timely;
    var ts, bs := ss + [Next(ss[|acts|], a)], acts + [a];
    forall i | 0 <= i < |bs|
      ensures Enabled(ts[i], bs[i]) && ts[i + 1] == Next(ts[i], bs[i])
    {
      assert i < |acts| ==> ts[i] == ss[i] && ts[i + 1] == ss[i + 1] && bs[i] == acts[i];
    }
  }

  /** Connected and idle, after requests 0 .. n-1 took ids 0 .. n-1 and were abandoned. */
  predicate Idle(s: State, n: nat)
  {
    && s.pipeline && s.connected && s.writer && !s.closed && s.opener.None?
    && s.pending == map[] && s.probes == n && s.nextTid == n % IDS
    && (forall i :: 0 <= i < n ==> Granted(s, i) && s.calls[i].grant.value == i && s.calls[i].sent == SampleFrame(i))
    && (forall i :: n <= i <= IDS ==> i !in s.calls)
  }

  const SAMPLE := Request(1, [3])

  function SampleFrame(i: nat): seq<byte> { Mbap.EncodeFrame(i % IDS, 1, [3]).value }

  /** Request n, made in an idle state, has been granted its id and is draining. */
  predicate Asked(s: State, n: nat)
  {
    && s.pipeline && s.connected && s.writer && !s.closed && s.opener.None?
    && s.pending == map[n % IDS := n] && s.probes == n + 1 && s.nextTid == (n + 1) % IDS
    && (forall i :: 0 <= i <= n ==> Granted(s, i) && s.calls[i].grant.value == i && s.calls[i].sent == SampleFrame(i))
    && (forall i :: n < i <= IDS ==> i !in s.calls)
    && InPhase(s, n, Draining) && s.calls[n].future.Unresolved?
  }

  /** The calls numbered below `n` are as they were. */
  predicate Untouched(s: State, t: State, n: nat)
  {
    forall i :: 0 <= i < n && i in s.calls ==> i in t.calls && t.calls[i] == s.calls[i]
  }

  lemma AskWhenIdle(s: State, n: nat)
    requires Idle(s, n) && n <= IDS
    ensures Enabled(s, Start(n, SAMPLE))
    ensures var t := Next(s, Start(n, SAMPLE));
            Enabled(t, Enter(n)) && Asked(Next(t, Enter(n)), n) && Untouched(s, Next(t, Enter(n)), n)
  {
    var t := Next(s, Start(n, SAMPLE));
    assert Probe(t.pending, t.nextTid, IDS) == Some(0);
    assert IdAt(t.nextTid, 0) == n % IDS && Successor(n % IDS) == (n + 1) % IDS;
    var frame := Mbap.EncodeFrame(n % IDS, 1, [3]);
    assert frame.Ok?;
    hide Probe, Mbap.EncodeFrame, IdAt, Successor;
    assert Next(t, Enter(n)) == Goto(Wrote(Grant(t, n, 0), n, frame.value), n, Draining);
  }

  lemma AbandonMakesIdle(s: State, n: nat)
    requires Asked(s, n)
    ensures Enabled(s, DrainFail(n)) && Idle(Next(s, DrainFail(n)), n + 1) && Untouched(s, Next(s, DrainFail(n)), n)
  {}

  lemma ConnectsFirst() returns (ss: seq<State>, acts: seq<Action>)
    ensures Run(true, ss, acts) && TimelyRun(ss, acts) && Idle(ss[|acts|], 0)
  {
    var c := IDS + 1;
    ss, acts := [Initial(true)], [];
    Extend(ss, acts, Start(c, ConnectOnly));
    ss, acts := ss + [Next(ss[0], Start(c, ConnectOnly))], acts + [Start(c, ConnectOnly)];
    Extend(ss, acts, Enter(c));
    ss, acts := ss + [Next(ss[1], Enter(c))], acts + [Enter(c)];
    Extend(ss, acts, Lock(c));
    ss, acts := ss + [Next(ss[2], Lock(c))], acts + [Lock(c)];
    Extend(ss, acts, OpenOk(c));
    ss, acts := ss + [Next(ss[3], OpenOk(c))], acts + [OpenOk(c)];
  }

  /** From idle after `m` requests to idle after `n`. */
  lemma {:induction false} AbandonsMany(ss0: seq<State>, acts0: seq<Action>, m: nat, n: nat) returns (ss: seq<State>, acts: seq<Action>)
    requires Run(true, ss0, acts0) && TimelyRun(ss0, acts0) && Idle(ss0[|acts0|], m) && m <= n <= IDS
    ensures Run(true, ss, acts) && TimelyRun(ss, acts) && Idle(ss[|acts|], n) && Untouched(ss0[|acts0|], ss[|acts|], m)
    decreases n
  {
    if n == m {
      ss, acts := ss0, acts0;
    } else {
      ss, acts := AbandonsMany(ss0, acts0, m, n - 1);
      var s := ss[|acts|];
      hide *;
      ss, acts := Ask(ss, acts, n - 1);
      var t := ss[|acts|];
      AbandonMakesIdle(t, n - 1);
      NoReply(t, DrainFail(n - 1));
      Extend(ss, acts, DrainFail(n - 1));
      ss, acts := ss + [Next(t, DrainFail(n - 1))], acts + [DrainFail(n - 1)];
      StillUntouched(ss0[|acts0|], s, t, m, n - 1);
      StillUntouched(ss0[|acts0|], t, ss[|acts|], m, n - 1);
    }
  }

  lemma StillUntouched(s: State, t: State, u: State, m: nat, n: nat)
    requires Untouched(s, t, m) && Untouched(t, u, n) && m <= n
    ensures Untouched(s, u, m)
  {}

  lemma NoReply(s: State, a: Action)
    requires !a.Receive?
    ensures Timely(s, a)
  {}

  lemma Ask(ss0: seq<State>, acts0: seq<Action>, n: nat) returns (ss: seq<State>, acts: seq<Action>)
    requires Run(true, ss0, acts0) && TimelyRun(ss0, acts0) && Idle(ss0[|acts0|], n) && n <= IDS
    ensures Run(true, ss, acts) && TimelyRun(ss, acts) && Asked(ss[|acts|], n) && Untouched(ss0[|acts0|], ss[|acts|], n)
  {
    AskWhenIdle(ss0[|acts0|], n);
    hide Next, Enabled, Idle, Asked, Timely, Untouched;
    NoReply(ss0[|acts0|], Start(n, SAMPLE));
    Extend(ss0, acts0, Start(n, SAMPLE));
    ss, acts := ss0 + [Next(ss0[|acts0|], Start(n, SAMPLE))], acts0 + [Start(n, SAMPLE)];
    NoReply(ss[|acts|], Enter(n));
    Extend(ss, acts, Enter(n));
    ss, acts := ss + [Next(ss[|acts|], Enter(n))], acts + [Enter(n)];
  }

  /** 65536 abandoned requests, and one more. */
  lemma FullTurn() returns (ss: seq<State>, acts: seq<Action>)
    ensures Run(true, ss, acts) && TimelyRun(ss, acts) && Asked(ss[|acts|], IDS)
  {
    ss, acts := ConnectsFirst();
    hide *;
    ss, acts := AbandonsMany(ss, acts, 0, IDS);
    ss, acts := Ask(ss, acts, IDS);
  }

  /** The window cannot be widened by one: there is a run in which every frame carries the id of
      its request, and the only one that is late comes after exactly 65536 further probes, and
      yet a call returns the reply to another call's request. */
  lemma LateReplyMisdelivered() returns (ss: seq<State>, acts: seq<Action>)
    ensures Run(true, ss, acts) && |acts| >= 2
    ensures TimelyRun(ss[..|acts| - 1], acts[..|acts| - 2])
    ensures var s, a := ss[|acts| - 2], acts[|acts| - 2];
            && a == Receive(Mbap.EncodeFrame(0, 1, [3]).value, 0) && Granted(s, 0) && Echoes(s.calls[0].sent, a.frame)
            && s.probes - (s.calls[0].grant.value + 1) == IDS
    ensures InPhase(ss[|acts|], IDS, Returned([3], 0))
  {
    hide Next, Enabled, Timely, Asked, Echoes, Granted, InPhase, Mbap.EncodeFrame;
    ss, acts := FullTurn();
    LateDelivery(ss[|acts|]);
    hide *;
    NoReply(ss[|acts|], Drained(IDS));
    Extend(ss, acts, Drained(IDS));
    ss, acts := ss + [Next(ss[|acts|], Drained(IDS))], acts + [Drained(IDS)];
    var a := Receive(Mbap.EncodeFrame(0, 1, [3]).value, 0);
    Extend(ss, acts, a);
    var ts, bs := ss + [Next(ss[|acts|], a)], acts + [a];
    Extend(ts, bs, Resume(IDS));
    assert (bs + [Resume(IDS)])[..|bs| - 1] == acts;
    assert (ts + [Next(ts[|bs|], Resume(IDS))])[..|bs|] == ss;
    ss, acts := ts + [Next(ts[|bs|], Resume(IDS))], bs + [Resume(IDS)];
  }

  lemma LateDelivery(s: State)
    requires Asked(s, IDS)
    ensures Enabled(s, Drained(IDS))
    ensures var t := Next(s, Drained(IDS));
            var a := Receive(Mbap.EncodeFrame(0, 1, [3]).value, 0);
            && Granted(t, 0) && Echoes(t.calls[0].sent, a.frame) && t.probes - (t.calls[0].grant.value + 1) == IDS
            && Enabled(t, a) && Enabled(Next(t, a), Resume(IDS))
            && InPhase(Next(Next(t, a), Resume(IDS)), IDS, Returned([3], 0))
  {
    hide Asked, Mbap.EncodeFrame, Mbap.DecodeFrame, Transmit;
    AskedFacts(s);
    FirstSample();
    LateReply(Goto(s, IDS, Waiting), Mbap.EncodeFrame(0, 1, [3]).value);
  }

  lemma AskedFacts(s: State)
    requires Asked(s, IDS)
    ensures s.pending == map[0 := IDS] && InPhase(s, IDS, Draining) && s.calls[IDS].future.Unresolved?
    ensures Granted(s, 0) && s.calls[0].grant.value == 0 && s.probes == IDS + 1 && s.calls[0].sent == SampleFrame(0)
  {}

  lemma FirstSample()
    ensures Mbap.EncodeFrame(0, 1, [3]).Ok? && SampleFrame(0) == Mbap.EncodeFrame(0, 1, [3]).value
    ensures Mbap.DecodeFrame(Mbap.EncodeFrame(0, 1, [3]).value) == Ok(Message(0, 1, [3]))
  {
    EncodeDecode(0, 1, [3]);
  }

  lemma LateReply(t: State, frame: seq<byte>)
    requires Mbap.DecodeFrame(frame) == Ok(Message(0, 1, [3]))
    requires t.pending == map[0 := IDS] && InPhase(t, IDS, Waiting) && t.calls[IDS].future.Unresolved?
    ensures Enabled(Next(t, Receive(frame, 0)), Resume(IDS))
    ensures InPhase(Next(Next(t, Receive(frame, 0)), Resume(IDS)), IDS, Returned([3], 0))
  {
    hide Mbap.DecodeFrame;
  }

  // ---------- the transport object ----------

  class Transport {
    const pipeline: bool
    var connected: bool
    var writer: bool
    var closed: bool
    var nextTid: nat
    var pending: map<nat, nat>
    var serial: Option<nat>
    var opener: Option<nat>
    var calls: map<nat, Call>
    var probes: nat  // history only: never read by a decision

    constructor (pipeline: bool)
      ensures Valid() && View() == Initial(pipeline)
    {
      this.pipeline := pipeline;
      connected, writer, closed, nextTid, pending := false, false, false, 0, map[];
      serial, opener, calls, probes := None, None, map[], 0;
    }

    /** The invariant of every reachable state. */
    ghost predicate Valid()
      reads this
    {
      Inv(View())
    }

    function View(): State
      reads this
    {
      State(pipeline, connected, writer, closed, nextTid, pending, serial, opener, calls, probes)
    }

    /** The linear probe. Every id looked at counts as a probe. */
    method AllocateTid() returns (tid: Option<nat>)
      requires nextTid < IDS
      modifies this`nextTid, this`probes
      ensures match Probe(pending, old(nextTid), IDS)
              case Some(k) => tid == Some(IdAt(old(nextTid), k)) && nextTid == Successor(tid.value) && probes == old(probes) + k + 1
              case None => tid == None && nextTid == old(nextTid) && probes == old(probes) + IDS
    {
      hide Probe, IdAt;
      var i := 0;
      ProbeStart(old(nextTid));
      while i < IDS
        invariant 0 <= i <= IDS && nextTid == IdAt(old(nextTid), i) && probes == old(probes) + i
        invariant Probe(pending, old(nextTid), IDS) == Later(Probe(pending, nextTid, IDS - i), i)
      {
        var candidate := nextTid;
        ProbeStep(pending, old(nextTid), i);
        nextTid := (nextTid + 1) % IDS;
        probes := probes + 1;
        if candidate !in pending {
          return Some(candidate);
        }
        i := i + 1;
      }
      ProbeEnd(pending, nextTid);
      tid := None;
    }

    method SetPhase(c: nat, p: Phase)
      requires c in calls
      modifies this`calls
      ensures View() == Goto(old(View()), c, p)
    {
      calls := calls[c := calls[c].(phase := p)];
    }

    method Leave(c: nat, p: Phase)
      requires c in calls
      modifies this
      ensures View() == End(old(View()), c, p)
    {
      SetPhase(c, p);
      if serial == Some(c) {
        serial := None;
      }
    }

    /** The `finally` clause: the id leaves the table, whoever holds it by now. */
    method LeaveAndPop(c: nat, p: Phase)
      requires c in calls
      modifies this
      ensures View() == EndPop(old(View()), c, p)
    {
      var tid := Tid(calls[c]);
      Leave(c, p);
      pending := pending - {tid};
    }

    /** Register a future under a fresh id and write the frame. */
    method WriteRequest(c: nat)
      requires c in calls && nextTid < IDS
      modifies this
      ensures View() == Transmit(old(View()), c)
    {
      hide Probe, IdAt, Successor, Mbap.EncodeFrame, EndPop, Tid;
      match calls[c].kind {
        case ConnectOnly =>
          Leave(c, Finished);
        case Request(uid, pdu) =>
          var tid := AllocateTid();
          if tid.None? {
            Leave(c, Raised);
            return;
          }
          calls := calls[c := calls[c].(grant := Some(probes - 1))];
          pending := pending[tid.value := c];
          assert View() == Grant(old(View()), c, Probe(old(pending), old(nextTid), IDS).value);
          if !writer {
            LeaveAndPop(c, Raised);
          } else {
            var frame := Mbap.EncodeFrame(tid.value, uid, pdu);
            if frame.Err? {
              LeaveAndPop(c, Raised);
            } else {
              calls := calls[c := calls[c].(sent := frame.value)];
              SetPhase(c, Draining);
            }
          }
      }
    }

    /** The check at the head of `connect` and `send_and_receive`. */
    method Begin(c: nat, kind: Kind)
      requires Valid()
      requires Enabled(View(), Start(c, kind))
      modifies this
      ensures Valid() && View() == Next(old(View()), Start(c, kind))
    {
      hide Inv;
      StepKeepsInv(View(), Start(c, kind));
      calls := calls[c := Call(kind, if closed then Raised else Queued, Unresolved, None, [])];
    }

    /** The serial lock is granted, or the call needs none: the unlocked test of `_ensure_connected`. */
    method SerialLockGranted(c: nat)
      requires Valid()
      requires Enabled(View(), Enter(c))
      modifies this
      ensures Valid() && View() == Next(old(View()), Enter(c))
    {
      hide Inv;
      StepKeepsInv(View(), Enter(c));
      FlagsAgree(View());
      if !pipeline && calls[c].kind.Request? {
        serial := Some(c);
      }
      if connected {
        WriteRequest(c);
      } else {
        SetPhase(c, NeedsConnection);
      }
    }

    /** `_ensure_connected` after the connection lock is granted. */
    method ConnectionLockGranted(c: nat)
      requires Valid()
      requires Enabled(View(), Lock(c))
      modifies this
      ensures Valid() && View() == Next(old(View()), Lock(c))
    {
      hide Inv;
      StepKeepsInv(View(), Lock(c));
      FlagsAgree(View());
      if connected {
        WriteRequest(c);
      } else if closed {
        Leave(c, Raised);
      } else {
        SetPhase(c, Opening);
        opener := Some(c);
      }
    }

    method ConnectionOpened(c: nat)
      requires Valid()
      requires Enabled(View(), OpenOk(c))
      modifies this
      ensures Valid() && View() == Next(old(View()), OpenOk(c))
    {
      hide Inv;
      StepKeepsInv(View(), OpenOk(c));
      FlagsAgree(View());
      writer := true;
      connected := true;
      opener := None;
      WriteRequest(c);
    }

    method ConnectionFailed(c: nat)
      requires Valid()
      requires Enabled(View(), OpenFail(c))
      modifies this
      ensures Valid() && View() == Next(old(View()), OpenFail(c))
    {
      hide Inv;
      StepKeepsInv(View(), OpenFail(c));
      opener := None;
      Leave(c, Raised);
    }

    /** The drain ended: wait for the reply, or raise through the `finally` clause. */
    method OnDrained(c: nat, ok: bool)
      requires Valid()
      requires InPhase(View(), c, Draining)
      modifies this
      ensures Valid() && View() == Next(old(View()), if ok then Drained(c) else DrainFail(c))
    {
      hide Inv;
      StepKeepsInv(View(), if ok then Drained(c) else DrainFail(c));
      if ok {
        SetPhase(c, Waiting);
      } else {
        LeaveAndPop(c, Raised);
      }
    }

    /** The awaited future is done: return its reply or raise its error. */
    method OnResume(c: nat)
      requires Valid()
      requires Enabled(View(), Resume(c))
      modifies this
      ensures Valid() && View() == Next(old(View()), Resume(c))
    {
      hide Inv;
      StepKeepsInv(View(), Resume(c));
      var future := calls[c].future;
      if future.Reply? {
        LeaveAndPop(c, Returned(future.pdu, future.origin));
      } else {
        LeaveAndPop(c, Raised);
      }
    }

    /** One turn of the read loop: decode, look the id up, resolve the future if it is not done. */
    method OnFrame(frame: seq<byte>, origin: nat)
      requires Valid()
      modifies this
      ensures Valid() && View() == Next(old(View()), Receive(frame, origin))
    {
      hide Inv;
      StepKeepsInv(View(), Receive(frame, origin));
      var decoded := Mbap.DecodeFrame(frame);
      if decoded.Err? {
        return;
      }
      var m := decoded.value;
      if m.tid !in pending {
        return;
      }
      var d := pending[m.tid];
      if d in calls && calls[d].future.Unresolved? {
        calls := calls[d := calls[d].(future := Reply(m.pdu, origin))];
      }
    }

    /** `wait_for` gave up: it cancels the future, and the `finally` clause runs. */
    method OnTimeout(c: nat)
      requires Valid()
      requires Enabled(View(), Timeout(c))
      modifies this
      ensures Valid() && View() == Next(old(View()), Timeout(c))
    {
      hide Inv;
      StepKeepsInv(View(), Timeout(c));
      ghost var done := if calls[c].future.Unresolved? then Cancelled else calls[c].future;
      if calls[c].future.Unresolved? {
        calls := calls[c := calls[c].(future := Cancelled)];
      }
      assert calls == old(calls)[c := old(calls)[c].(future := done)];
      LeaveAndPop(c, Raised);
      assert View() == Next(old(View()), Timeout(c));
    }

    /** close() up to its teardown. */
    method BeginClose()
      requires Valid()
      modifies this
      ensures Valid() && View() == Next(old(View()), CloseFlag)
    {
      hide Inv;
      StepKeepsInv(View(), CloseFlag);
      closed := true;
    }

    /** The first half of a teardown, up to the wait for the socket to close. */
    method DropConnection()
      requires Valid()
      modifies this
      ensures Valid() && View() == Next(old(View()), TeardownBegin)
    {
      hide Inv;
      StepKeepsInv(View(), TeardownBegin);
      connected := false;
      writer := false;
    }

    /** The second half: every registered future that is not done fails, and the table is cleared. */
    method FailAllPending()
      requires Valid()
      modifies this
      ensures Valid() && View() == Next(old(View()), TeardownEnd)
    {
      hide Inv, FailPending;
      StepKeepsInv(View(), TeardownEnd);
      FailFutures();
      pending := map[];
    }

    method FailFutures()
      modifies this`calls
      ensures calls == FailPending(old(View()))
    {
      hide FailPending, Passed;
      ghost var before := calls;
      var todo := pending.Keys;
      NothingPassed(before, pending);
      while todo != {}
        invariant todo <= pending.Keys
        invariant Passed(before, calls, pending, todo)
        decreases todo
      {
        SomeId(todo);
        var t :| t in todo;
        PassOne(before, calls, pending, todo, t);
        todo := todo - {t};
        var d := pending[t];
        if d in calls && calls[d].future.Unresolved? {
          calls := calls[d := calls[d].(future := Failed)];
        }
      }
      AllPassed(old(View()), calls);
    }
  }

  /** The future of call `c` is registered under an id that the loop has passed. */
  ghost predicate Handled(pending: map<nat, nat>, todo: set<nat>, c: nat)
  {
    exists t :: t in pending && t !in todo && pending[t] == c
  }

  ghost function FailIf(call: Call, handled: bool): Call
  {
    if handled && call.future.Unresolved? then call.(future := Failed) else call
  }

  /** The loop has failed the futures of exactly the ids it has passed. */
  ghost predicate Passed(before: map<nat, Call>, calls: map<nat, Call>, pending: map<nat, nat>, todo: set<nat>)
  {
    && calls.Keys == before.Keys
    && forall c :: c in calls ==> calls[c] == FailIf(before[c], Handled(pending, todo, c))
  }

  lemma NothingPassed(before: map<nat, Call>, pending: map<nat, nat>)
    ensures Passed(before, before, pending, pending.Keys)
  {}

  function FailCall(calls: map<nat, Call>, d: nat): map<nat, Call>
  {
    if d in calls && calls[d].future.Unresolved? then calls[d := calls[d].(future := Failed)] else calls
  }

  lemma PassOne(before: map<nat, Call>, calls: map<nat, Call>, pending: map<nat, nat>, todo: set<nat>, t: nat)
    requires Passed(before, calls, pending, todo) && t in todo && todo <= pending.Keys
    ensures Passed(before, FailCall(calls, pending[t]), pending, todo - {t})
  {
    forall c | c in calls
      ensures Handled(pending, todo - {t}, c) <==> Handled(pending, todo, c) || c == pending[t]
    {
      HandleOne(pending, todo, t, c);
    }
    hide Handled;
  }

  lemma HandleOne(pending: map<nat, nat>, todo: set<nat>, t: nat, c: nat)
    requires t in todo && todo <= pending.Keys
    ensures Handled(pending, todo - {t}, c) <==> Handled(pending, todo, c) || c == pending[t]
  {
    if c == pending[t] {
      assert t !in todo - {t};
    }
  }

  lemma AllPassed(s: State, calls: map<nat, Call>)
    requires Passed(s.calls, calls, s.pending, {})
    ensures calls == FailPending(s)
  {
    forall c
      ensures Handled(s.pending, {}, c) <==> c in s.pending.Values
    {
      if c in s.pending.Values {
        var t :| t in s.pending && s.pending[t] == c;
        assert t !in {};
      }
    }
    hide Handled;
  }

  lemma SomeId(todo: set<nat>)
    requires todo != {}
    ensures exists t :: t in todo
  {}

  function Later(r: Option<nat>, i: nat): Option<nat>
  {
    if r.Some? then Some(r.value + i) else None
  }

  lemma ProbeStart(next: nat)
    requires next < IDS
    ensures IdAt(next, 0) == next && IdAt(next, IDS) == next
  {}

  lemma ProbeStep(pending: map<nat, nat>, next: nat, i: nat)
    requires i < IDS
    ensures (IdAt(next, i) + 1) % IDS == IdAt(next, i + 1)
    ensures var id := IdAt(next, i);
            Later(Probe(pending, id, IDS - i), i)
            == if id !in pending then Some(i) else Later(Probe(pending, IdAt(next, i + 1), IDS - i - 1), i + 1)
  {
    assert Successor(IdAt(next, i)) == IdAt(next, i + 1);
  }

  lemma ProbeEnd(pending: map<nat, nat>, next: nat)
    ensures Probe(pending, next, 0) == None
  {}
}
