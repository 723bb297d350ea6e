/**
 * Properties of whole runs of the message machine: exactly one receive and one reply
 * for every send that returns, delivery in arrival order, one token per channel, one
 * place per thread, and bounded waiting in the ready queue.
 */
module Runs {
  import opened Wrappers
  import opened Scheduling
  import opened Rendezvous
  import Vector

  // ---------- a monitor for one message ----------

  /** What the events about one message say so far. */
  datatype Progress =
    | Fresh
    | Sent(t: Tid, conn: nat, chan: nat, cap: nat)
    | InBuffer(t: Tid, conn: nat, chan: nat, cap: nat, recvid: nat, bytes: Bytes)
    | InServer(t: Tid, conn: nat, chan: nat, cap: nat, recvid: nat)
    | HasReply(t: Tid, conn: nat, chan: nat, cap: nat, status: int, data: Bytes)
    | Finished
    | Broken

  /** The only life a message may have: called, stored, received, replied to, returned. */
  function Advance(p: Progress, e: Event): Progress {
    match (p, e)
    case (Fresh, Called(_, t, j, c, cap)) => Sent(t, j, c, cap)
    case (Sent(t, j, c, cap), Stored(_, c', v, b)) =>
      if c' == c then InBuffer(t, j, c, cap, v, b) else Broken
    case (InBuffer(t, j, c, cap, v, b), Received(_, _, c', v', room, b')) =>
      if c' == c && v' == v && b' == Truncate(b, room) then InServer(t, j, c, cap, v) else Broken
    case (InServer(t, j, c, cap, v), Replied(_, _, c', v', status, data)) =>
      if c' == c && v' == v then HasReply(t, j, c, cap, status, if data.Some? then data.value else []) else Broken
    case (HasReply(t, j, c, cap, status, data), Returned(_, t', j', status', b)) =>
      if t' == t && j' == j && status' == status && b == Truncate(data, cap) then Finished else Broken
    case _ => Broken
  }

  function Track(log: seq<Event>, m: nat): Progress {
    if log == [] then Fresh
    else
      var p := Track(log[..|log| - 1], m);
      var e := log[|log| - 1];
      if e.mid == m then Advance(p, e) else p
  }

  predicate InFlight(p: Progress) {
    p.Sent? || p.InBuffer? || p.InServer? || p.HasReply?
  }

  /** What the monitor must say about the message a connection is carrying. */
  function View(n: Conn, j: nat): Progress {
    match n.phase
    case Idle => Finished
    case Queued => Sent(n.owner, j, n.chan, n.cap)
    case Deposited => InBuffer(n.owner, j, n.chan, n.cap, n.recvid, n.payload)
    case Taken => InServer(n.owner, j, n.chan, n.cap, n.recvid)
    case Answered => HasReply(n.owner, j, n.chan, n.cap, n.status, n.reply)
  }

  ghost predicate MessageOk(s: State, m: nat) {
    var p := Track(s.log, m);
    && p != Broken
    && (m >= |s.log| ==> p == Fresh)
    && (InFlight(p) ==> p.conn < |s.conns| && s.conns[p.conn].phase != Idle && s.conns[p.conn].mid == m)
  }

  ghost predicate CarriedOk(s: State, j: nat)
    requires j < |s.conns|
  {
    s.conns[j].phase != Idle ==> s.conns[j].mid < |s.log| && Track(s.log, s.conns[j].mid) == View(s.conns[j], j)
  }

  ghost predicate Monitored(s: State) {
    && (forall m: nat :: MessageOk(s, m))
    && (forall j: nat :: j < |s.conns| ==> CarriedOk(s, j))
  }

  lemma TrackAppend(log: seq<Event>, e: Event, m: nat)
    ensures Track(log + [e], m) == if e.mid == m then Advance(Track(log, m), e) else Track(log, m)
  {
    assert (log + [e])[..|log|] == log;
  }

  /** One event, about the message of connection `j`, moves the monitor and the connection together. */
  lemma MonitorStep(s: State, s': State, e: Event, j: nat)
    requires Monitored(s)
    requires j < |s.conns| && s'.log == s.log + [e]
    requires |s'.conns| == |s.conns| && s'.conns == s.conns[j := s'.conns[j]]
    requires if s.conns[j].phase == Idle then e.mid == |s.log| else e.mid == s.conns[j].mid
    requires Advance(Track(s.log, e.mid), e) == View(s'.conns[j], j)
    requires s'.conns[j].phase != Idle ==> s'.conns[j].mid == e.mid
    ensures Monitored(s')
  {
    assert CarriedOk(s, j);
    forall m: nat ensures MessageOk(s', m) {
      assert MessageOk(s, m);
      TrackAppend(s.log, e, m);
    }
    forall i: nat | i < |s'.conns| ensures CarriedOk(s', i) {
      assert CarriedOk(s, i);
      TrackAppend(s.log, e, s'.conns[i].mid);
    }
  }

  lemma MonitorSame(s: State, s': State)
    requires Monitored(s) && s'.log == s.log
    requires |s.conns| <= |s'.conns|
    requires forall i :: 0 <= i < |s.conns| ==> s'.conns[i] == s.conns[i]
    requires forall i :: |s.conns| <= i < |s'.conns| ==> s'.conns[i].phase == Idle
    ensures Monitored(s')
  {
    forall m: nat ensures MessageOk(s', m) { assert MessageOk(s, m); }
    forall i: nat | i < |s'.conns| ensures CarriedOk(s', i) {
      if i < |s.conns| { assert CarriedOk(s, i); }
    }
  }

  // ---------- arrival order ----------

  /** The sends on channel `c`, in the order in which they reached semaphore_wait. */
  function Arrivals(log: seq<Event>, c: nat): seq<nat> {
    if log == [] then []
    else
      var e := log[|log| - 1];
      Arrivals(log[..|log| - 1], c) + if e.Called? && e.chan == c then [e.mid] else []
  }

  /** The messages received on channel `c`, in order. */
  function Deliveries(log: seq<Event>, c: nat): seq<nat> {
    if log == [] then []
    else
      var e := log[|log| - 1];
      Deliveries(log[..|log| - 1], c) + if e.Received? && e.chan == c then [e.mid] else []
  }

  function MidOf(s: State, t: Tid): nat {
    if t < |s.cont| && s.cont[t].Sending? && s.cont[t].conn < |s.conns| then s.conns[s.cont[t].conn].mid else 0
  }

  function Mids(s: State, q: seq<Tid>): seq<nat> {
    seq(|q|, (i: nat) requires i < |q| => MidOf(s, q[i]))
  }

  /** The send that is ahead of all waiting senders: its sender holds the token, or its bytes are in the buffer. */
  function Leader(s: State, c: nat): seq<nat>
    requires c < |s.chans|
  {
    match s.chans[c].tok
    case SendFree => []
    case SendHeld(t) => [MidOf(s, t)]
    case _ => [MidAt(s, c, s.chans[c].recvid)]
  }

  ghost predicate OrderOk(s: State, c: nat)
    requires c < |s.chans| && |s.core.sems| == 2 * |s.chans|
  {
    Arrivals(s.log, c) == Deliveries(s.log, c) + Leader(s, c) + Mids(s, s.core.sems[SendSem(c)].queue)
  }

  ghost predicate Untouched(log: seq<Event>, c: nat) {
    Arrivals(log, c) == [] && Deliveries(log, c) == []
  }

  ghost predicate Ordered(s: State)
    requires |s.core.sems| == 2 * |s.chans|
  {
    && (forall c: nat :: c < |s.chans| ==> OrderOk(s, c))
    && (forall c: nat :: c >= |s.chans| ==> Untouched(s.log, c))
  }

  lemma OrderAppend(log: seq<Event>, e: Event, c: nat)
    ensures Arrivals(log + [e], c) == Arrivals(log, c) + if e.Called? && e.chan == c then [e.mid] else []
    ensures Deliveries(log + [e], c) == Deliveries(log, c) + if e.Received? && e.chan == c then [e.mid] else []
  {
    assert (log + [e])[..|log|] == log;
  }

  lemma UntouchedAppend(s: State, s': State)
    requires |s.core.sems| == 2 * |s.chans| && Ordered(s) && |s'.chans| == |s.chans|
    requires |s'.log| == |s.log| + 1 && s'.log[..|s.log|] == s.log
    requires var e := s'.log[|s.log|]; e.Called? || e.Received? ==> e.chan < |s.chans|
    ensures forall c: nat :: c >= |s'.chans| ==> Untouched(s'.log, c)
  {
    var e := s'.log[|s.log|];
    assert s'.log == s.log + [e];
    forall c: nat | c >= |s.chans| ensures Untouched(s'.log, c) {
      assert Untouched(s.log, c);
      OrderAppend(s.log, e, c);
    }
  }

  ghost predicate Good(s: State) {
    Protocol(s) && Monitored(s) && Ordered(s)
  }

  // ---------- each path keeps the monitor ----------

  lemma SendArriveMonitored(s: State, j: nat, cap: nat)
    requires Good(s) && MaySend(s, j)
    ensures Monitored(SendArrive(s, j, cap))
  {
    var s' := SendArrive(s, j, cap);
    assert MessageOk(s, |s.log|);
    MonitorStep(s, s', s'.log[|s.log|], j);
  }

  lemma DepositMonitored(s: State, bytes: Bytes)
    requires Good(s) && HoldsSend(s)
    ensures Monitored(Deposit(s, bytes))
  {
    var s' := Deposit(s, bytes);
    assert ThreadOk(s, Me(s));
    assert CarriedOk(s, s.cont[Me(s)].conn);
    MonitorStep(s, s', s'.log[|s.log|], s.cont[Me(s)].conn);
  }

  lemma DrainMonitored(s: State)
    requires Good(s) && HoldsRecv(s)
    ensures Monitored(Drain(s))
  {
    var s' := Drain(s);
    assert ThreadOk(s, Me(s));
    var c := s.cont[Me(s)].chan;
    assert TokenOk(s, c) && SlotOk(s, c, s.chans[c].recvid);
    var j := Vector.At(s.chans[c].slots, s.chans[c].recvid).value;
    assert CarriedOk(s, j) && ConnOk(s, j);
    MonitorStep(s, s', s'.log[|s.log|], j);
  }

  lemma ReplyMonitored(s: State, v: nat, status: int, data: Option<Bytes>)
    requires Good(s) && MayReply(s, v)
    ensures Monitored(Reply(s, v, status, data))
  {
    var s' := Reply(s, v, status, data);
    var c := s.home[s.pid[Me(s)]];
    assert SlotOk(s, c, v);
    var j := s.chans[c].slots[v].value;
    assert CarriedOk(s, j) && ConnOk(s, j);
    MonitorStep(s, s', s'.log[|s.log|], j);
  }

  lemma ReturnMonitored(s: State)
    requires Good(s) && Replyable(s) && W(s, Me(s)) == Ready
    ensures Monitored(Return(s))
  {
    var s' := Return(s);
    assert ThreadOk(s, Me(s));
    var j := s.cont[Me(s)].conn;
    assert CarriedOk(s, j);
    MonitorStep(s, s', s'.log[|s.log|], j);
  }

  // ---------- each path keeps the order ----------

  /** A thread waiting in a send queue is inside ipc_send on a queued connection. */
  lemma Waiter(s: State, c: nat, i: nat)
    requires Protocol(s) && c < |s.chans| && i < |s.core.sems[SendSem(c)].queue|
    ensures var t := s.core.sems[SendSem(c)].queue[i];
            && t < |s.cont| && s.cont[t].Sending? && W(s, t) == OnSem(SendSem(c))
            && s.cont[t].conn < |s.conns| && s.conns[s.cont[t].conn].phase == Queued
            && s.conns[s.cont[t].conn].owner == t && s.conns[s.cont[t].conn].chan == c
  {
    WaitersInRange(s.core, SendSem(c));
    var t := s.core.sems[SendSem(c)].queue[i];
    assert t in s.core.sems[SendSem(c)].queue;
    assert ThreadOk(s, t);
  }

  /** The sends under way on channel `c` keep their continuations and their names. */
  ghost predicate Undisturbed(s: State, s': State, c: nat) {
    && |s.cont| <= |s'.cont| && |s.conns| <= |s'.conns|
    && (forall t: Tid ::
          t < |s.cont| && s.cont[t].Sending? && s.cont[t].conn < |s.conns| && s.conns[s.cont[t].conn].chan == c ==>
            s'.cont[t] == s.cont[t])
    && (forall j: nat ::
          j < |s.conns| && s.conns[j].chan == c && s.conns[j].phase in {Queued, Deposited} ==>
            s'.conns[j].mid == s.conns[j].mid)
  }

  lemma WaitersSame(s: State, s': State, c: nat, q: seq<Tid>)
    requires Protocol(s) && c < |s.chans| && Undisturbed(s, s', c)
    requires q <= s.core.sems[SendSem(c)].queue
    ensures Mids(s', q) == Mids(s, q)
  {
    forall i | 0 <= i < |q| ensures MidOf(s', q[i]) == MidOf(s, q[i]) {
      Waiter(s, c, i);
    }
  }

  lemma LeaderSame(s: State, s': State, c: nat)
    requires Protocol(s) && c < |s.chans| && c < |s'.chans| && Undisturbed(s, s', c)
    requires s'.chans[c].(buffer := s.chans[c].buffer) == s.chans[c]
    ensures Leader(s', c) == Leader(s, c)
  {
    assert TokenOk(s, c) && SlotOk(s, c, s.chans[c].recvid);
    match s.chans[c].tok
    case SendHeld(t) => assert ThreadOk(s, t);
    case _ =>
  }

  /** A channel whose token and waiting senders are left alone. */
  lemma OrderSame(s: State, s': State, c: nat)
    requires Protocol(s) && |s'.core.sems| == 2 * |s'.chans|
    requires c < |s.chans| && c < |s'.chans| && OrderOk(s, c) && Undisturbed(s, s', c)
    requires Arrivals(s'.log, c) == Arrivals(s.log, c) && Deliveries(s'.log, c) == Deliveries(s.log, c)
    requires s'.core.sems[SendSem(c)].queue == s.core.sems[SendSem(c)].queue
    requires Leader(s', c) == Leader(s, c)
    ensures OrderOk(s', c)
  {
    WaitersSame(s, s', c, s.core.sems[SendSem(c)].queue);
  }

  /** A sender that finds no token goes behind the other waiting senders. */
  lemma SendArriveMids(s: State, j: nat, cap: nat, c: nat)
    requires Good(s) && MaySend(s, j) && c == s.conns[j].chan < |s.chans|
    requires Shape(SendArrive(s, j, cap)) && |SendArrive(s, j, cap).chans| == |s.chans|
    requires |s.core.sems| == 2 * |s.chans| && !Free(s.core, SendSem(c))
    ensures var s', q := SendArrive(s, j, cap), s.core.sems[SendSem(c)].queue;
            && s'.core.sems[SendSem(c)].queue == q + [Me(s)]
            && Mids(s', q + [Me(s)]) == Mids(s, q) + [|s.log|]
            && Leader(s', c) == Leader(s, c)
  {
    var s', q := SendArrive(s, j, cap), s.core.sems[SendSem(c)].queue;
    assert TokenOk(s, c);
    WaitCore(s.core, SendSem(c));
    assert Undisturbed(s, s', c);
    LeaderSame(s, s', c);
    WaitersSame(s, s', c, q);
    assert Mids(s', q + [Me(s)]) == Mids(s', q) + [|s.log|];
  }

  lemma SendArriveOrder(s: State, j: nat, cap: nat, c: nat)
    requires Good(s) && MaySend(s, j) && c == s.conns[j].chan < |s.chans|
    requires Shape(SendArrive(s, j, cap)) && |SendArrive(s, j, cap).chans| == |s.chans|
    ensures OrderOk(SendArrive(s, j, cap), c)
  {
    var s' := SendArrive(s, j, cap);
    assert OrderOk(s, c) && TokenOk(s, c);
    OrderAppend(s.log, s'.log[|s.log|], c);
    WaitCore(s.core, SendSem(c));
    if Free(s.core, SendSem(c)) {
      assert s.core.sems[SendSem(c)].queue == [];
    } else {
      SendArriveMids(s, j, cap, c);
    }
  }

  lemma SendArriveOtherOrder(s: State, j: nat, cap: nat, d: nat)
    requires Good(s) && MaySend(s, j) && d < |s.chans| && d != s.conns[j].chan
    requires Shape(SendArrive(s, j, cap)) && |SendArrive(s, j, cap).chans| == |s.chans|
    ensures OrderOk(SendArrive(s, j, cap), d)
  {
    var s' := SendArrive(s, j, cap);
    assert ConnOk(s, j) && OrderOk(s, d);
    OrderAppend(s.log, s'.log[|s.log|], d);
    WaitCore(s.core, SendSem(s.conns[j].chan));
    assert Undisturbed(s, s', d);
    LeaderSame(s, s', d);
    OrderSame(s, s', d);
  }

  lemma RecvArriveOrder(s: State, c: nat, cap: nat, d: nat)
    requires Good(s) && InUser(s) && c < |s.chans| && d < |s.chans|
    requires Shape(RecvArrive(s, c, cap)) && |RecvArrive(s, c, cap).chans| == |s.chans|
    ensures OrderOk(RecvArrive(s, c, cap), d)
  {
    var s' := RecvArrive(s, c, cap);
    assert OrderOk(s, d) && TokenOk(s, d);
    WaitCore(s.core, RecvSem(c));
    assert Undisturbed(s, s', d);
    if c != d || !Free(s.core, RecvSem(c)) { LeaderSame(s, s', d); }
    OrderSame(s, s', d);
  }

  lemma DepositMids(s: State, bytes: Bytes, c: nat)
    requires Good(s) && HoldsSend(s) && ThreadOk(s, Me(s)) && c == s.conns[s.cont[Me(s)].conn].chan
    requires Shape(Deposit(s, bytes)) && |s.core.sems| == 2 * |s.chans| && c < |s.chans|
    ensures var q := s.core.sems[SendSem(c)].queue; Mids(Deposit(s, bytes), q) == Mids(s, q)
  {
    var s' := Deposit(s, bytes);
    var q := s.core.sems[SendSem(c)].queue;
    assert TokenOk(s, c);
    forall i | 0 <= i < |q| ensures MidOf(s', q[i]) == MidOf(s, q[i]) { Waiter(s, c, i); }
    assert Mids(s', q) == Mids(s, q);
  }

  lemma DepositOrder(s: State, bytes: Bytes, c: nat)
    requires Good(s) && HoldsSend(s) && ThreadOk(s, Me(s)) && c == s.conns[s.cont[Me(s)].conn].chan
    requires Shape(Deposit(s, bytes)) && |Deposit(s, bytes).chans| == |s.chans|
    ensures OrderOk(Deposit(s, bytes), c)
  {
    var s', t := Deposit(s, bytes), Me(s);
    var j := s.cont[t].conn;
    assert OrderOk(s, c) && TokenOk(s, c);
    OrderAppend(s.log, s'.log[|s.log|], c);
    DepositCore(s, bytes, c);
    Vector.AddedIsUpdate(s.chans[c].slots, Some(j), Vector.FirstNull(s.chans[c].slots));
    DepositMids(s, bytes, c);
  }

  lemma DepositOtherOrder(s: State, bytes: Bytes, c: nat, d: nat)
    requires Good(s) && HoldsSend(s) && ThreadOk(s, Me(s)) && c == s.conns[s.cont[Me(s)].conn].chan
    requires Shape(Deposit(s, bytes)) && d < |s.chans| == |Deposit(s, bytes).chans| && d != c
    ensures OrderOk(Deposit(s, bytes), d)
  {
    var s' := Deposit(s, bytes);
    assert OrderOk(s, d);
    OrderAppend(s.log, s'.log[|s.log|], d);
    DepositCore(s, bytes, c);
    assert Undisturbed(s, s', d);
    LeaderSame(s, s', d);
    OrderSame(s, s', d);
  }

  lemma DrainOrder(s: State, d: nat)
    requires Good(s) && HoldsRecv(s) && d < |s.chans|
    requires Shape(Drain(s)) && |Drain(s).chans| == |s.chans|
    ensures OrderOk(Drain(s), d)
  {
    var s', t := Drain(s), Me(s);
    assert ThreadOk(s, t);
    var c := s.cont[t].chan;
    assert OrderOk(s, d) && TokenOk(s, d) && TokenOk(s, c);
    assert SlotOk(s, c, s.chans[c].recvid);
    OrderAppend(s.log, s'.log[|s.log|], d);
    assert Undisturbed(s, s', d);
    var q := s.core.sems[SendSem(d)].queue;
    if c != d {
      LeaderSame(s, s', d);
      OrderSame(s, s', d);
    } else {
      WaitersSame(s, s', d, q);
      if q != [] { assert Mids(s', q) == [MidOf(s', q[0])] + Mids(s', q[1..]); }
    }
  }

  lemma ReplyOrder(s: State, v: nat, status: int, data: Option<Bytes>, d: nat)
    requires Good(s) && MayReply(s, v) && d < |s.chans|
    requires Shape(Reply(s, v, status, data)) && |Reply(s, v, status, data).chans| == |s.chans|
    ensures OrderOk(Reply(s, v, status, data), d)
  {
    var s' := Reply(s, v, status, data);
    var c := s.home[s.pid[Me(s)]];
    assert OrderOk(s, d) && TokenOk(s, d) && SlotOk(s, c, v) && SlotOk(s, d, s.chans[d].recvid);
    OrderAppend(s.log, s'.log[|s.log|], d);
    assert Undisturbed(s, s', d);
    OrderSame(s, s', d);
  }

  lemma ReturnOrder(s: State, d: nat)
    requires Good(s) && Replyable(s) && d < |s.chans|
    ensures OrderOk(Return(s), d)
  {
    var s' := Return(s);
    assert ThreadOk(s, Me(s)) && OrderOk(s, d);
    OrderAppend(s.log, s'.log[|s.log|], d);
    assert Undisturbed(s, s', d);
    LeaderSame(s, s', d);
    OrderSame(s, s', d);
  }

  // ---------- every path keeps everything ----------

  lemma SendArriveGood(s: State, j: nat, cap: nat)
    requires Good(s) && MaySend(s, j)
    ensures Good(SendArrive(s, j, cap))
  {
    assert ConnOk(s, j);
    SendArriveKeeps(s, j, cap);
    UntouchedAppend(s, SendArrive(s, j, cap));
    SendArriveMonitored(s, j, cap);
    forall d: nat | d < |s.chans| ensures OrderOk(SendArrive(s, j, cap), d) {
      if d == s.conns[j].chan { SendArriveOrder(s, j, cap, d); } else { SendArriveOtherOrder(s, j, cap, d); }
    }
  }

  lemma DepositGood(s: State, bytes: Bytes)
    requires Good(s) && HoldsSend(s)
    ensures Good(Deposit(s, bytes))
  {
    assert ThreadOk(s, Me(s));
    DepositKeeps(s, bytes);
    UntouchedAppend(s, Deposit(s, bytes));
    DepositMonitored(s, bytes);
    var c := s.conns[s.cont[Me(s)].conn].chan;
    forall d: nat | d < |s.chans| ensures OrderOk(Deposit(s, bytes), d) {
      if d == c { DepositOrder(s, bytes, c); } else { DepositOtherOrder(s, bytes, c, d); }
    }
  }

  lemma RecvArriveGood(s: State, c: nat, cap: nat)
    requires Good(s) && InUser(s) && c < |s.chans|
    ensures Good(RecvArrive(s, c, cap))
  {
    RecvArriveKeeps(s, c, cap);
    MonitorSame(s, RecvArrive(s, c, cap));
    forall d: nat | d < |s.chans| ensures OrderOk(RecvArrive(s, c, cap), d) { RecvArriveOrder(s, c, cap, d); }
  }

  lemma DrainGood(s: State)
    requires Good(s) && HoldsRecv(s)
    ensures Good(Drain(s))
  {
    assert ThreadOk(s, Me(s));
    DrainKeeps(s);
    UntouchedAppend(s, Drain(s));
    DrainMonitored(s);
    forall d: nat | d < |s.chans| ensures OrderOk(Drain(s), d) { DrainOrder(s, d); }
  }

  lemma ReplyGood(s: State, v: nat, status: int, data: Option<Bytes>)
    requires Good(s) && MayReply(s, v)
    ensures Good(Reply(s, v, status, data))
  {
    ReplyKeeps(s, v, status, data);
    UntouchedAppend(s, Reply(s, v, status, data));
    ReplyMonitored(s, v, status, data);
    forall d: nat | d < |s.chans| ensures OrderOk(Reply(s, v, status, data), d) { ReplyOrder(s, v, status, data, d); }
  }

  lemma ReturnGood(s: State)
    requires Good(s) && Replyable(s)
    ensures Good(Return(s))
  {
    ReturnKeeps(s);
    UntouchedAppend(s, Return(s));
    assert ThreadOk(s, Me(s));
    ReturnMonitored(s);
    forall d: nat | d < |s.chans| ensures OrderOk(Return(s), d) { ReturnOrder(s, d); }
  }

  /** Steps without message events; channels and connections may only be added. */
  lemma QuietGood(s: State, s': State)
    requires Good(s) && Protocol(s') && s'.log == s.log
    requires s.cont <= s'.cont && s.conns <= s'.conns && s.chans <= s'.chans
    requires forall i :: |s.conns| <= i < |s'.conns| ==> s'.conns[i].phase == Idle
    requires forall i :: |s.core.sems| <= i < |s'.core.sems| ==> s'.core.sems[i].queue == []
    requires forall i :: 0 <= i < |s.core.sems| ==> s'.core.sems[i] == s.core.sems[i]
    requires forall d :: |s.chans| <= d < |s'.chans| ==> s'.chans[d].tok == SendFree
    ensures Good(s')
  {
    MonitorSame(s, s');
    forall d: nat | d < |s'.chans| ensures OrderOk(s', d) {
      if d < |s.chans| {
        assert OrderOk(s, d) && Undisturbed(s, s', d);
        LeaderSame(s, s', d);
        OrderSame(s, s', d);
      } else {
        assert Untouched(s.log, d);
      }
    }
  }

  // ---------- steps and runs ----------

  datatype Label =
    | DoTick
    | DoExit
    | DoClone(pid: nat)
    | DoListen
    | DoConnect(chan: nat)
    | DoSend(conn: nat, bytes: Bytes, cap: nat)
    | DoReceive(chan: nat, cap: nat)
    | DoReply(recvid: nat, status: int, data: Option<Bytes>)
    | DoResume(bytes: Bytes)

  /**
   * Which kernel paths can start in `s`.  Timer ticks and process creation may also hit
   * the idle loop; a thread suspended in the kernel can only be resumed.
   */
  ghost predicate Enabled(s: State, l: Label) {
    match l
    case DoTick => s.core.cur == None || InUser(s)
    case DoExit => InUser(s)
    case DoClone(_) => s.core.cur == None || InUser(s)
    case DoListen => MayListen(s)
    case DoConnect(c) => InUser(s) && Me(s) < |s.pid| && c < |s.chans|
    case DoSend(j, _, _) => MaySend(s, j)
    case DoReceive(c, _) => InUser(s) && c < |s.chans|
    case DoReply(v, _, _) => MayReply(s, v)
    case DoResume(_) => s.core.cur.Some? && !InUser(s)
  }

  /** The kernel path from `l` to the next scheduler_switch or the return to user mode. */
  ghost function Step(s: State, l: Label): State
    requires Protocol(s) && Enabled(s, l)
  {
    match l
    case DoTick => Tick(s)
    case DoExit => Exit(s)
    case DoClone(p) => Clone(s, p)
    case DoListen => Listen(s)
    case DoConnect(c) => Connect(s, c)
    case DoSend(j, bytes, cap) =>
      SendArriveKeeps(s, j, cap);
      assert ConnOk(s, j);
      if Free(s.core, SendSem(s.conns[j].chan)) then Deposit(SendArrive(s, j, cap), bytes) else SendArrive(s, j, cap)
    case DoReceive(c, cap) =>
      RecvArriveKeeps(s, c, cap);
      if Free(s.core, RecvSem(c)) then Drain(RecvArrive(s, c, cap)) else RecvArrive(s, c, cap)
    case DoReply(v, status, data) => Reply(s, v, status, data)
    case DoResume(bytes) =>
      match s.cont[Me(s)]
      case Sending(_) => Deposit(s, bytes)
      case Receiving(_, _) => Drain(s)
      case Awaiting(_) => Return(s)
  }

  /** A send is the arrival and, with the token free, the storing of the message. */
  lemma SendSteps(s: State, j: nat, bytes: Bytes, cap: nat)
    requires Protocol(s) && MaySend(s, j)
    ensures ConnOk(s, j) && SendSem(s.conns[j].chan) < |s.core.sems|
    ensures var a := SendArrive(s, j, cap);
            if Free(s.core, SendSem(s.conns[j].chan)) then
              Protocol(a) && HoldsSend(a) && Step(s, DoSend(j, bytes, cap)) == Deposit(a, bytes)
            else Step(s, DoSend(j, bytes, cap)) == a
  {
    assert ConnOk(s, j);
    SendArriveKeeps(s, j, cap);
  }

  /** A receive is the arrival and, with the token free, the taking of the message. */
  lemma ReceiveSteps(s: State, c: nat, cap: nat)
    requires Protocol(s) && InUser(s) && c < |s.chans|
    ensures RecvSem(c) < |s.core.sems|
    ensures var a := RecvArrive(s, c, cap);
            if Free(s.core, RecvSem(c)) then Protocol(a) && HoldsRecv(a) && Step(s, DoReceive(c, cap)) == Drain(a)
            else Step(s, DoReceive(c, cap)) == a
  {
    RecvArriveKeeps(s, c, cap);
  }

  lemma StepGood(s: State, l: Label)
    requires Good(s) && Enabled(s, l)
    ensures Good(Step(s, l))
  {
    match l
    case DoTick => TickKeeps(s); ScheduleStill(s.core); QuietGood(s, Tick(s));
    case DoExit => ExitKeeps(s); BlockStill(s.core, Dead); QuietGood(s, Exit(s));
    case DoClone(p) => CloneKeeps(s, p); QuietGood(s, Clone(s, p));
    case DoListen => ListenKeeps(s); QuietGood(s, Listen(s));
    case DoConnect(c) => ConnectKeeps(s, c); QuietGood(s, Connect(s, c));
    case DoSend(j, bytes, cap) =>
      assert ConnOk(s, j);
      SendArriveGood(s, j, cap);
      if Free(s.core, SendSem(s.conns[j].chan)) { DepositGood(SendArrive(s, j, cap), bytes); }
    case DoReceive(c, cap) =>
      RecvArriveGood(s, c, cap);
      if Free(s.core, RecvSem(c)) { DrainGood(RecvArrive(s, c, cap)); }
    case DoReply(v, status, data) => ReplyGood(s, v, status, data);
    case DoResume(bytes) =>
      match s.cont[Me(s)]
      case Sending(_) => DepositGood(s, bytes);
      case Receiving(_, _) => DrainGood(s);
      case Awaiting(_) => ReturnGood(s);
  }

  /** The invariant is what Step needs, and RunGood shows that it always holds: nothing here presupposes it. */
  ghost predicate Next(s: State, l: Label, s': State) {
    Protocol(s) ==> Enabled(s, l) && s' == Step(s, l)
  }

  /** `ss` are the states of a run with steps `ls`. */
  ghost predicate Run(ss: seq<State>, ls: seq<Label>) {
    && |ss| == |ls| + 1
    && ss[0] == INIT
    && forall i {:trigger ls[i]} :: 0 <= i < |ls| ==> Next(ss[i], ls[i], ss[i + 1])
  }

  /** Every state of every run satisfies the invariant. */
  lemma {:induction false} RunGood(ss: seq<State>, ls: seq<Label>, i: nat)
    requires Run(ss, ls) && i < |ss|
    ensures Good(ss[i])
  {
    if i == 0 {
      forall m: nat ensures MessageOk(INIT, m) { }
      forall c: nat ensures Untouched(INIT.log, c) { }
    } else {
      RunGood(ss, ls, i - 1);
      assert Next(ss[i - 1], ls[i - 1], ss[i]);
      StepGood(ss[i - 1], ls[i - 1]);
    }
  }

  // ---------- exactly once ----------

  /** The events about message `m`, in order. */
  function About(log: seq<Event>, m: nat): seq<Event> {
    if log == [] then []
    else
      var e := log[|log| - 1];
      About(log[..|log| - 1], m) + if e.mid == m then [e] else []
  }

  /**
   * One send, one store, one receive that drains the stored bytes, one reply on the
   * recvid of that receive, and one return with the status and data of that reply.
   */
  predicate Life(es: seq<Event>) {
    && |es| <= 5
    && (|es| > 0 ==> es[0].Called?)
    && (|es| > 1 ==> es[1].Stored? && es[1].chan == es[0].chan)
    && (|es| > 2 ==> es[2].Received? && es[2].chan == es[0].chan && es[2].recvid == es[1].recvid
                     && es[2].bytes <= es[1].bytes
                     && |es[2].bytes| == if |es[1].bytes| <= es[2].cap then |es[1].bytes| else es[2].cap)
    && (|es| > 3 ==> es[3].Replied? && es[3].chan == es[0].chan && es[3].recvid == es[2].recvid)
    && (|es| > 4 ==> es[4].Returned? && es[4].t == es[0].t && es[4].conn == es[0].conn
                     && es[4].status == es[3].status
                     && var answer := if es[3].data.Some? then es[3].data.value else [];
                        es[4].bytes <= answer && |es[4].bytes| == if |answer| <= es[0].cap then |answer| else es[0].cap)
  }

  /** What the monitor reports after a life of these events. */
  function Reached(es: seq<Event>): Progress
    requires Life(es)
  {
    if |es| == 0 then Fresh
    else if |es| == 1 then Sent(es[0].t, es[0].conn, es[0].chan, es[0].cap)
    else if |es| == 2 then InBuffer(es[0].t, es[0].conn, es[0].chan, es[0].cap, es[1].recvid, es[1].bytes)
    else if |es| == 3 then InServer(es[0].t, es[0].conn, es[0].chan, es[0].cap, es[1].recvid)
    else if |es| == 4 then
      HasReply(es[0].t, es[0].conn, es[0].chan, es[0].cap, es[3].status,
               if es[3].data.Some? then es[3].data.value else [])
    else Finished
  }

  lemma {:induction false} MonitorSound(log: seq<Event>, m: nat)
    requires Track(log, m) != Broken
    ensures Life(About(log, m)) && Track(log, m) == Reached(About(log, m))
  {
    if log != [] {
      MonitorSound(log[..|log| - 1], m);
    }
  }

  lemma {:induction false} AboutHas(log: seq<Event>, k: nat)
    requires k < |log|
    ensures log[k] in About(log, log[k].mid)
  {
    if k < |log| - 1 {
      AboutHas(log[..|log| - 1], k);
    }
  }

  /**
   * In every state of every run, the events about any message are one life or the
   * beginning of one; a send that has returned has had the whole of it.
   */
  lemma ExactlyOnce(ss: seq<State>, ls: seq<Label>, i: nat, m: nat)
    requires Run(ss, ls) && i < |ss|
    ensures var es := About(ss[i].log, m);
            Life(es) && forall k :: 0 <= k < |ss[i].log| && ss[i].log[k].mid == m && ss[i].log[k].Returned? ==>
              |es| == 5 && es[4] == ss[i].log[k]
    ensures var es := About(ss[i].log, m);
            |es| == 5 ==>
              && es[0].Called? && es[1].Stored? && es[2].Received? && es[3].Replied? && es[4].Returned?
              && es[1].chan == es[0].chan && es[2].chan == es[0].chan && es[3].chan == es[0].chan
              && es[2].recvid == es[1].recvid && es[3].recvid == es[2].recvid
              && es[4].t == es[0].t && es[4].conn == es[0].conn && es[4].status == es[3].status
              && es[2].bytes <= es[1].bytes
              && |es[2].bytes| == (if |es[1].bytes| <= es[2].cap then |es[1].bytes| else es[2].cap)
              && var answer := if es[3].data.Some? then es[3].data.value else [];
                 es[4].bytes <= answer && |es[4].bytes| == if |answer| <= es[0].cap then |answer| else es[0].cap
  {
    RunGood(ss, ls, i);
    assert MessageOk(ss[i], m);
    var log := ss[i].log;
    MonitorSound(log, m);
    forall k | 0 <= k < |log| && log[k].mid == m && log[k].Returned?
      ensures |About(log, m)| == 5 && About(log, m)[4] == log[k]
    {
      AboutHas(log, k);
    }
  }

  /** A recvid names one message as long as that message is stored and not replied to. */
  lemma DistinctRecvids(ss: seq<State>, ls: seq<Label>, i: nat, m: nat, n: nat)
    requires Run(ss, ls) && i < |ss|
    requires Track(ss[i].log, m).InBuffer? || Track(ss[i].log, m).InServer?
    requires Track(ss[i].log, n).InBuffer? || Track(ss[i].log, n).InServer?
    requires Track(ss[i].log, m).chan == Track(ss[i].log, n).chan
    requires Track(ss[i].log, m).recvid == Track(ss[i].log, n).recvid
    ensures m == n
  {
    RunGood(ss, ls, i);
    var s := ss[i];
    assert MessageOk(s, m) && MessageOk(s, n);
    var a, b := Track(s.log, m).conn, Track(s.log, n).conn;
    assert CarriedOk(s, a) && CarriedOk(s, b) && ConnOk(s, a) && ConnOk(s, b);
  }

  // ---------- arrival order ----------

  /** On every channel the messages received so far are the first ones sent, in the order of the sends. */
  lemma InOrder(ss: seq<State>, ls: seq<Label>, i: nat, c: nat)
    requires Run(ss, ls) && i < |ss|
    ensures Deliveries(ss[i].log, c) <= Arrivals(ss[i].log, c)
  {
    RunGood(ss, ls, i);
    if c < |ss[i].chans| { assert OrderOk(ss[i], c); } else { assert Untouched(ss[i].log, c); }
  }

  // ---------- one token per channel ----------

  /** Threads that were handed the send token of `c` and have not stored their message yet. */
  ghost function SendersHolding(s: State, c: nat): set<Tid>
    requires Shape(s)
  {
    set t: Tid | 0 <= t < |s.cont| && s.cont[t].Sending? && W(s, t) == Ready
                 && s.cont[t].conn < |s.conns| && s.conns[s.cont[t].conn].chan == c
  }

  ghost function ReceiversHolding(s: State, c: nat): set<Tid>
    requires Shape(s)
  {
    set t: Tid | 0 <= t < |s.cont| && s.cont[t].Receiving? && W(s, t) == Ready && s.cont[t].chan == c
  }

  lemma OneToken(ss: seq<State>, ls: seq<Label>, i: nat, c: nat)
    requires Run(ss, ls) && i < |ss| && c < |ss[i].chans|
    ensures Shape(ss[i])
    ensures var send, recv := ss[i].core.sems[SendSem(c)], ss[i].core.sems[RecvSem(c)];
            var ns, nr := |SendersHolding(ss[i], c)|, |ReceiversHolding(ss[i], c)|;
            && send.count + recv.count + ns + nr == 1
            && send.count >= 0 && recv.count >= 0
            && (send.count > 0 ==> send.queue == []) && (recv.count > 0 ==> recv.queue == [])
            && (ss[i].chans[c].buffer.Some? <==> recv.count + nr == 1)
  {
    RunGood(ss, ls, i);
    var s := ss[i];
    assert TokenOk(s, c);
    var S, R := SendersHolding(s, c), ReceiversHolding(s, c);
    forall t | t in S ensures s.chans[c].tok == SendHeld(t) { assert ThreadOk(s, t); }
    forall t | t in R ensures s.chans[c].tok == RecvHeld(t) { assert ThreadOk(s, t); }
    match s.chans[c].tok
    case SendHeld(t) => assert S == {t} && R == {};
    case RecvHeld(t) => assert S == {} && R == {t};
    case _ => assert S == {} && R == {};
  }

  // ---------- one place per thread ----------

  /** The reply slots whose connection belongs to thread `t`. */
  ghost predicate RepliesTo(s: State, c: nat, v: nat, t: Tid)
    requires c < |s.chans|
  {
    var x := Vector.At(s.chans[c].slots, v);
    x.Some? && x.value < |s.conns| && s.conns[x.value].owner == t
  }

  /** A thread in STATE_REPLY owns the connection in its one reply slot, and no other thread owns one. */
  lemma SlotOwner(s: State, t: Tid)
    requires Protocol(s) && t < |s.core.where|
    ensures s.core.where[t] == OnReply <==> exists c: nat, v: nat :: c < |s.chans| && RepliesTo(s, c, v, t)
    ensures forall c: nat, v: nat, d: nat, x: nat ::
              c < |s.chans| && d < |s.chans| && RepliesTo(s, c, v, t) && RepliesTo(s, d, x, t) ==> c == d && v == x
  {
    assert ThreadOk(s, t);
    if s.core.where[t] == OnReply {
      var j := s.cont[t].conn;
      assert ConnOk(s, j);
      assert RepliesTo(s, s.conns[j].chan, s.conns[j].recvid, t);
    }
    forall c: nat, v: nat | c < |s.chans| && RepliesTo(s, c, v, t)
      ensures s.core.where[t] == OnReply && s.cont[t] == Awaiting(s.chans[c].slots[v].value)
      ensures s.conns[s.cont[t].conn].chan == c && s.conns[s.cont[t].conn].recvid == v
    {
      assert SlotOk(s, c, v) && ConnOk(s, s.chans[c].slots[v].value);
    }
  }

  /** The same in every state of every run. */
  lemma OneReplySlot(ss: seq<State>, ls: seq<Label>, i: nat, t: Tid)
    requires Run(ss, ls) && i < |ss| && t < |ss[i].core.where|
    ensures Settled(ss[i].core)
    ensures ss[i].core.where[t] == OnReply <==>
            exists c: nat, v: nat :: c < |ss[i].chans| && RepliesTo(ss[i], c, v, t)
    ensures forall c: nat, v: nat, d: nat, x: nat ::
              c < |ss[i].chans| && d < |ss[i].chans| && RepliesTo(ss[i], c, v, t) && RepliesTo(ss[i], d, x, t) ==>
                c == d && v == x
  {
    RunGood(ss, ls, i);
    SlotOwner(ss[i], t);
  }

  /**
   * Thread ownership: in every state of every run each thread is in exactly one place, the one its state names: it
   * has the CPU, or it is once in the ready queue, or once in one semaphore queue, or it owns the connection in one
   * reply slot of one channel, or it is dead and in none of these.
   */
  lemma ThreadOwnership(ss: seq<State>, ls: seq<Label>, i: nat, t: Tid)
    requires Run(ss, ls) && i < |ss| && t < |ss[i].core.where|
    ensures var s, k, w := ss[i], ss[i].core, ss[i].core.where[t];
            && (k.cur == Some(t) <==> w == Running)
            && multiset(k.ready)[t] == (if w == Ready then 1 else 0)
            && (forall n: nat :: n < |k.sems| ==> multiset(k.sems[n].queue)[t] == if w == OnSem(n) then 1 else 0)
            && (w == OnReply <==> exists c: nat, v: nat :: c < |s.chans| && RepliesTo(s, c, v, t))
            && (forall c: nat, v: nat, d: nat, x: nat ::
                  c < |s.chans| && d < |s.chans| && RepliesTo(s, c, v, t) && RepliesTo(s, d, x, t) ==> c == d && v == x)
  {
    RunGood(ss, ls, i);
    OnePlace(ss[i].core, t);
    SlotOwner(ss[i], t);
  }

  // ---------- kernel buffers ----------

  /** The message of connection `j` is in the buffer of channel `c`. */
  ghost predicate Buffers(s: State, c: nat, j: nat) {
    j < |s.conns| && s.conns[j].chan == c && s.conns[j].phase == Deposited
  }

  /**
   * In every state of every run a kernel buffer belongs to a message that is under way: a channel holds one exactly
   * when one connection's message is stored and not received, and it is that message; a connection holds one only
   * between the reply and the return of its send.
   */
  lemma HeldBuffers(ss: seq<State>, ls: seq<Label>, i: nat)
    requires Run(ss, ls) && i < |ss|
    ensures forall c: nat :: c < |ss[i].chans| ==>
              && (ss[i].chans[c].buffer.Some? <==> exists j: nat :: Buffers(ss[i], c, j))
              && (forall j: nat :: Buffers(ss[i], c, j) ==> ss[i].chans[c].buffer == Some(ss[i].conns[j].payload))
              && (forall j: nat, k: nat :: Buffers(ss[i], c, j) && Buffers(ss[i], c, k) ==> j == k)
    ensures forall j :: 0 <= j < |ss[i].conns| && ss[i].conns[j].reply != [] ==>
              && ss[i].conns[j].phase == Answered && ss[i].conns[j].owner < |ss[i].cont|
              && ss[i].cont[ss[i].conns[j].owner] == Awaiting(j)
  {
    RunGood(ss, ls, i);
    var s := ss[i];
    forall c: nat | c < |s.chans|
      ensures s.chans[c].buffer.Some? <==> exists j: nat :: Buffers(s, c, j)
      ensures forall j: nat :: Buffers(s, c, j) ==> s.chans[c].buffer == Some(s.conns[j].payload)
      ensures forall j: nat, k: nat :: Buffers(s, c, j) && Buffers(s, c, k) ==> j == k
    {
      assert TokenOk(s, c) && SlotOk(s, c, s.chans[c].recvid);
      if s.chans[c].buffer.Some? {
        assert Buffers(s, c, Vector.At(s.chans[c].slots, s.chans[c].recvid).value);
      }
      forall j: nat | Buffers(s, c, j)
        ensures s.chans[c].buffer == Some(s.conns[j].payload)
        ensures Vector.At(s.chans[c].slots, s.chans[c].recvid) == Some(j)
      {
        assert ConnOk(s, j);
      }
    }
    forall j | 0 <= j < |s.conns| && s.conns[j].reply != []
      ensures s.conns[j].phase == Answered && s.conns[j].owner < |s.cont| && s.cont[s.conns[j].owner] == Awaiting(j)
    {
      assert ConnOk(s, j);
    }
  }

  // ---------- which channel a reply goes through ----------

  /** Every channel is that of its process, and every process with a channel has that one. */
  ghost predicate Homes(s: State) {
    && (forall p :: p in s.home ==> s.home[p] < |s.chans| && s.chans[s.home[p]].pid == p)
    && (forall c :: 0 <= c < |s.chans| ==> s.chans[c].pid in s.home && s.home[s.chans[c].pid] == c)
  }

  /** The call is by a thread of the process that has the connection, or the reply by one of the channel's process. */
  ghost predicate ByOwner(s: State, e: Event) {
    && (e.Replied? ==> e.t < |s.pid| && e.chan < |s.chans| && s.pid[e.t] == s.chans[e.chan].pid)
    && (e.Called? ==> e.t < |s.pid| && e.conn < |s.conns| && s.pid[e.t] == s.conns[e.conn].pid)
  }

  ghost predicate Repliers(s: State) {
    forall k :: 0 <= k < |s.log| ==> ByOwner(s, s.log[k])
  }

  /** Nothing changes the process of a thread or a channel, and a reply is the only event that is a reply. */
  lemma HomesStay(s: State, s': State)
    requires Homes(s) && Repliers(s) && s'.home == s.home && s.pid <= s'.pid && |s'.chans| == |s.chans|
    requires forall c :: 0 <= c < |s.chans| ==> s'.chans[c].pid == s.chans[c].pid
    requires |s'.conns| >= |s.conns| && forall j :: 0 <= j < |s.conns| ==> s'.conns[j].pid == s.conns[j].pid
    requires s.log <= s'.log && |s'.log| <= |s.log| + 1
    requires |s'.log| > |s.log| ==> ByOwner(s, s'.log[|s.log|])
    ensures Homes(s') && Repliers(s')
  {
    forall k | 0 <= k < |s'.log| ensures ByOwner(s', s'.log[k]) {
      if k < |s.log| { assert s'.log[k] == s.log[k]; }
    }
  }

  lemma DepositHomes(s: State, bytes: Bytes)
    requires Protocol(s) && HoldsSend(s) && Homes(s) && Repliers(s)
    ensures Homes(Deposit(s, bytes)) && Repliers(Deposit(s, bytes))
  {
    assert ThreadOk(s, Me(s));
    HomesStay(s, Deposit(s, bytes));
  }

  lemma DrainHomes(s: State)
    requires Protocol(s) && HoldsRecv(s) && Homes(s) && Repliers(s)
    ensures Homes(Drain(s)) && Repliers(Drain(s))
  {
    assert ThreadOk(s, Me(s)) && TokenOk(s, s.cont[Me(s)].chan);
    HomesStay(s, Drain(s));
  }

  lemma ListenHomes(s: State)
    requires Protocol(s) && MayListen(s) && Homes(s) && Repliers(s)
    ensures Homes(Listen(s)) && Repliers(Listen(s))
  {
  }

  lemma SendHomes(s: State, j: nat, bytes: Bytes, cap: nat)
    requires Protocol(s) && MaySend(s, j) && Homes(s) && Repliers(s)
    ensures var s' := Step(s, DoSend(j, bytes, cap)); Homes(s') && Repliers(s')
  {
    SendSteps(s, j, bytes, cap);
    HomesStay(s, SendArrive(s, j, cap));
    if Free(s.core, SendSem(s.conns[j].chan)) { DepositHomes(SendArrive(s, j, cap), bytes); }
  }

  lemma ReceiveHomes(s: State, c: nat, cap: nat)
    requires Protocol(s) && InUser(s) && c < |s.chans| && Homes(s) && Repliers(s)
    ensures var s' := Step(s, DoReceive(c, cap)); Homes(s') && Repliers(s')
  {
    ReceiveSteps(s, c, cap);
    HomesStay(s, RecvArrive(s, c, cap));
    if Free(s.core, RecvSem(c)) { DrainHomes(RecvArrive(s, c, cap)); }
  }

  lemma ReplyHomes(s: State, v: nat, status: int, data: Option<Bytes>)
    requires Protocol(s) && MayReply(s, v) && Homes(s) && Repliers(s)
    ensures Homes(Reply(s, v, status, data)) && Repliers(Reply(s, v, status, data))
  {
    HomesStay(s, Reply(s, v, status, data));
  }

  lemma ResumeHomes(s: State, bytes: Bytes)
    requires Protocol(s) && Enabled(s, DoResume(bytes)) && Homes(s) && Repliers(s)
    ensures var s' := Step(s, DoResume(bytes)); Homes(s') && Repliers(s')
  {
    assert ThreadOk(s, Me(s));
    match s.cont[Me(s)]
    case Sending(_) => DepositHomes(s, bytes);
    case Receiving(_, _) => DrainHomes(s);
    case Awaiting(_) => HomesStay(s, Return(s));
  }

  lemma StepHomes(s: State, l: Label)
    requires Protocol(s) && Enabled(s, l) && Homes(s) && Repliers(s)
    ensures Homes(Step(s, l)) && Repliers(Step(s, l))
  {
    match l
    case DoListen => ListenHomes(s);
    case DoSend(j, bytes, cap) => SendHomes(s, j, bytes, cap);
    case DoReceive(c, cap) => ReceiveHomes(s, c, cap);
    case DoReply(v, status, data) => ReplyHomes(s, v, status, data);
    case DoResume(bytes) => ResumeHomes(s, bytes);
    case _ => HomesStay(s, Step(s, l));
  }

  /**
   * In every state of every run the channel of a process is the one that it listens on, and all replies so far were
   * made by threads of the process whose channel they answered on.
   */
  lemma {:induction false} RepliesAtHome(ss: seq<State>, ls: seq<Label>, i: nat)
    requires Run(ss, ls) && i < |ss|
    ensures forall p :: p in ss[i].home ==> ss[i].home[p] < |ss[i].chans| && ss[i].chans[ss[i].home[p]].pid == p
    ensures forall c :: 0 <= c < |ss[i].chans| ==>
              ss[i].chans[c].pid in ss[i].home && ss[i].home[ss[i].chans[c].pid] == c
    ensures forall k :: 0 <= k < |ss[i].log| && ss[i].log[k].Replied? ==>
              && ss[i].log[k].t < |ss[i].pid| && ss[i].log[k].chan < |ss[i].chans|
              && ss[i].pid[ss[i].log[k].t] == ss[i].chans[ss[i].log[k].chan].pid
    ensures forall k :: 0 <= k < |ss[i].log| && ss[i].log[k].Called? ==>
              && ss[i].log[k].t < |ss[i].pid| && ss[i].log[k].conn < |ss[i].conns|
              && ss[i].pid[ss[i].log[k].t] == ss[i].conns[ss[i].log[k].conn].pid
    ensures Homes(ss[i]) && Repliers(ss[i])
  {
    if i > 0 {
      RepliesAtHome(ss, ls, i - 1);
      RunGood(ss, ls, i - 1);
      assert Next(ss[i - 1], ls[i - 1], ss[i]);
      StepHomes(ss[i - 1], ls[i - 1]);
    }
  }

  /** A process gets the channel that it listens on, and no other process's channel changes. */
  lemma ListenGives(s: State)
    requires Protocol(s) && MayListen(s)
    ensures var s', p := Listen(s), s.pid[Me(s)];
            && |s'.chans| == |s.chans| + 1 && p in s'.home && s'.home[p] == |s.chans|
            && s'.chans[s'.home[p]].pid == p
            && (forall q :: q in s.home ==> q in s'.home && s'.home[q] == s.home[q])
            && (forall c :: 0 <= c < |s.chans| ==> s'.chans[c] == s.chans[c])
  {
  }

  // ---------- the ready queue ----------

  /** What is left of the queues when scheduler_schedule finds nobody. */
  ghost predicate Fair(k: Core, k': Core) {
    Shifts(k, k') && (k'.switches > k.switches && k'.cur == None ==> k'.ready == [])
  }

  lemma DepositFair(s: State, bytes: Bytes)
    requires Protocol(s) && HoldsSend(s)
    ensures Fair(s.core, Deposit(s, bytes).core)
  {
    assert ThreadOk(s, Me(s));
    var c := s.conns[s.cont[Me(s)].conn].chan;
    SignalKeeps(s.core, RecvSem(c));
    BlockShifts(Signal(s.core, RecvSem(c)), OnReply);
  }

  lemma SendFair(s: State, j: nat, bytes: Bytes, cap: nat)
    requires Protocol(s) && MaySend(s, j)
    ensures Fair(s.core, Step(s, DoSend(j, bytes, cap)).core)
  {
    assert ConnOk(s, j);
    SendArriveKeeps(s, j, cap);
    if Free(s.core, SendSem(s.conns[j].chan)) {
      DepositFair(SendArrive(s, j, cap), bytes);
    } else {
      WaitShifts(s.core, SendSem(s.conns[j].chan));
    }
  }

  lemma ReceiveFair(s: State, c: nat, cap: nat)
    requires Protocol(s) && InUser(s) && c < |s.chans|
    ensures Fair(s.core, Step(s, DoReceive(c, cap)).core)
  {
    RecvArriveKeeps(s, c, cap);
    if !Free(s.core, RecvSem(c)) { WaitShifts(s.core, RecvSem(c)); }
  }

  lemma StepFair(s: State, l: Label)
    requires Protocol(s) && Enabled(s, l)
    ensures Fair(s.core, Step(s, l).core)
  {
    match l
    case DoTick => ScheduleShifts(s.core);
    case DoExit => BlockShifts(s.core, Dead);
    case DoSend(j, bytes, cap) => SendFair(s, j, bytes, cap);
    case DoReceive(c, cap) => ReceiveFair(s, c, cap);
    case DoResume(bytes) =>
      if s.cont[Me(s)].Sending? { DepositFair(s, bytes); }
    case _ =>
  }

  function CoresOf(ss: seq<State>): seq<Core> {
    seq(|ss|, (n: nat) requires n < |ss| => ss[n].core)
  }

  ghost predicate AllShift(ks: seq<Core>) {
    forall n :: 0 <= n < |ks| - 1 ==> Shifts(ks[n], ks[n + 1])
  }

  lemma RunShifts(ss: seq<State>, ls: seq<Label>)
    requires Run(ss, ls)
    ensures AllShift(CoresOf(ss))
  {
    forall n | 0 <= n < |ss| - 1 ensures Shifts(CoresOf(ss)[n], CoresOf(ss)[n + 1]) {
      RunGood(ss, ls, n);
      assert Next(ss[n], ls[n], ss[n + 1]);
      StepFair(ss[n], ls[n]);
    }
  }

  lemma GetsItsTurnLater(ks: seq<Core>, i: nat, k: nat, p: nat)
    requires AllShift(ks) && i <= k < |ks| && p < |ks[i].ready|
    ensures var n := ks[k].switches - ks[i].switches;
            && n >= 0
            && (n <= p ==> p - n < |ks[k].ready| && ks[k].ready[p - n] == ks[i].ready[p])
            && (n == p + 1 && ks[k].switches > ks[k - 1].switches ==> ks[k].cur == Some(ks[i].ready[p]))
  {
    var r := ks[i..];
    forall n | 0 <= n < |r| - 1 ensures Shifts(r[n], r[n + 1]) {
      assert Shifts(ks[i + n], ks[i + n + 1]);
    }
    GetsItsTurn(r, k - i, p);
  }

  /**
   * Bounded waiting: whatever happens in between, the thread at position `p` of the ready
   * queue moves up one place with each call of scheduler_schedule and gets the CPU at
   * call number p + 1.
   */
  lemma BoundedWaiting(ss: seq<State>, ls: seq<Label>, i: nat, k: nat, p: nat)
    requires Run(ss, ls) && i <= k < |ss| && p < |ss[i].core.ready|
    ensures var n := ss[k].core.switches - ss[i].core.switches;
            && n >= 0
            && (n <= p ==> p - n < |ss[k].core.ready| && ss[k].core.ready[p - n] == ss[i].core.ready[p])
            && (n == p + 1 && ss[k].core.switches > ss[k - 1].core.switches ==>
                  ss[k].core.cur == Some(ss[i].core.ready[p]))
  {
    RunShifts(ss, ls);
    GetsItsTurnLater(CoresOf(ss), i, k, p);
  }

  /** Work conservation: a step that called scheduler_schedule leaves the CPU idle exactly when nobody is READY. */
  lemma IdleOnlyWhenStarved(ss: seq<State>, ls: seq<Label>, i: nat)
    requires Run(ss, ls) && i < |ls| && ss[i + 1].core.switches > ss[i].core.switches
    ensures ss[i + 1].core.cur == None <==> Starved(ss[i + 1].core)
  {
    RunGood(ss, ls, i);
    RunGood(ss, ls, i + 1);
    assert Next(ss[i], ls[i], ss[i + 1]);
    StepFair(ss[i], ls[i]);
    var k := ss[i + 1].core;
    assert Listed(Ready) && Owns(k, Ready);
    if k.cur.Some? { assert Still(k.where[k.cur.value]) == Ready; }
  }
}
