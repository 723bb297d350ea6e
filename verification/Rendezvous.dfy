/**
 * Synchronous message passing (kernel/ipc.c) as a machine.  A step is one kernel path:
 * from a system call, a timer tick or the resumption of a suspended call up to the next
 * scheduler_switch or the return to user mode.
 *
 * `log` and the fields marked "history" are not in the kernel.  They record what
 * happened, so that properties of whole runs can be stated.
 */
module Rendezvous {
  import opened Wrappers
  import opened Scheduling
  import Vector

  /** What a write_message into a buffer of `cap` bytes stores there. */
  function Truncate(b: Bytes, cap: nat): (r: Bytes)
    ensures r <= b && |r| == if |b| <= cap then |b| else cap
  {
    if |b| <= cap then b else b[..cap]
  }

  /**
   * Where a thread continues in the kernel: not at all, behind the semaphore_wait of
   * ipc_send or ipc_receive, or behind the scheduler_switch of ipc_send.
   */
  datatype Cont = User | Sending(conn: nat) | Receiving(chan: nat, cap: nat) | Awaiting(conn: nat)

  /** History: how far the message of a connection has come. */
  datatype Phase = Idle | Queued | Deposited | Taken | Answered

  datatype Conn = Conn(
    chan: nat,
    owner: Tid,
    reply: Bytes,    // conn->buffer; conn->size is its length
    status: int,
    pid: nat,        // the process whose fds hold this connection
    cap: nat,        // size of the recv_buf of the ipc_send in progress
    phase: Phase,    // history, as are the next three
    mid: nat,        // the send in progress, named by the log position of its call
    payload: Bytes,
    recvid: nat)

  /** History: where the one token of a channel is. */
  datatype Token = SendFree | SendHeld(holder: Tid) | RecvFree | RecvHeld(holder: Tid)

  datatype Chan = Chan(
    pid: nat,
    slots: seq<Option<nat>>,   // chan->reply
    recvid: nat,
    buffer: Option<Bytes>,     // None: chan->buffer is null
    tok: Token)                // history

  datatype Event =
    | Called(mid: nat, t: Tid, conn: nat, chan: nat, cap: nat)
    | Stored(mid: nat, chan: nat, recvid: nat, bytes: Bytes)
    | Received(mid: nat, t: Tid, chan: nat, recvid: nat, cap: nat, bytes: Bytes)
    | Replied(mid: nat, t: Tid, chan: nat, recvid: nat, status: int, data: Option<Bytes>)
    | Returned(mid: nat, t: Tid, conn: nat, status: int, bytes: Bytes)

  datatype State = State(
    core: Core,
    cont: seq<Cont>,
    pid: seq<nat>,            // thread->process
    conns: seq<Conn>,
    chans: seq<Chan>,
    home: map<nat, nat>,      // process->chan
    log: seq<Event>)

  /** The two semaphores of channel `c`. */
  function SendSem(c: nat): nat { 2 * c }
  function RecvSem(c: nat): nat { 2 * c + 1 }

  // ---------- invariant ----------

  function W(s: State, t: Tid): Where
    requires t < |s.core.where|
  {
    Still(s.core.where[t])
  }

  ghost predicate Shape(s: State) {
    && |s.cont| == |s.pid| == |s.core.where|
    && |s.core.sems| == 2 * |s.chans|
    && Settled(s.core)
    && (forall p :: p in s.home ==> s.home[p] < |s.chans|)
  }

  ghost predicate ThreadOk(s: State, t: Tid)
    requires Shape(s) && t < |s.cont|
  {
    match s.cont[t]
    case User => W(s, t) == Ready || W(s, t) == Dead
    case Sending(j) =>
      && j < |s.conns| && s.conns[j].owner == t && s.conns[j].phase == Queued && s.conns[j].chan < |s.chans|
      && (W(s, t) == OnSem(SendSem(s.conns[j].chan))
          || (W(s, t) == Ready && s.chans[s.conns[j].chan].tok == SendHeld(t)))
    case Receiving(c, _) =>
      && c < |s.chans|
      && (W(s, t) == OnSem(RecvSem(c)) || (W(s, t) == Ready && s.chans[c].tok == RecvHeld(t)))
    case Awaiting(j) =>
      && j < |s.conns| && s.conns[j].owner == t
      && ((s.conns[j].phase in {Deposited, Taken} && W(s, t) == OnReply)
          || (s.conns[j].phase == Answered && W(s, t) == Ready))
  }

  ghost predicate ConnOk(s: State, j: nat)
    requires j < |s.conns|
  {
    var n := s.conns[j];
    && n.chan < |s.chans|
    && (n.phase != Answered ==> n.reply == [])
    && (n.phase != Idle ==>
          n.owner < |s.cont| && s.cont[n.owner] == if n.phase == Queued then Sending(j) else Awaiting(j))
    && (n.phase in {Deposited, Taken} ==> Vector.At(s.chans[n.chan].slots, n.recvid) == Some(j))
    && (n.phase == Deposited ==> s.chans[n.chan].recvid == n.recvid && s.chans[n.chan].buffer == Some(n.payload))
  }

  ghost predicate SlotOk(s: State, c: nat, v: nat)
    requires c < |s.chans|
  {
    var x := Vector.At(s.chans[c].slots, v);
    x.Some? ==>
      && x.value < |s.conns| && s.conns[x.value].chan == c && s.conns[x.value].recvid == v
      && s.conns[x.value].phase in {Deposited, Taken}
  }

  /** The connection whose message is in the channel buffer. */
  ghost predicate Loaded(s: State, c: nat)
    requires c < |s.chans|
  {
    var x := Vector.At(s.chans[c].slots, s.chans[c].recvid);
    && s.chans[c].buffer.Some?
    && x.Some? && x.value < |s.conns| && s.conns[x.value].phase == Deposited
  }

  ghost predicate TokenOk(s: State, c: nat)
    requires Shape(s) && c < |s.chans|
  {
    var send, recv := s.core.sems[SendSem(c)].count, s.core.sems[RecvSem(c)].count;
    match s.chans[c].tok
    case SendFree => send == 1 && recv == 0 && s.chans[c].buffer == None
    case SendHeld(t) =>
      && send == 0 && recv == 0 && s.chans[c].buffer == None
      && t < |s.cont| && s.cont[t].Sending? && s.cont[t].conn < |s.conns|
      && s.conns[s.cont[t].conn].chan == c && W(s, t) == Ready
    case RecvFree => send == 0 && recv == 1 && Loaded(s, c)
    case RecvHeld(t) =>
      && send == 0 && recv == 0 && Loaded(s, c)
      && t < |s.cont| && s.cont[t].Receiving? && s.cont[t].chan == c && W(s, t) == Ready
  }

  ghost predicate Protocol(s: State) {
    && Shape(s)
    && (forall t :: 0 <= t < |s.cont| ==> ThreadOk(s, t))
    && (forall j :: 0 <= j < |s.conns| ==> ConnOk(s, j))
    && (forall c, v :: 0 <= c < |s.chans| && 0 <= v ==> SlotOk(s, c, v))
    && (forall c :: 0 <= c < |s.chans| ==> TokenOk(s, c))
  }

  /** Every run starts in an empty system. */
  const INIT: State := State(BOOT, [], [], [], [], map[], [])

  // ---------- kernel paths ----------

  ghost predicate InUser(s: State) {
    s.core.cur.Some? && s.core.cur.value < |s.cont| && s.cont[s.core.cur.value] == User
  }

  function Me(s: State): Tid
    requires s.core.cur.Some?
  {
    s.core.cur.value
  }

  /** The send that the connection in slot `v` is carrying (history). */
  function MidAt(s: State, c: nat, v: nat): nat
    requires c < |s.chans|
  {
    var x := Vector.At(s.chans[c].slots, v);
    if x.Some? && x.value < |s.conns| then s.conns[x.value].mid else 0
  }

  ghost predicate MaySend(s: State, j: nat) {
    InUser(s) && Me(s) < |s.pid| && j < |s.conns| && s.conns[j].phase == Idle && s.conns[j].pid == s.pid[Me(s)]
  }

  /** ipc_send up to the point where the sender has the token or sleeps in semaphore_wait. */
  function SendArrive(s: State, j: nat, cap: nat): State
    requires Protocol(s) && InUser(s) && j < |s.conns|
  {
    var t, c := Me(s), s.conns[j].chan;
    assert ConnOk(s, j);
    WaitKeeps(s.core, SendSem(c));
    s.(core := Wait(s.core, SendSem(c)),
       cont := s.cont[t := Sending(j)],
       conns := s.conns[j := s.conns[j].(owner := t, cap := cap, phase := Queued, mid := |s.log|)],
       chans := if Free(s.core, SendSem(c)) then s.chans[c := s.chans[c].(tok := SendHeld(t))] else s.chans,
       log := s.log + [Called(|s.log|, t, j, c, cap)])
  }

  ghost predicate HoldsSend(s: State) {
    s.core.cur.Some? && Me(s) < |s.cont| && s.cont[Me(s)].Sending?
  }

  /** The token behind a semaphore_signal: counted, or handed to the head of the queue. */
  function ToReceiver(k: Core, c: nat): Token
    requires RecvSem(c) < |k.sems|
  {
    var q := k.sems[RecvSem(c)].queue;
    if q == [] then RecvFree else RecvHeld(q[0])
  }

  function ToSender(k: Core, c: nat): Token
    requires SendSem(c) < |k.sems|
  {
    var q := k.sems[SendSem(c)].queue;
    if q == [] then SendFree else SendHeld(q[0])
  }

  /** ipc_send from behind semaphore_wait to its scheduler_switch; `bytes` is the message read from the sender. */
  function Deposit(s: State, bytes: Bytes): State
    requires Protocol(s) && HoldsSend(s)
  {
    var t := Me(s);
    var j := s.cont[t].conn;
    assert ThreadOk(s, t);
    var c := s.conns[j].chan;
    var v := Vector.FirstNull(s.chans[c].slots);
    SignalKeeps(s.core, RecvSem(c));
    BlockKeeps(Signal(s.core, RecvSem(c)), OnReply);
    s.(core := Block(Signal(s.core, RecvSem(c)), OnReply),
       cont := s.cont[t := Awaiting(j)],
       conns := s.conns[j := s.conns[j].(phase := Deposited, payload := bytes, recvid := v)],
       chans := s.chans[c := s.chans[c].(
                  slots := Vector.Added(s.chans[c].slots, Some(j)), recvid := v, buffer := Some(bytes),
                  tok := ToReceiver(s.core, c))],
       log := s.log + [Stored(s.conns[j].mid, c, v, bytes)])
  }

  /** ipc_receive up to the point where the receiver has the token or sleeps in semaphore_wait. */
  function RecvArrive(s: State, c: nat, cap: nat): State
    requires Protocol(s) && InUser(s) && c < |s.chans|
  {
    WaitKeeps(s.core, RecvSem(c));
    s.(core := Wait(s.core, RecvSem(c)),
       cont := s.cont[Me(s) := Receiving(c, cap)],
       chans := if Free(s.core, RecvSem(c)) then s.chans[c := s.chans[c].(tok := RecvHeld(Me(s)))] else s.chans)
  }

  ghost predicate HoldsRecv(s: State) {
    s.core.cur.Some? && Me(s) < |s.cont| && s.cont[Me(s)].Receiving?
  }

  /** ipc_receive from behind semaphore_wait to its return. */
  function Drain(s: State): State
    requires Protocol(s) && HoldsRecv(s)
  {
    var t := Me(s);
    var c, cap := s.cont[t].chan, s.cont[t].cap;
    assert ThreadOk(s, t) && TokenOk(s, c);
    var v := s.chans[c].recvid;
    var j := Vector.At(s.chans[c].slots, v).value;
    SignalKeeps(s.core, SendSem(c));
    s.(core := Signal(s.core, SendSem(c)),
       cont := s.cont[t := User],
       conns := s.conns[j := s.conns[j].(phase := Taken)],
       chans := s.chans[c := s.chans[c].(buffer := None, tok := ToSender(s.core, c))],
       log := s.log + [Received(MidAt(s, c, v), t, c, v, cap, Truncate(s.chans[c].buffer.value, cap))])
  }

  /** The caller's process has a channel with a connection in reply slot `v`. */
  ghost predicate HasSlot(s: State, v: nat) {
    && InUser(s) && Me(s) < |s.pid| && s.pid[Me(s)] in s.home && s.home[s.pid[Me(s)]] < |s.chans|
    && var x := Vector.At(s.chans[s.home[s.pid[Me(s)]]].slots, v);
       x.Some? && x.value < |s.conns|
  }

  /** The reply protocol: the caller answers a message that was received and is still unanswered. */
  ghost predicate MayReply(s: State, v: nat) {
    HasSlot(s, v) && s.conns[s.chans[s.home[s.pid[Me(s)]]].slots[v].value].phase == Taken
  }

  /** ipc_reply. */
  function Reply(s: State, v: nat, status: int, data: Option<Bytes>): State
    requires Protocol(s) && HasSlot(s, v)
  {
    var t := Me(s);
    var c := s.home[s.pid[t]];
    var j := s.chans[c].slots[v].value;
    assert SlotOk(s, c, v) && ConnOk(s, j) && ThreadOk(s, s.conns[j].owner);
    s.(core := Enqueue(s.core, s.conns[j].owner),
       conns := s.conns[j := s.conns[j].(
                  status := status, reply := if data.Some? then data.value else s.conns[j].reply, phase := Answered)],
       chans := s.chans[c := s.chans[c].(slots := s.chans[c].slots[v := None])],
       log := s.log + [Replied(MidAt(s, c, v), t, c, v, status, data)])
  }

  ghost predicate Replyable(s: State) {
    s.core.cur.Some? && Me(s) < |s.cont| && s.cont[Me(s)].Awaiting?
  }

  /** ipc_send from behind its scheduler_switch to its return. */
  function Return(s: State): State
    requires Protocol(s) && Replyable(s)
  {
    var t := Me(s);
    assert ThreadOk(s, t);
    var j := s.cont[t].conn;
    var n := s.conns[j];
    s.(cont := s.cont[t := User],
       conns := s.conns[j := n.(reply := [], phase := Idle)],
       log := s.log + [Returned(n.mid, t, j, n.status, Truncate(n.reply, n.cap))])
  }

  /** A timer tick or sys_yield: scheduler_schedule with the current thread still able to run. */
  function Tick(s: State): State
    requires Protocol(s)
  {
    ReadyInRange(s.core);
    s.(core := Schedule(s.core))
  }

  /** process_exit: the thread is marked dead and never runs again. */
  function Exit(s: State): State
    requires Protocol(s) && InUser(s)
  {
    ReadyInRange(s.core);
    s.(core := Block(s.core, Dead))
  }

  /** sys_clone or process_create: a new thread of process `p`. */
  function Clone(s: State, p: nat): State {
    s.(core := Spawn(s.core), cont := s.cont + [User], pid := s.pid + [p])
  }

  /** ipc_listen. */
  function Listen(s: State): State
    requires InUser(s) && Me(s) < |s.pid|
  {
    var p := s.pid[Me(s)];
    s.(core := NewSem(NewSem(s.core, 1), 0),
       chans := s.chans + [Chan(p, Vector.Nulls(4), 0, None, SendFree)],
       home := s.home[p := |s.chans|])
  }

  /** ipc_connect to channel `c`. */
  function Connect(s: State, c: nat): State
    requires InUser(s) && Me(s) < |s.pid|
  {
    s.(conns := s.conns + [Conn(c, 0, [], 0, s.pid[Me(s)], 0, Idle, 0, [], 0)])
  }

  // ---------- the protocol is kept ----------

  lemma SignalStill(k: Core, i: nat)
    requires Settled(k) && i < |k.sems|
    ensures k.sems[i].queue != [] ==> k.sems[i].queue[0] < |k.where| && k.where[k.sems[i].queue[0]] == OnSem(i)
    ensures Stills(Signal(k, i)) ==
            if k.sems[i].queue == [] then Stills(k) else Stills(k)[k.sems[i].queue[0] := Ready]
    ensures Signal(k, i).cur == k.cur
  {
    WaitersInRange(k, i);
  }

  /** The queues after a semaphore_wait: the caller has the count, or is parked. */
  lemma WaitCore(k: Core, i: nat)
    requires Settled(k) && k.cur.Some? && i < |k.sems|
    ensures k.ready != [] ==> k.ready[0] < |k.where|
    ensures Settled(Wait(k, i)) && |Wait(k, i).where| == |k.where| && |Wait(k, i).sems| == |k.sems|
    ensures Wait(k, i).sems == if Free(k, i) then Take(k, i).sems else Append(k, i).sems
    ensures forall u: Tid :: u < |k.where| ==>
              Still(Wait(k, i).where[u]) == if u == k.cur.value && !Free(k, i) then OnSem(i) else Still(k.where[u])
  {
    WaitKeeps(k, i);
    if !Free(k, i) { WaitStill(k, i); }
    var w, w' := Stills(k), Stills(Wait(k, i));
    assert |w'| == |w|;
    assert forall u: Tid :: u < |w'| ==> w'[u] == Still(Wait(k, i).where[u]) && w[u] == Still(k.where[u]);
  }

  lemma SendArriveThread(s: State, j: nat, cap: nat, u: Tid)
    requires Protocol(s) && MaySend(s, j) && Shape(SendArrive(s, j, cap)) && u < |s.cont|
    ensures ThreadOk(SendArrive(s, j, cap), u)
  {
    var c := s.conns[j].chan;
    assert ConnOk(s, j) && ThreadOk(s, Me(s)) && ThreadOk(s, u) && TokenOk(s, c);
    WaitCore(s.core, SendSem(c));
  }

  lemma SendArriveToken(s: State, j: nat, cap: nat, d: nat)
    requires Protocol(s) && MaySend(s, j) && Shape(SendArrive(s, j, cap)) && d < |SendArrive(s, j, cap).chans|
    ensures TokenOk(SendArrive(s, j, cap), d)
  {
    assert ConnOk(s, j) && ThreadOk(s, Me(s)) && TokenOk(s, d);
    WaitCore(s.core, SendSem(s.conns[j].chan));
  }

  lemma SendArriveKeeps(s: State, j: nat, cap: nat)
    requires Protocol(s) && MaySend(s, j)
    ensures Protocol(SendArrive(s, j, cap))
  {
    var t, c := Me(s), s.conns[j].chan;
    var s' := SendArrive(s, j, cap);
    assert ConnOk(s, j) && ThreadOk(s, t);
    WaitCore(s.core, SendSem(c));
    assert Shape(s');
    forall u: Tid | u < |s'.cont| ensures ThreadOk(s', u) {
      SendArriveThread(s, j, cap, u);
    }
    forall i | 0 <= i < |s'.conns| ensures ConnOk(s', i) {
      assert ConnOk(s, i);
    }
    forall d, v | 0 <= d < |s'.chans| && 0 <= v ensures SlotOk(s', d, v) {
      assert SlotOk(s, d, v);
    }
    forall d: nat | d < |s'.chans| ensures TokenOk(s', d) {
      SendArriveToken(s, j, cap, d);
    }
  }

  lemma RecvArriveThread(s: State, c: nat, cap: nat, u: Tid)
    requires Protocol(s) && InUser(s) && c < |s.chans| && Shape(RecvArrive(s, c, cap)) && u < |s.cont|
    ensures ThreadOk(RecvArrive(s, c, cap), u)
  {
    assert ThreadOk(s, Me(s)) && ThreadOk(s, u) && TokenOk(s, c);
    WaitCore(s.core, RecvSem(c));
  }

  lemma RecvArriveToken(s: State, c: nat, cap: nat, d: nat)
    requires Protocol(s) && InUser(s) && c < |s.chans| && Shape(RecvArrive(s, c, cap))
    requires d < |RecvArrive(s, c, cap).chans|
    ensures TokenOk(RecvArrive(s, c, cap), d)
  {
    assert ThreadOk(s, Me(s)) && TokenOk(s, d);
    WaitCore(s.core, RecvSem(c));
  }

  lemma RecvArriveKeeps(s: State, c: nat, cap: nat)
    requires Protocol(s) && InUser(s) && c < |s.chans|
    ensures Protocol(RecvArrive(s, c, cap))
  {
    var s' := RecvArrive(s, c, cap);
    assert ThreadOk(s, Me(s)) && TokenOk(s, c);
    WaitCore(s.core, RecvSem(c));
    assert Shape(s');
    forall u: Tid | u < |s'.cont| ensures ThreadOk(s', u) {
      RecvArriveThread(s, c, cap, u);
    }
    forall i | 0 <= i < |s'.conns| ensures ConnOk(s', i) {
      assert ConnOk(s, i);
    }
    forall d, v | 0 <= d < |s'.chans| && 0 <= v ensures SlotOk(s', d, v) {
      assert SlotOk(s, d, v);
    }
    forall d: nat | d < |s'.chans| ensures TokenOk(s', d) {
      RecvArriveToken(s, c, cap, d);
    }
  }

  /** The queues after the semaphore_signal and the block at the end of a deposit. */
  lemma DepositCore(s: State, bytes: Bytes, c: nat)
    requires Protocol(s) && HoldsSend(s) && ThreadOk(s, Me(s)) && c == s.conns[s.cont[Me(s)].conn].chan
    ensures var q := s.core.sems[RecvSem(c)].queue;
            var k := Deposit(s, bytes).core;
            && (q != [] ==> q[0] < |s.core.where| && s.core.where[q[0]] == OnSem(RecvSem(c)))
            && Settled(k) && |k.where| == |s.core.where|
            && k.sems == Signal(s.core, RecvSem(c)).sems
            && forall u: Tid :: u < |k.where| ==>
                 Still(k.where[u]) ==
                 if u == Me(s) then OnReply else if q != [] && u == q[0] then Ready else W(s, u)
  {
    var t := Me(s);
    SignalStill(s.core, RecvSem(c));
    SignalKeeps(s.core, RecvSem(c));
    var k := Signal(s.core, RecvSem(c));
    BlockKeeps(k, OnReply);
    BlockStill(k, OnReply);
    var w, w' := Stills(s.core), Stills(Deposit(s, bytes).core);
    assert forall u: Tid :: u < |w'| ==> w'[u] == Still(Deposit(s, bytes).core.where[u]) && w[u] == W(s, u);
  }

  lemma DepositThread(s: State, bytes: Bytes, u: Tid)
    requires Protocol(s) && HoldsSend(s) && Shape(Deposit(s, bytes)) && u < |s.cont|
    ensures ThreadOk(Deposit(s, bytes), u)
  {
    var t := Me(s);
    assert ThreadOk(s, t) && ThreadOk(s, u);
    var c := s.conns[s.cont[t].conn].chan;
    assert TokenOk(s, c);
    DepositCore(s, bytes, c);
  }

  /** The token of the channel that is filled passes to the receivers. */
  lemma DepositToken(s: State, bytes: Bytes, c: nat)
    requires Protocol(s) && HoldsSend(s) && Shape(Deposit(s, bytes))
    requires ThreadOk(s, Me(s)) && c == s.conns[s.cont[Me(s)].conn].chan
    ensures TokenOk(Deposit(s, bytes), c)
  {
    assert TokenOk(s, c);
    DepositCore(s, bytes, c);
    Vector.AddedIsUpdate(s.chans[c].slots, Some(s.cont[Me(s)].conn), Vector.FirstNull(s.chans[c].slots));
    var q := s.core.sems[RecvSem(c)].queue;
    if q != [] { assert ThreadOk(s, q[0]); }
  }

  lemma DepositOtherToken(s: State, bytes: Bytes, c: nat, d: nat)
    requires Protocol(s) && HoldsSend(s) && Shape(Deposit(s, bytes)) && d < |Deposit(s, bytes).chans|
    requires ThreadOk(s, Me(s)) && c == s.conns[s.cont[Me(s)].conn].chan && d != c
    ensures TokenOk(Deposit(s, bytes), d)
  {
    assert TokenOk(s, d) && SlotOk(s, d, s.chans[d].recvid);
    DepositCore(s, bytes, c);
  }

  lemma DepositKeeps(s: State, bytes: Bytes)
    requires Protocol(s) && HoldsSend(s)
    ensures Protocol(Deposit(s, bytes))
  {
    var t := Me(s);
    var j := s.cont[t].conn;
    assert ThreadOk(s, t);
    var c := s.conns[j].chan;
    assert ConnOk(s, j) && TokenOk(s, c);
    DepositCore(s, bytes, c);
    var s' := Deposit(s, bytes);
    forall u: Tid | u < |s'.cont| ensures ThreadOk(s', u) {
      DepositThread(s, bytes, u);
    }
    forall i | 0 <= i < |s'.conns| ensures ConnOk(s', i) {
      assert ConnOk(s, i);
      Vector.AddedIsUpdate(s.chans[c].slots, Some(j), s.conns[i].recvid);
      Vector.AddedIsUpdate(s.chans[c].slots, Some(j), s'.conns[i].recvid);
    }
    forall d, v | 0 <= d < |s'.chans| && 0 <= v ensures SlotOk(s', d, v) {
      assert SlotOk(s, d, v);
      Vector.AddedIsUpdate(s.chans[c].slots, Some(j), v);
    }
    forall d | 0 <= d < |s'.chans| ensures TokenOk(s', d) {
      if d == c { DepositToken(s, bytes, c); } else { DepositOtherToken(s, bytes, c, d); }
    }
  }

  lemma DrainThread(s: State, u: Tid)
    requires Protocol(s) && HoldsRecv(s) && Shape(Drain(s)) && u < |s.cont|
    ensures ThreadOk(Drain(s), u)
  {
    var t := Me(s);
    var c := s.cont[t].chan;
    assert ThreadOk(s, t) && TokenOk(s, c) && SlotOk(s, c, s.chans[c].recvid) && ThreadOk(s, u);
    SignalStill(s.core, SendSem(c));
    var w, w' := Stills(s.core), Stills(Drain(s).core);
    assert w'[u] == W(Drain(s), u) && w[u] == W(s, u);
  }

  /** The token of the channel that is emptied passes to the senders. */
  lemma DrainToken(s: State, c: nat)
    requires Protocol(s) && HoldsRecv(s) && Shape(Drain(s)) && ThreadOk(s, Me(s)) && c == s.cont[Me(s)].chan
    ensures TokenOk(Drain(s), c)
  {
    assert TokenOk(s, c) && SlotOk(s, c, s.chans[c].recvid);
    SignalStill(s.core, SendSem(c));
    var q := s.core.sems[SendSem(c)].queue;
    if q != [] { assert ThreadOk(s, q[0]); }
  }

  lemma DrainOtherToken(s: State, c: nat, d: nat)
    requires Protocol(s) && HoldsRecv(s) && Shape(Drain(s)) && ThreadOk(s, Me(s)) && c == s.cont[Me(s)].chan
    requires d != c && d < |Drain(s).chans|
    ensures TokenOk(Drain(s), d)
  {
    assert TokenOk(s, c) && SlotOk(s, c, s.chans[c].recvid);
    assert TokenOk(s, d) && SlotOk(s, d, s.chans[d].recvid);
    SignalStill(s.core, SendSem(c));
    var w, w' := Stills(s.core), Stills(Drain(s).core);
    assert forall u: Tid :: u < |w'| ==> w'[u] == W(Drain(s), u) && w[u] == W(s, u);
  }

  lemma DrainKeeps(s: State)
    requires Protocol(s) && HoldsRecv(s)
    ensures Protocol(Drain(s))
  {
    var t := Me(s);
    var c := s.cont[t].chan;
    assert ThreadOk(s, t) && TokenOk(s, c) && SlotOk(s, c, s.chans[c].recvid);
    SignalKeeps(s.core, SendSem(c));
    var s' := Drain(s);
    forall u: Tid | u < |s'.cont| ensures ThreadOk(s', u) {
      DrainThread(s, u);
    }
    forall i | 0 <= i < |s'.conns| ensures ConnOk(s', i) {
      assert ConnOk(s, i);
    }
    forall d, v | 0 <= d < |s'.chans| && 0 <= v ensures SlotOk(s', d, v) {
      assert SlotOk(s, d, v);
    }
    forall d | 0 <= d < |s'.chans| ensures TokenOk(s', d) {
      if d == c { DrainToken(s, c); } else { DrainOtherToken(s, c, d); }
    }
  }

  lemma ReplyThread(s: State, v: nat, status: int, data: Option<Bytes>, u: Tid)
    requires Protocol(s) && MayReply(s, v) && Shape(Reply(s, v, status, data)) && u < |s.cont|
    ensures ThreadOk(Reply(s, v, status, data), u)
  {
    var c := s.home[s.pid[Me(s)]];
    var j := s.chans[c].slots[v].value;
    assert ConnOk(s, j) && ThreadOk(s, s.conns[j].owner) && ThreadOk(s, u);
  }

  lemma ReplyToken(s: State, v: nat, status: int, data: Option<Bytes>, d: nat)
    requires Protocol(s) && MayReply(s, v) && Shape(Reply(s, v, status, data)) && d < |s.chans|
    ensures TokenOk(Reply(s, v, status, data), d)
  {
    var c := s.home[s.pid[Me(s)]];
    var j := s.chans[c].slots[v].value;
    assert ConnOk(s, j) && SlotOk(s, c, v) && ThreadOk(s, s.conns[j].owner);
    assert TokenOk(s, d) && SlotOk(s, d, s.chans[d].recvid);
  }

  lemma ReplyKeeps(s: State, v: nat, status: int, data: Option<Bytes>)
    requires Protocol(s) && MayReply(s, v)
    ensures Protocol(Reply(s, v, status, data))
  {
    var t := Me(s);
    var c := s.home[s.pid[t]];
    var j := s.chans[c].slots[v].value;
    assert ConnOk(s, j) && SlotOk(s, c, v) && ThreadOk(s, s.conns[j].owner) && ThreadOk(s, t);
    UnblockKeeps(s.core, s.conns[j].owner);
    var s' := Reply(s, v, status, data);
    assert Shape(s');
    forall u: Tid | u < |s'.cont| ensures ThreadOk(s', u) {
      ReplyThread(s, v, status, data, u);
    }
    forall i | 0 <= i < |s'.conns| ensures ConnOk(s', i) {
      assert ConnOk(s, i);
    }
    forall d, x | 0 <= d < |s'.chans| && 0 <= x ensures SlotOk(s', d, x) {
      assert SlotOk(s, d, x);
    }
    forall d: nat | d < |s'.chans| ensures TokenOk(s', d) {
      ReplyToken(s, v, status, data, d);
    }
  }

  lemma ReturnKeeps(s: State)
    requires Protocol(s) && Replyable(s)
    ensures Protocol(Return(s))
  {
    var t := Me(s);
    var j := s.cont[t].conn;
    assert ThreadOk(s, t) && ConnOk(s, j);
    var s' := Return(s);
    forall u | 0 <= u < |s'.cont| ensures ThreadOk(s', u) {
      assert ThreadOk(s, u);
    }
    forall i | 0 <= i < |s'.conns| ensures ConnOk(s', i) {
      assert ConnOk(s, i);
    }
    forall d, x | 0 <= d < |s'.chans| && 0 <= x ensures SlotOk(s', d, x) {
      assert SlotOk(s, d, x);
    }
    forall d | 0 <= d < |s'.chans| ensures TokenOk(s', d) {
      assert TokenOk(s, d) && SlotOk(s, d, s.chans[d].recvid);
    }
  }

  /** Steps that touch only the queues and the CPU, and kill nobody but user-mode threads. */
  lemma CoreOnlyKeeps(s: State, k: Core, dead: Option<Tid>)
    requires Protocol(s) && Settled(k)
    requires dead.Some? ==> dead.value < |s.cont| && s.cont[dead.value] == User
    requires Stills(k) == (if dead.Some? then Stills(s.core)[dead.value := Dead] else Stills(s.core))
    requires k.sems == s.core.sems
    ensures Protocol(s.(core := k))
  {
    var s' := s.(core := k);
    var w, w' := Stills(s.core), Stills(k);
    assert |k.where| == |w'| == |w|;
    forall u | 0 <= u < |s'.cont| ensures ThreadOk(s', u) {
      assert ThreadOk(s, u) && w'[u] == W(s', u) && w[u] == W(s, u);
    }
    forall i | 0 <= i < |s'.conns| ensures ConnOk(s', i) {
      assert ConnOk(s, i);
    }
    forall d, x | 0 <= d < |s'.chans| && 0 <= x ensures SlotOk(s', d, x) {
      assert SlotOk(s, d, x);
    }
    forall d | 0 <= d < |s'.chans| ensures TokenOk(s', d) {
      assert TokenOk(s, d);
      match s.chans[d].tok
      case SendHeld(t) => assert w'[t] == W(s', t) && w[t] == W(s, t);
      case RecvHeld(t) => assert w'[t] == W(s', t) && w[t] == W(s, t);
      case _ =>
    }
  }

  lemma TickKeeps(s: State)
    requires Protocol(s)
    ensures Protocol(Tick(s))
  {
    ScheduleKeeps(s.core);
    ScheduleStill(s.core);
    CoreOnlyKeeps(s, Schedule(s.core), None);
  }

  lemma ExitKeeps(s: State)
    requires Protocol(s) && InUser(s)
    ensures Protocol(Exit(s))
  {
    BlockKeeps(s.core, Dead);
    BlockStill(s.core, Dead);
    CoreOnlyKeeps(s, Block(s.core, Dead), s.core.cur);
  }

  lemma CloneKeeps(s: State, p: nat)
    requires Protocol(s)
    ensures Protocol(Clone(s, p))
  {
    SpawnKeeps(s.core);
    var s' := Clone(s, p);
    forall u | 0 <= u < |s'.cont| ensures ThreadOk(s', u) {
      if u < |s.cont| { assert ThreadOk(s, u); }
    }
    forall i | 0 <= i < |s'.conns| ensures ConnOk(s', i) {
      assert ConnOk(s, i);
    }
    forall d, x | 0 <= d < |s'.chans| && 0 <= x ensures SlotOk(s', d, x) {
      assert SlotOk(s, d, x);
    }
    forall d | 0 <= d < |s'.chans| ensures TokenOk(s', d) {
      assert TokenOk(s, d);
    }
  }

  /** One channel per process: the caller has none yet. */
  ghost predicate MayListen(s: State) {
    InUser(s) && Me(s) < |s.pid| && s.pid[Me(s)] !in s.home
  }

  lemma ListenKeeps(s: State)
    requires Protocol(s) && MayListen(s)
    ensures Protocol(Listen(s))
  {
    NewSemKeeps(s.core, 1);
    NewSemKeeps(NewSem(s.core, 1), 0);
    var s' := Listen(s);
    forall u | 0 <= u < |s'.cont| ensures ThreadOk(s', u) {
      assert ThreadOk(s, u);
    }
    forall i | 0 <= i < |s'.conns| ensures ConnOk(s', i) {
      assert ConnOk(s, i);
    }
    forall d, x | 0 <= d < |s'.chans| && 0 <= x ensures SlotOk(s', d, x) {
      if d < |s.chans| { assert SlotOk(s, d, x); }
    }
    forall d | 0 <= d < |s'.chans| ensures TokenOk(s', d) {
      if d < |s.chans| { assert TokenOk(s, d); }
    }
  }

  lemma ConnectKeeps(s: State, c: nat)
    requires Protocol(s) && InUser(s) && c < |s.chans|
    ensures Protocol(Connect(s, c))
  {
    var s' := Connect(s, c);
    forall u | 0 <= u < |s'.cont| ensures ThreadOk(s', u) {
      assert ThreadOk(s, u);
    }
    forall i | 0 <= i < |s'.conns| ensures ConnOk(s', i) {
      if i < |s.conns| { assert ConnOk(s, i); }
    }
    forall d, x | 0 <= d < |s'.chans| && 0 <= x ensures SlotOk(s', d, x) {
      assert SlotOk(s, d, x);
    }
    forall d | 0 <= d < |s'.chans| ensures TokenOk(s', d) {
      assert TokenOk(s, d);
    }
  }

  // ---------- where the protocol ends ----------

  /**
   * conn->owner is set before the wait, so a second ipc_send on a connection takes the
   * reply away from the first sender: the call is safe exactly on an idle connection.
   */
  lemma SendNeedsIdle(s: State, j: nat, cap: nat)
    requires Protocol(s) && InUser(s) && Me(s) < |s.pid| && j < |s.conns| && s.conns[j].pid == s.pid[Me(s)]
    ensures Protocol(SendArrive(s, j, cap)) <==> s.conns[j].phase == Idle
  {
    if s.conns[j].phase == Idle {
      SendArriveKeeps(s, j, cap);
    } else {
      assert ConnOk(s, j);
      var s' := SendArrive(s, j, cap);
      if Shape(s') { assert !ThreadOk(s', s.conns[j].owner); }
    }
  }

  /**
   * The reply vector is filled by the sender, so a recvid is in it before any receive
   * returned it: answering one is safe exactly when its message has been received.
   */
  lemma ReplyNeedsReceived(s: State, v: nat, status: int, data: Option<Bytes>)
    requires Protocol(s) && HasSlot(s, v)
    ensures Protocol(Reply(s, v, status, data)) <==>
            s.conns[s.chans[s.home[s.pid[Me(s)]]].slots[v].value].phase == Taken
  {
    var c := s.home[s.pid[Me(s)]];
    var j := s.chans[c].slots[v].value;
    if s.conns[j].phase == Taken {
      ReplyKeeps(s, v, status, data);
    } else {
      assert SlotOk(s, c, v) && ConnOk(s, j) && TokenOk(s, c);
      var s' := Reply(s, v, status, data);
      if Shape(s') { assert !TokenOk(s', c); }
    }
  }
}
