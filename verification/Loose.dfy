/**
 * The thread and message code on memory of any shape.  Module Rendezvous says what a kernel path does while the rules
 * of the message protocol are kept; here nothing is assumed about the queues, which may share threads and run in
 * circles, and any thread may make any call.  The contents of messages are there, but not what callers get of them.
 */
module Loose {
  import opened Wrappers
  import opened Scheduling
  import opened Kernel
  import Vector
  import R = Rendezvous

  datatype Connect = Connect(chan: nat, owner: Tid, buffer: Bytes, status: int)

  datatype Channel = Channel(reply: seq<Option<nat>>, recvid: nat, buffer: Option<Bytes>)

  /** `cont` says where a thread continues in the kernel, which is on its stack. */
  datatype World = World(
    threads: seq<Thread>,
    ptrs: Pointers,
    states: seq<ThreadState>,
    cont: seq<R.Cont>,
    conns: seq<Connect>,
    chans: seq<Channel>)

  // ---------- every pointer names an object of its kind ----------

  ghost predicate PointersOk(threads: seq<Thread>, p: Pointers) {
    && Numbered(threads) && |p.links| == |threads| && |p.queues| == |p.counts|
    && Known(threads, p.current) && Known(threads, p.head) && Known(threads, p.tail)
    && (forall x: Thread? :: x in p.links ==> Known(threads, x))
    && (forall x: Thread? :: x in p.queues ==> Known(threads, x))
  }

  ghost predicate ContOk(w: World, c: R.Cont) {
    match c
    case User => true
    case Sending(j) => j < |w.conns|
    case Receiving(c, _) => c < |w.chans|
    case Awaiting(j) => j < |w.conns|
  }

  function SlotOf(w: World, c: nat, v: nat): Option<nat> {
    if c < |w.chans| then Vector.At(w.chans[c].reply, v) else None
  }

  ghost predicate Typed(w: World) {
    && PointersOk(w.threads, w.ptrs)
    && |w.states| == |w.cont| == |w.threads| && |w.ptrs.queues| == 2 * |w.chans|
    && (forall u :: 0 <= u < |w.cont| ==> ContOk(w, w.cont[u]))
    && (forall j :: 0 <= j < |w.conns| ==> w.conns[j].chan < |w.chans| && w.conns[j].owner < |w.threads|)
    && (forall c: nat, v: nat {:trigger SlotOf(w, c, v)} :: SlotOf(w, c, v).Some? ==> SlotOf(w, c, v).value < |w.conns|)
  }

  // ---------- the queues ----------

  ghost function Me(w: World): (t: Tid)
    requires Typed(w) && w.ptrs.current != null
    ensures t < |w.threads| && w.threads[t] == w.ptrs.current
  {
    w.ptrs.current.tid
  }

  lemma EnqueuedOk(threads: seq<Thread>, p: Pointers, t: Tid)
    requires PointersOk(threads, p) && t < |threads|
    ensures PointersOk(threads, Enqueued(threads, p, t))
  {
    var p' := Enqueued(threads, p, t);
    forall x: Thread? | x in p'.links ensures Known(threads, x) {
      var i :| 0 <= i < |p'.links| && p'.links[i] == x;
      assert p.links[i] in p.links;
    }
  }

  lemma DequeuedOk(threads: seq<Thread>, p: Pointers)
    requires PointersOk(threads, p)
    ensures PointersOk(threads, Dequeued(threads, p))
  {
    if p.head != null { assert p.links[p.head.tid] in p.links; }
  }

  lemma AttachedOk(threads: seq<Thread>, p: Pointers, i: nat, q: seq<Tid>, t: Tid)
    requires PointersOk(threads, p) && i < |p.queues| && t < |threads| && (q != [] ==> q[|q| - 1] < |threads|)
    ensures PointersOk(threads, Attached(threads, p, i, q, t))
  {
    var p' := Attached(threads, p, i, q, t);
    forall x: Thread? | x in p'.links ensures Known(threads, x) {
      var n :| 0 <= n < |p'.links| && p'.links[n] == x;
      assert p.links[n] in p.links;
    }
    forall x: Thread? | x in p'.queues ensures Known(threads, x) {
      var n :| 0 <= n < |p'.queues| && p'.queues[n] == x;
      assert p.queues[n] in p.queues;
    }
  }

  lemma DetachedOk(threads: seq<Thread>, p: Pointers, i: nat)
    requires PointersOk(threads, p) && i < |p.queues| && p.queues[i] != null
    ensures Known(threads, p.queues[i]) && PointersOk(threads, Detached(threads, p, i))
  {
    assert p.queues[i] in p.queues;
    var h := p.links[p.queues[i].tid];
    assert h in p.links;
    var p' := Detached(threads, p, i);
    forall x: Thread? | x in p'.queues ensures Known(threads, x) {
      var n :| 0 <= n < |p'.queues| && p'.queues[n] == x;
      assert p.queues[n] in p.queues;
    }
  }

  /** Only the queues and the thread states differ. */
  ghost predicate SameCalls(w: World, w': World) {
    w'.threads == w.threads && w'.cont == w.cont && w'.conns == w.conns && w'.chans == w.chans
  }

  lemma QueuesTyped(w: World, w': World)
    requires Typed(w) && SameCalls(w, w') && PointersOk(w.threads, w'.ptrs)
    requires |w'.states| == |w.states| && |w'.ptrs.queues| == |w.ptrs.queues|
    ensures Typed(w')
  {
    forall u | 0 <= u < |w'.cont| ensures ContOk(w', w'.cont[u]) { assert ContOk(w, w.cont[u]); }
    forall c: nat, v: nat ensures SlotOf(w', c, v) == SlotOf(w, c, v) {}
  }

  /** thread_unblock. */
  ghost function Unblocked(w: World, t: Tid): (w': World)
    requires Typed(w) && t < |w.threads|
    ensures Typed(w') && SameCalls(w, w') && w'.ptrs.current == w.ptrs.current && w'.ptrs.counts == w.ptrs.counts
  {
    EnqueuedOk(w.threads, w.ptrs, t);
    var w' := w.(states := w.states[t := StateReady], ptrs := Enqueued(w.threads, w.ptrs, t));
    QueuesTyped(w, w');
    w'
  }

  /** scheduler_schedule: the current thread is put back if it is READY, and the head of the queue gets the CPU. */
  ghost function Requeued(w: World): (w': World)
    requires Typed(w)
    ensures Typed(w') && SameCalls(w, w') && w'.states == w.states
  {
    if w.ptrs.current != null && w.states[Me(w)] == StateReady then
      EnqueuedOk(w.threads, w.ptrs, Me(w));
      var w' := w.(ptrs := Enqueued(w.threads, w.ptrs, Me(w)));
      QueuesTyped(w, w');
      w'
    else w
  }

  ghost function Dispatched(w: World): (w': World)
    requires Typed(w)
    ensures Typed(w') && SameCalls(w, w') && w'.states == w.states
  {
    DequeuedOk(w.threads, w.ptrs);
    var w' := w.(ptrs := Dequeued(w.threads, w.ptrs).(current := w.ptrs.head));
    QueuesTyped(w, w');
    w'
  }

  ghost function Switched(w: World): (w': World)
    requires Typed(w)
    ensures Typed(w') && SameCalls(w, w') && w'.states == w.states
  {
    Dispatched(Requeued(w))
  }

  /** thread_block, then scheduler_switch. */
  ghost function Blocked(w: World, state: ThreadState): (w': World)
    requires Typed(w) && w.ptrs.current != null
    ensures Typed(w') && SameCalls(w, w') && w'.states == w.states[Me(w) := state]
  {
    var b := w.(states := w.states[Me(w) := state]);
    QueuesTyped(w, b);
    Switched(b)
  }

  ghost function Counted(w: World, i: nat, d: int): (w': World)
    requires Typed(w) && i < |w.ptrs.counts|
    ensures Typed(w') && SameCalls(w, w') && w'.states == w.states && w'.ptrs.current == w.ptrs.current
  {
    var w' := w.(ptrs := w.ptrs.(counts := w.ptrs.counts[i := w.ptrs.counts[i] + d]));
    QueuesTyped(w, w');
    w'
  }

  ghost function Unqueued(w: World, i: nat): (w': World)
    requires Typed(w) && i < |w.ptrs.queues| && w.ptrs.queues[i] != null
    ensures Typed(w') && SameCalls(w, w') && w'.states == w.states && w'.ptrs.current == w.ptrs.current
  {
    DetachedOk(w.threads, w.ptrs, i);
    var w' := w.(ptrs := Detached(w.threads, w.ptrs, i));
    QueuesTyped(w, w');
    w'
  }

  /** semaphore_signal. */
  ghost function Signalled(w: World, i: nat): (w': World)
    requires Typed(w) && i < |w.ptrs.queues|
    ensures Typed(w') && SameCalls(w, w') && w'.ptrs.current == w.ptrs.current
  {
    if w.ptrs.queues[i] == null then Counted(w, i, 1)
    else
      assert Known(w.threads, w.ptrs.queues[i]) by { DetachedOk(w.threads, w.ptrs, i); }
      Unblocked(Unqueued(w, i), w.ptrs.queues[i].tid)
  }

  /** The caller's walk along the queue of semaphore `i` visits `q` and ends. */
  ghost predicate Walked(w: World, i: nat, q: seq<Tid>)
    requires Typed(w) && i < |w.ptrs.queues| && w.ptrs.current != null
  {
    Linked(w.threads, w.ptrs.links[Me(w) := null], w.ptrs.queues[i], q)
  }

  ghost function Parked(w: World, i: nat, q: seq<Tid>): (w': World)
    requires Typed(w) && i < |w.ptrs.queues| && w.ptrs.current != null && Walked(w, i, q)
    ensures Typed(w') && SameCalls(w, w') && w'.states == w.states && w'.ptrs.current == w.ptrs.current
  {
    AttachedOk(w.threads, w.ptrs, i, q, Me(w));
    var w' := w.(ptrs := Attached(w.threads, w.ptrs, i, q, Me(w)));
    QueuesTyped(w, w');
    w'
  }

  /** semaphore_wait without a count: the caller sleeps behind the threads of `q`. */
  ghost function Slept(w: World, i: nat, q: seq<Tid>): (w': World)
    requires Typed(w) && i < |w.ptrs.queues| && w.ptrs.current != null && Walked(w, i, q)
    ensures Typed(w') && SameCalls(w, w') && w'.states == w.states[Me(w) := StateSema]
  {
    Blocked(Parked(w, i, q), StateSema)
  }

  // ---------- the calls ----------

  ghost predicate InUser(w: World) {
    Typed(w) && w.ptrs.current != null && w.cont[Me(w)] == R.User
  }

  /** Fields of one connection or channel are set; its channel, and the connections in slots, are of their kinds. */
  lemma CallsTyped(w: World, w': World)
    requires Typed(w) && w'.threads == w.threads && w'.ptrs == w.ptrs && w'.states == w.states
    requires |w'.cont| == |w.cont| && |w'.conns| == |w.conns| && |w'.chans| == |w.chans|
    requires forall u :: 0 <= u < |w.cont| ==> w'.cont[u] == w.cont[u] || ContOk(w, w'.cont[u])
    requires forall j :: 0 <= j < |w.conns| ==>
               && w'.conns[j].chan == w.conns[j].chan
               && (w'.conns[j].owner == w.conns[j].owner || w'.conns[j].owner < |w.threads|)
    requires forall c: nat, v: nat {:trigger SlotOf(w', c, v)} ::
               SlotOf(w', c, v).Some? && SlotOf(w', c, v) != SlotOf(w, c, v) ==> SlotOf(w', c, v).value < |w.conns|
    ensures Typed(w')
  {
    forall u | 0 <= u < |w'.cont| ensures ContOk(w', w'.cont[u]) { assert ContOk(w, w.cont[u]); }
    forall c: nat, v: nat | SlotOf(w', c, v).Some? ensures SlotOf(w', c, v).value < |w'.conns| {
      if SlotOf(w', c, v) == SlotOf(w, c, v) { assert SlotOf(w, c, v).Some?; }
    }
  }

  /** The beginning of ipc_send: the caller becomes the owner. */
  ghost function Claimed(w: World, j: nat): (w': World)
    requires InUser(w) && j < |w.conns|
    ensures Typed(w') && w'.ptrs == w.ptrs && w'.states == w.states && w'.threads == w.threads
    ensures |w'.conns| == |w.conns| && w'.conns[j].chan < |w.chans| && w'.cont[Me(w)] == R.Sending(j) && Me(w') == Me(w)
  {
    var w' := w.(conns := w.conns[j := w.conns[j].(owner := Me(w))], cont := w.cont[Me(w) := R.Sending(j)]);
    forall c: nat, v: nat ensures SlotOf(w', c, v) == SlotOf(w, c, v) {}
    CallsTyped(w, w');
    w'
  }

  ghost predicate Stores(w: World) {
    Typed(w) && w.ptrs.current != null && w.cont[Me(w)].Sending?
  }

  /** The message and its connection are put into the channel. */
  ghost function Filled(w: World, bytes: Bytes): (w': World)
    requires Stores(w)
    ensures Typed(w') && w'.ptrs == w.ptrs && w'.states == w.states && w'.threads == w.threads && w'.conns == w.conns
    ensures w'.cont == w.cont[Me(w) := R.Awaiting(w.cont[Me(w)].conn)]
    ensures var j := w.cont[Me(w)].conn; forall c: nat, v: nat {:trigger SlotOf(w', c, v)} ::
              SlotOf(w', c, v) ==
              if c == w.conns[j].chan && v == Vector.FirstNull(w.chans[c].reply) then Some(j) else SlotOf(w, c, v)
  {
    assert ContOk(w, w.cont[Me(w)]);
    var j := w.cont[Me(w)].conn;
    var c := w.conns[j].chan;
    var v := Vector.FirstNull(w.chans[c].reply);
    var w' := w.(chans := w.chans[c := Channel(Vector.Added(w.chans[c].reply, Some(j)), v, Some(bytes))],
                 cont := w.cont[Me(w) := R.Awaiting(j)]);
    forall d: nat, x: nat ensures SlotOf(w', d, x) == if d == c && x == v then Some(j) else SlotOf(w, d, x) {
      Vector.AddedIsUpdate(w.chans[c].reply, Some(j), x);
    }
    CallsTyped(w, w');
    w'
  }

  /** ipc_send from behind semaphore_wait to its scheduler_switch. */
  ghost function Stored(w: World, bytes: Bytes): (w': World)
    requires Stores(w)
    ensures Typed(w') && w'.cont == Filled(w, bytes).cont && w'.conns == w.conns && w'.chans == Filled(w, bytes).chans
    ensures w'.threads == w.threads
  {
    assert ContOk(w, w.cont[Me(w)]);
    var i := R.RecvSem(w.conns[w.cont[Me(w)].conn].chan);
    Blocked(Signalled(Filled(w, bytes), i), StateReply)
  }

  ghost function Entered(w: World, c: nat, cap: nat): (w': World)
    requires InUser(w) && c < |w.chans|
    ensures Typed(w') && w' == w.(cont := w.cont[Me(w) := R.Receiving(c, cap)])
  {
    var w' := w.(cont := w.cont[Me(w) := R.Receiving(c, cap)]);
    forall c: nat, v: nat ensures SlotOf(w', c, v) == SlotOf(w, c, v) {}
    CallsTyped(w, w');
    w'
  }

  ghost predicate TakesOut(w: World) {
    Typed(w) && w.ptrs.current != null && w.cont[Me(w)].Receiving?
  }

  /** The message is taken out of channel `c`. */
  ghost function Emptied(w: World, c: nat): (w': World)
    requires TakesOut(w) && c < |w.chans|
    ensures Typed(w')
  {
    var w' := w.(chans := w.chans[c := w.chans[c].(buffer := None)], cont := w.cont[Me(w) := R.User]);
    assert forall d: nat, v: nat :: SlotOf(w', d, v) == SlotOf(w, d, v);
    CallsTyped(w, w');
    w'
  }

  /** ipc_receive from behind semaphore_wait to its return. */
  ghost function Drained(w: World): (w': World)
    requires TakesOut(w)
    ensures Typed(w')
  {
    assert ContOk(w, w.cont[Me(w)]);
    var c := w.cont[Me(w)].chan;
    Signalled(Emptied(w, c), R.SendSem(c))
  }

  /** The fields that ipc_reply sets. */
  ghost function Cleared(w: World, c: nat, v: nat, status: int, data: Option<Bytes>): (w': World)
    requires Typed(w) && SlotOf(w, c, v).Some?
    ensures Typed(w')
  {
    var j := SlotOf(w, c, v).value;
    var n := w.conns[j].(status := status, buffer := if data.Some? then data.value else w.conns[j].buffer);
    var w' := w.(chans := w.chans[c := w.chans[c].(reply := w.chans[c].reply[v := None])], conns := w.conns[j := n]);
    assert forall d: nat, x: nat :: SlotOf(w', d, x) == if d == c && x == v then None else SlotOf(w, d, x);
    CallsTyped(w, w');
    w'
  }

  /** ipc_reply to slot `v` of channel `c`. */
  ghost function Answered(w: World, c: nat, v: nat, status: int, data: Option<Bytes>): (w': World)
    requires Typed(w) && SlotOf(w, c, v).Some?
    ensures Typed(w')
  {
    Unblocked(Cleared(w, c, v, status, data), w.conns[SlotOf(w, c, v).value].owner)
  }

  ghost predicate Returns(w: World) {
    Typed(w) && w.ptrs.current != null && w.cont[Me(w)].Awaiting?
  }

  /** ipc_send from behind its scheduler_switch to its return. */
  ghost function Returned(w: World): (w': World)
    requires Returns(w)
    ensures Typed(w')
  {
    assert ContOk(w, w.cont[Me(w)]);
    var j := w.cont[Me(w)].conn;
    var w' := w.(conns := w.conns[j := w.conns[j].(buffer := [])], cont := w.cont[Me(w) := R.User]);
    forall d: nat, v: nat ensures SlotOf(w', d, v) == SlotOf(w, d, v) {}
    CallsTyped(w, w');
    w'
  }

  /** thread_new and scheduler_enqueue_thread. */
  ghost function Spawned(w: World, x: Thread): (w': World)
    requires Typed(w) && x.tid == |w.threads|
    ensures Typed(w')
  {
    var ts, p := w.threads + [x], w.ptrs.(links := w.ptrs.links + [null]);
    assert PointersOk(ts, p);
    EnqueuedOk(ts, p, |w.threads|);
    var w' := w.(threads := ts, ptrs := Enqueued(ts, p, |w.threads|), states := w.states + [StateReady],
                 cont := w.cont + [R.User]);
    assert forall u :: 0 <= u < |w'.cont| ==> ContOk(w', w'.cont[u]) by {
      forall u | 0 <= u < |w'.cont| ensures ContOk(w', w'.cont[u]) {
        if u < |w.cont| { assert ContOk(w, w.cont[u]); }
      }
    }
    assert forall c: nat, v: nat :: SlotOf(w', c, v) == SlotOf(w, c, v);
    w'
  }

  /** ipc_listen. */
  ghost function Listening(w: World): (w': World)
    requires Typed(w)
    ensures Typed(w')
  {
    var w' := w.(ptrs := w.ptrs.(queues := w.ptrs.queues + [null, null], counts := w.ptrs.counts + [1, 0]),
                 chans := w.chans + [Channel(Vector.Nulls(4), 0, None)]);
    assert forall u :: 0 <= u < |w'.cont| ==> ContOk(w', w'.cont[u]) by {
      forall u | 0 <= u < |w'.cont| ensures ContOk(w', w'.cont[u]) { assert ContOk(w, w.cont[u]); }
    }
    assert forall c: nat, v: nat :: SlotOf(w', c, v) == SlotOf(w, c, v);
    w'
  }

  /** ipc_connect to channel `c`. */
  ghost function Connected(w: World, c: nat): (w': World)
    requires InUser(w) && c < |w.chans|
    ensures Typed(w')
  {
    var w' := w.(conns := w.conns + [Connect(c, 0, [], 0)]);
    assert forall u :: 0 <= u < |w'.cont| ==> ContOk(w', w'.cont[u]) by {
      forall u | 0 <= u < |w'.cont| ensures ContOk(w', w'.cont[u]) { assert ContOk(w, w.cont[u]); }
    }
    assert forall c: nat, v: nat :: SlotOf(w', c, v) == SlotOf(w, c, v);
    w'
  }

  // ---------- kernel paths ----------

  /** `q` is the way of the caller along the queue of the semaphore, if it has to sleep. */
  datatype Path =
    | Tick
    | Exit
    | Clone(x: Thread)
    | Listen
    | Connecting(chan: nat)
    | Send(conn: nat, bytes: Bytes, q: seq<Tid>)
    | Receive(chan: nat, cap: nat, q: seq<Tid>)
    | Reply(chan: nat, recvid: nat, status: int, data: Option<Bytes>)
    | Resume(bytes: Bytes)

  /** semaphore_wait of a caller: the count is taken, or the caller sleeps. */
  ghost predicate MayWait(w: World, i: nat, q: seq<Tid>)
    requires Typed(w) && i < |w.ptrs.queues| && w.ptrs.current != null
  {
    w.ptrs.counts[i] > 0 || Walked(w, i, q)
  }

  /**
   * Which paths can start: any thread may call, whatever calls are outstanding; a path that would follow a null pointer
   * or walk along a queue without an end goes nowhere.
   */
  ghost predicate Enabled(w: World, l: Path) {
    Typed(w) &&
    match l
    case Tick => w.ptrs.current == null || InUser(w)
    case Exit => InUser(w)
    case Clone(x) => x.tid == |w.threads|
    case Listen => InUser(w)
    case Connecting(c) => InUser(w) && c < |w.chans|
    case Send(j, _, q) => InUser(w) && j < |w.conns| && MayWait(Claimed(w, j), R.SendSem(w.conns[j].chan), q)
    case Receive(c, cap, q) => InUser(w) && c < |w.chans| && MayWait(Entered(w, c, cap), R.RecvSem(c), q)
    case Reply(c, v, _, _) => InUser(w) && SlotOf(w, c, v).Some?
    case Resume(_) => w.ptrs.current != null && !InUser(w)
  }

  ghost function Sent(w: World, j: nat, bytes: Bytes, q: seq<Tid>): (w': World)
    requires Enabled(w, Send(j, bytes, q))
    ensures Typed(w')
  {
    var a, i := Claimed(w, j), R.SendSem(w.conns[j].chan);
    if a.ptrs.counts[i] > 0 then Stored(Counted(a, i, -1), bytes) else Slept(a, i, q)
  }

  lemma SignalledStates(w: World, i: nat, u: Tid)
    requires Typed(w) && i < |w.ptrs.queues| && u < |w.states|
    ensures Signalled(w, i).states[u] == w.states[u] || Signalled(w, i).states[u] == StateReady
  {
  }

  /** What storing a message does to the slots and the other threads. */
  lemma StoredCalls(w: World, bytes: Bytes)
    requires Stores(w)
    ensures var w', j := Stored(w, bytes), w.cont[Me(w)].conn;
            && (forall u :: 0 <= u < |w.cont| && u != Me(w) ==>
                  w'.states[u] == w.states[u] || w'.states[u] == StateReady)
            && (forall c: nat, v: nat {:trigger SlotOf(w', c, v)} {:trigger SlotOf(w, c, v)} ::
                  SlotOf(w, c, v).Some? ==> SlotOf(w', c, v) == SlotOf(w, c, v))
            && exists c: nat, v: nat :: SlotOf(w', c, v) == Some(j)
  {
    assert ContOk(w, w.cont[Me(w)]);
    var w', f, c := Stored(w, bytes), Filled(w, bytes), w.conns[w.cont[Me(w)].conn].chan;
    forall d: nat, v: nat ensures SlotOf(w', d, v) == SlotOf(f, d, v) {}
    assert SlotOf(w', c, Vector.FirstNull(w.chans[c].reply)) == Some(w.cont[Me(w)].conn);
    forall u: Tid | u < |w.cont| && u != Me(w) ensures w'.states[u] == w.states[u] || w'.states[u] == StateReady {
      SignalledStates(f, R.RecvSem(c), u);
    }
  }

  /** What a send does to the slots, the owners and the other threads. */
  lemma SentCalls(w: World, j: nat, bytes: Bytes, q: seq<Tid>)
    requires Enabled(w, Send(j, bytes, q))
    ensures var w' := Sent(w, j, bytes, q);
            && w'.conns == Claimed(w, j).conns && |w'.cont| == |w.cont|
            && (forall u :: 0 <= u < |w.cont| && u != Me(w) ==> w'.cont[u] == w.cont[u])
            && (forall u :: 0 <= u < |w.cont| && u != Me(w) ==>
                  w'.states[u] == w.states[u] || w'.states[u] == StateReady)
            && (forall c: nat, v: nat {:trigger SlotOf(w', c, v)} {:trigger SlotOf(w, c, v)} ::
                  SlotOf(w, c, v).Some? ==> SlotOf(w', c, v) == SlotOf(w, c, v))
            && (w'.cont[Me(w)] == R.Sending(j)
                || (w'.cont[Me(w)] == R.Awaiting(j) && exists c: nat, v: nat :: SlotOf(w', c, v) == Some(j)))
  {
    var a, i := Claimed(w, j), R.SendSem(w.conns[j].chan);
    forall c: nat, v: nat ensures SlotOf(a, c, v) == SlotOf(w, c, v) {}
    if a.ptrs.counts[i] > 0 {
      var b := Counted(a, i, -1);
      forall c: nat, v: nat ensures SlotOf(b, c, v) == SlotOf(a, c, v) {}
      StoredCalls(b, bytes);
    } else {
      forall c: nat, v: nat ensures SlotOf(Slept(a, i, q), c, v) == SlotOf(a, c, v) {}
    }
  }

  ghost function Received(w: World, c: nat, cap: nat, q: seq<Tid>): (w': World)
    requires Enabled(w, Receive(c, cap, q))
    ensures Typed(w')
  {
    var a, i := Entered(w, c, cap), R.RecvSem(c);
    if a.ptrs.counts[i] > 0 then Drained(Counted(a, i, -1)) else Slept(a, i, q)
  }

  ghost function Resumed(w: World, bytes: Bytes): (w': World)
    requires Enabled(w, Resume(bytes))
    ensures Typed(w')
  {
    match w.cont[Me(w)]
    case Sending(_) => Stored(w, bytes)
    case Receiving(_, _) => Drained(w)
    case Awaiting(_) => Returned(w)
  }

  /** The kernel path from `l` to the next scheduler_switch or the return to user mode. */
  ghost function Step(w: World, l: Path): (w': World)
    requires Enabled(w, l)
    ensures Typed(w')
  {
    match l
    case Tick => Switched(w)
    case Exit => Blocked(w, StateDead)
    case Clone(x) => Spawned(w, x)
    case Listen => Listening(w)
    case Connecting(c) => Connected(w, c)
    case Send(j, bytes, q) => Sent(w, j, bytes, q)
    case Receive(c, cap, q) => Received(w, c, cap, q)
    case Reply(c, v, status, data) => Answered(w, c, v, status, data)
    case Resume(bytes) => Resumed(w, bytes)
  }

  ghost predicate Goes(w: World, l: Path, w': World) {
    Enabled(w, l) && w' == Step(w, l)
  }

  ghost predicate Run(ws: seq<World>, ls: seq<Path>) {
    && |ws| == |ls| + 1
    && forall i {:trigger ls[i]} :: 0 <= i < |ls| ==> Goes(ws[i], ls[i], ws[i + 1])
  }

  lemma RunMore(ws: seq<World>, ls: seq<Path>, l: Path, w: World)
    requires Run(ws, ls) && Goes(ws[|ls|], l, w)
    ensures Run(ws + [w], ls + [l])
  {
  }

  // ---------- a thread that no reply will name ----------

  /** Thread `t` is in ipc_send. */
  ghost predicate InSend(w: World, t: Tid) {
    t < |w.cont| && (w.cont[t].Sending? || w.cont[t].Awaiting?)
  }

  ghost predicate NotOwned(w: World, j: nat, t: Tid) {
    j < |w.conns| && w.conns[j].owner != t
  }

  /** No connection in a slot, and none that is going to be put into one, is owned by thread `t`. */
  ghost predicate Unnamed(w: World, t: Tid) {
    && (forall c: nat, v: nat {:trigger SlotOf(w, c, v)} ::
          SlotOf(w, c, v).Some? ==> NotOwned(w, SlotOf(w, c, v).value, t))
    && (forall u :: 0 <= u < |w.cont| && w.cont[u].Sending? ==> NotOwned(w, w.cont[u].conn, t))
  }

  lemma UnnamedSame(w: World, w': World, t: Tid)
    requires Unnamed(w, t) && SameCalls(w, w')
    ensures Unnamed(w', t)
  {
    forall c: nat, v: nat ensures SlotOf(w', c, v) == SlotOf(w, c, v) {}
    forall c: nat, v: nat | SlotOf(w', c, v).Some? ensures NotOwned(w', SlotOf(w', c, v).value, t) {
      assert NotOwned(w, SlotOf(w, c, v).value, t);
    }
    forall u | 0 <= u < |w'.cont| && w'.cont[u].Sending? ensures NotOwned(w', w'.cont[u].conn, t) {
      assert NotOwned(w, w.cont[u].conn, t);
    }
  }

  /** Slots are filled from sends that are under way, sends start with the caller as the owner. */
  lemma UnnamedKept(w: World, w': World, t: Tid)
    requires Unnamed(w, t) && Typed(w) && Typed(w')
    requires forall j :: 0 <= j < |w.conns| ==> j < |w'.conns| && (w.conns[j].owner != t ==> w'.conns[j].owner != t)
    requires forall c: nat, v: nat {:trigger SlotOf(w', c, v)} :: SlotOf(w', c, v).Some? ==>
               SlotOf(w', c, v) == SlotOf(w, c, v)
               || (w.ptrs.current != null && w.cont[Me(w)] == R.Sending(SlotOf(w', c, v).value))
               || NotOwned(w', SlotOf(w', c, v).value, t)
    requires forall u :: 0 <= u < |w'.cont| && w'.cont[u].Sending? ==>
               (u < |w.cont| && w'.cont[u] == w.cont[u]) || NotOwned(w', w'.cont[u].conn, t)
    ensures Unnamed(w', t)
  {
    forall c: nat, v: nat | SlotOf(w', c, v).Some? ensures NotOwned(w', SlotOf(w', c, v).value, t) {
      if SlotOf(w', c, v) == SlotOf(w, c, v) { assert NotOwned(w, SlotOf(w, c, v).value, t); }
    }
    forall u | 0 <= u < |w'.cont| && w'.cont[u].Sending? ensures NotOwned(w', w'.cont[u].conn, t) {
      if u < |w.cont| && w'.cont[u] == w.cont[u] { assert NotOwned(w, w.cont[u].conn, t); }
    }
  }

  lemma StoredUnnamed(w: World, bytes: Bytes, t: Tid)
    requires Stores(w) && Unnamed(w, t)
    ensures Unnamed(Stored(w, bytes), t)
  {
    var f := Filled(w, bytes);
    assert NotOwned(w, w.cont[Me(w)].conn, t);
    UnnamedKept(w, f, t);
    UnnamedSame(f, Stored(w, bytes), t);
  }

  /** What a send does after it has set the owner names nobody new. */
  lemma ClaimedUnnamed(w: World, j: nat, bytes: Bytes, q: seq<Tid>, t: Tid)
    requires Enabled(w, Send(j, bytes, q)) && Unnamed(Claimed(w, j), t)
    ensures Unnamed(Sent(w, j, bytes, q), t)
  {
    var a, i := Claimed(w, j), R.SendSem(w.conns[j].chan);
    if a.ptrs.counts[i] > 0 {
      UnnamedSame(a, Counted(a, i, -1), t);
      StoredUnnamed(Counted(a, i, -1), bytes, t);
    } else {
      UnnamedSame(a, Slept(a, i, q), t);
    }
  }

  lemma SentUnnamed(w: World, j: nat, bytes: Bytes, q: seq<Tid>, t: Tid)
    requires Enabled(w, Send(j, bytes, q)) && Unnamed(w, t) && InSend(w, t)
    ensures Unnamed(Sent(w, j, bytes, q), t)
  {
    var a := Claimed(w, j);
    forall c: nat, v: nat ensures SlotOf(a, c, v) == SlotOf(w, c, v) {}
    UnnamedKept(w, a, t);
    ClaimedUnnamed(w, j, bytes, q, t);
  }

  lemma DrainedUnnamed(w: World, t: Tid)
    requires TakesOut(w) && Unnamed(w, t)
    ensures Unnamed(Drained(w), t)
  {
    assert ContOk(w, w.cont[Me(w)]);
    var w' := Drained(w);
    forall c: nat, v: nat ensures SlotOf(w', c, v) == SlotOf(w, c, v) {}
    UnnamedKept(w, w', t);
  }

  lemma ReceivedUnnamed(w: World, c: nat, cap: nat, q: seq<Tid>, t: Tid)
    requires Enabled(w, Receive(c, cap, q)) && Unnamed(w, t)
    ensures Unnamed(Received(w, c, cap, q), t)
  {
    var a, i := Entered(w, c, cap), R.RecvSem(c);
    forall c: nat, v: nat ensures SlotOf(a, c, v) == SlotOf(w, c, v) {}
    UnnamedKept(w, a, t);
    if a.ptrs.counts[i] > 0 {
      UnnamedSame(a, Counted(a, i, -1), t);
      DrainedUnnamed(Counted(a, i, -1), t);
    } else {
      UnnamedSame(a, Slept(a, i, q), t);
    }
  }

  /** Whatever the next path is: no reply will name a thread of whose send no reply is on its way. */
  lemma StepUnnamed(w: World, l: Path, t: Tid)
    requires Enabled(w, l) && InSend(w, t) && Unnamed(w, t)
    ensures Unnamed(Step(w, l), t)
  {
    var w' := Step(w, l);
    match l
    case Tick => UnnamedSame(w, w', t);
    case Exit => UnnamedSame(w, w', t);
    case Send(j, bytes, q) => SentUnnamed(w, j, bytes, q, t);
    case Receive(c, cap, q) => ReceivedUnnamed(w, c, cap, q, t);
    case Reply(c, v, status, data) =>
      forall d: nat, x: nat ensures SlotOf(w', d, x) == if d == c && x == v then None else SlotOf(w, d, x) {}
      UnnamedKept(w, w', t);
    case Resume(bytes) =>
      match w.cont[Me(w)] {
        case Sending(_) => StoredUnnamed(w, bytes, t);
        case Receiving(_, _) => DrainedUnnamed(w, t);
        case Awaiting(_) =>
          forall c: nat, v: nat ensures SlotOf(w', c, v) == SlotOf(w, c, v) {}
          UnnamedKept(w, w', t);
      }
    case _ =>
      forall c: nat, v: nat ensures SlotOf(w', c, v) == SlotOf(w, c, v) {}
      UnnamedKept(w, w', t);
  }

  // ---------- a thread that no queue leads to ----------

  ghost predicate In(x: Thread?, live: set<Tid>) { x != null ==> x.tid in live }

  /** What the queues lead to is in `live`, which `t` is not. */
  ghost predicate Apart(p: Pointers, live: set<Tid>, t: Tid) {
    && t !in live && In(p.head, live) && In(p.tail, live)
    && (forall i :: 0 <= i < |p.queues| ==> In(p.queues[i], live))
    && (forall u :: 0 <= u < |p.links| && u in live ==> In(p.links[u], live))
  }

  lemma EnqueuedApart(threads: seq<Thread>, p: Pointers, live: set<Tid>, t: Tid, u: Tid)
    requires PointersOk(threads, p) && Apart(p, live, t) && u < |threads| && u != t
    ensures Apart(Enqueued(threads, p, u), live + {u}, t)
  {
  }

  lemma DequeuedApart(threads: seq<Thread>, p: Pointers, live: set<Tid>, t: Tid)
    requires PointersOk(threads, p) && Apart(p, live, t)
    ensures Apart(Dequeued(threads, p).(current := p.head), live, t)
    ensures p.head != null ==> p.head.tid != t
  {
  }

  lemma DetachedApart(threads: seq<Thread>, p: Pointers, live: set<Tid>, t: Tid, i: nat)
    requires PointersOk(threads, p) && Apart(p, live, t) && i < |p.queues| && p.queues[i] != null
    ensures Known(threads, p.queues[i]) && p.queues[i].tid != t && Apart(Detached(threads, p, i), live, t)
  {
    assert p.queues[i] in p.queues;
  }

  lemma AttachedApart(threads: seq<Thread>, p: Pointers, live: set<Tid>, t: Tid, i: nat, q: seq<Tid>, u: Tid)
    requires PointersOk(threads, p) && Apart(p, live, t) && i < |p.queues| && u < |threads| && u != t
    requires q != [] ==> q[|q| - 1] < |threads|
    ensures Apart(Attached(threads, p, i, q, u), live + {u}, t)
  {
  }

  /** Thread `t` is off the CPU, and no queue leads to it. */
  ghost predicate Off(w: World, t: Tid) {
    && (w.ptrs.current != null ==> w.ptrs.current.tid != t)
    && exists live: set<Tid> :: Apart(w.ptrs, live, t)
  }

  /** Thread `t` may be on the CPU, but will not get it again when it has left it. */
  ghost predicate Leaving(w: World, t: Tid) {
    exists live: set<Tid> :: Apart(w.ptrs, live, t)
  }

  lemma UnblockedApart(w: World, t: Tid, u: Tid)
    requires Typed(w) && Leaving(w, t) && u < |w.threads| && u != t
    ensures Leaving(Unblocked(w, u), t)
  {
    var live :| Apart(w.ptrs, live, t);
    EnqueuedApart(w.threads, w.ptrs, live, t, u);
  }

  lemma SwitchedApart(w: World, t: Tid)
    requires Typed(w) && Leaving(w, t) && t < |w.states| && (w.states[t] != StateReady || Off(w, t))
    ensures Off(Switched(w), t)
  {
    var live :| Apart(w.ptrs, live, t);
    var r := Requeued(w);
    if w.ptrs.current != null && w.states[Me(w)] == StateReady {
      EnqueuedApart(w.threads, w.ptrs, live, t, Me(w));
      live := live + {Me(w)};
    }
    assert Apart(r.ptrs, live, t);
    DequeuedApart(r.threads, r.ptrs, live, t);
  }

  lemma BlockedApart(w: World, t: Tid, state: ThreadState)
    requires Typed(w) && w.ptrs.current != null && Leaving(w, t) && t < |w.states|
    requires Off(w, t) || state != StateReady
    ensures Off(Blocked(w, state), t)
  {
    var b := w.(states := w.states[Me(w) := state]);
    QueuesTyped(w, b);
    var live :| Apart(w.ptrs, live, t);
    assert Apart(b.ptrs, live, t);
    SwitchedApart(b, t);
  }

  lemma SignalledApart(w: World, t: Tid, i: nat)
    requires Typed(w) && Leaving(w, t) && i < |w.ptrs.queues|
    ensures Leaving(Signalled(w, i), t)
    ensures t < |w.states| ==> Signalled(w, i).states[t] == w.states[t]
  {
    var live :| Apart(w.ptrs, live, t);
    if w.ptrs.queues[i] == null {
      assert Apart(Counted(w, i, 1).ptrs, live, t);
    } else {
      DetachedApart(w.threads, w.ptrs, live, t, i);
      assert Apart(Unqueued(w, i).ptrs, live, t);
      UnblockedApart(Unqueued(w, i), t, w.ptrs.queues[i].tid);
    }
  }

  lemma SleptApart(w: World, t: Tid, i: nat, q: seq<Tid>)
    requires Typed(w) && i < |w.ptrs.queues| && w.ptrs.current != null && Walked(w, i, q) && t < |w.states|
    requires Off(w, t)
    ensures Off(Slept(w, i, q), t) && Slept(w, i, q).states[t] == w.states[t]
  {
    var live :| Apart(w.ptrs, live, t);
    AttachedApart(w.threads, w.ptrs, live, t, i, q, Me(w));
    assert Apart(Parked(w, i, q).ptrs, live + {Me(w)}, t);
    BlockedApart(Parked(w, i, q), t, StateSema);
  }

  lemma CountedApart(w: World, t: Tid, i: nat, d: int)
    requires Typed(w) && i < |w.ptrs.counts| && Leaving(w, t)
    ensures Leaving(Counted(w, i, d), t)
  {
    var live :| Apart(w.ptrs, live, t);
    assert Apart(Counted(w, i, d).ptrs, live, t);
  }

  lemma StoredApart(w: World, bytes: Bytes, t: Tid)
    requires Stores(w) && Leaving(w, t) && t < |w.states|
    ensures Off(Stored(w, bytes), t)
    ensures Stored(w, bytes).states[t] == if t == Me(w) then StateReply else w.states[t]
  {
    assert ContOk(w, w.cont[Me(w)]);
    var f, i := Filled(w, bytes), R.RecvSem(w.conns[w.cont[Me(w)].conn].chan);
    assert Leaving(f, t);
    SignalledApart(f, t, i);
    BlockedApart(Signalled(f, i), t, StateReply);
  }

  lemma DrainedApart(w: World, t: Tid)
    requires TakesOut(w) && Off(w, t) && t < |w.states|
    ensures Off(Drained(w), t) && Drained(w).states[t] == w.states[t]
  {
    assert ContOk(w, w.cont[Me(w)]);
    var c := w.cont[Me(w)].chan;
    assert Leaving(Emptied(w, c), t);
    SignalledApart(Emptied(w, c), t, R.SendSem(c));
  }

  lemma SentApart(w: World, j: nat, bytes: Bytes, q: seq<Tid>, t: Tid)
    requires Enabled(w, Send(j, bytes, q)) && Off(w, t) && t < |w.states|
    ensures Off(Sent(w, j, bytes, q), t) && Sent(w, j, bytes, q).states[t] == w.states[t]
    ensures Sent(w, j, bytes, q).cont[t] == w.cont[t]
  {
    var a, i := Claimed(w, j), R.SendSem(w.conns[j].chan);
    assert Leaving(a, t);
    if a.ptrs.counts[i] > 0 {
      CountedApart(a, t, i, -1);
      StoredApart(Counted(a, i, -1), bytes, t);
    } else {
      SleptApart(a, t, i, q);
    }
  }

  lemma ReceivedApart(w: World, c: nat, cap: nat, q: seq<Tid>, t: Tid)
    requires Enabled(w, Receive(c, cap, q)) && Off(w, t) && t < |w.states|
    ensures Off(Received(w, c, cap, q), t) && Received(w, c, cap, q).states[t] == w.states[t]
    ensures Received(w, c, cap, q).cont[t] == w.cont[t]
  {
    var a, i := Entered(w, c, cap), R.RecvSem(c);
    assert Leaving(a, t);
    if a.ptrs.counts[i] > 0 {
      CountedApart(a, t, i, -1);
      DrainedApart(Counted(a, i, -1), t);
    } else {
      SleptApart(a, t, i, q);
    }
  }

  lemma AnsweredApart(w: World, c: nat, v: nat, status: int, data: Option<Bytes>, t: Tid)
    requires Typed(w) && SlotOf(w, c, v).Some? && Off(w, t) && NotOwned(w, SlotOf(w, c, v).value, t) && t < |w.states|
    ensures Off(Answered(w, c, v, status, data), t) && Answered(w, c, v, status, data).states[t] == w.states[t]
  {
    assert Leaving(Cleared(w, c, v, status, data), t);
    UnblockedApart(Cleared(w, c, v, status, data), t, w.conns[SlotOf(w, c, v).value].owner);
  }

  lemma SpawnedApart(w: World, x: Thread, t: Tid)
    requires Typed(w) && x.tid == |w.threads| && Off(w, t) && t < |w.states|
    ensures Off(Spawned(w, x), t)
  {
    var live :| Apart(w.ptrs, live, t);
    var ts, p := w.threads + [x], w.ptrs.(links := w.ptrs.links + [null]);
    assert PointersOk(ts, p) && Apart(p, live, t);
    EnqueuedApart(ts, p, live, t, |w.threads|);
  }

  /** Thread `t` waits for a reply that will not come. */
  ghost predicate Lost(w: World, t: Tid) {
    Typed(w) && t < |w.cont| && w.cont[t].Awaiting? && w.states[t] == StateReply && Unnamed(w, t) && Off(w, t)
  }

  /** No path changes that. */
  lemma StepLost(w: World, l: Path, t: Tid)
    requires Enabled(w, l) && Lost(w, t)
    ensures Lost(Step(w, l), t)
  {
    StepUnnamed(w, l, t);
    var live :| Apart(w.ptrs, live, t);
    match l
    case Tick => SwitchedApart(w, t);
    case Exit => BlockedApart(w, t, StateDead);
    case Clone(x) => SpawnedApart(w, x, t);
    case Listen => assert Apart(Listening(w).ptrs, live, t);
    case Connecting(c) =>
    case Send(j, bytes, q) => SentApart(w, j, bytes, q, t);
    case Receive(c, cap, q) => ReceivedApart(w, c, cap, q, t);
    case Reply(c, v, status, data) => AnsweredApart(w, c, v, status, data, t);
    case Resume(bytes) =>
      match w.cont[Me(w)]
      case Sending(_) => StoredApart(w, bytes, t);
      case Receiving(_, _) => DrainedApart(w, t);
      case Awaiting(_) => assert Apart(Returned(w).ptrs, live, t);
  }

  /** A lost thread never runs again, whatever calls are made. */
  lemma {:induction false} LostForever(ws: seq<World>, ls: seq<Path>, t: Tid, i: nat)
    requires Run(ws, ls) && i < |ws| && Lost(ws[0], t)
    ensures Lost(ws[i], t)
  {
    if i > 0 {
      LostForever(ws, ls, t, i - 1);
      assert Goes(ws[i - 1], ls[i - 1], ws[i]);
      StepLost(ws[i - 1], ls[i - 1], t);
    }
  }

  /** As long as a thread that no reply will name stays in its send, that does not change. */
  lemma {:induction false} StaysUnnamed(ws: seq<World>, ls: seq<Path>, t: Tid, i: nat)
    requires Run(ws, ls) && i < |ws| && Unnamed(ws[0], t) && forall n :: 0 <= n < i ==> InSend(ws[n], t)
    ensures Unnamed(ws[i], t)
  {
    if i > 0 {
      StaysUnnamed(ws, ls, t, i - 1);
      assert Goes(ws[i - 1], ls[i - 1], ws[i]);
      StepUnnamed(ws[i - 1], ls[i - 1], t);
    }
  }

  /** So the reply that wakes the owner of a connection never wakes that thread. */
  lemma NeverNamed(ws: seq<World>, ls: seq<Path>, t: Tid, i: nat, c: nat, v: nat)
    requires Run(ws, ls) && i < |ws| && Unnamed(ws[0], t) && (forall n :: 0 <= n < i ==> InSend(ws[n], t))
    requires SlotOf(ws[i], c, v).Some?
    ensures NotOwned(ws[i], SlotOf(ws[i], c, v).value, t)
  {
    StaysUnnamed(ws, ls, t, i);
  }

  /** A thread that no reply will name and that only the CPU still shows is lost when it has stored its message. */
  lemma StoreLoses(w: World, bytes: Bytes)
    requires Stores(w) && Unnamed(w, Me(w)) && Leaving(w, Me(w))
    ensures Enabled(w, Resume(bytes)) && Lost(Step(w, Resume(bytes)), Me(w))
  {
    StoredUnnamed(w, bytes, Me(w));
    StoredApart(w, bytes, Me(w));
  }
}
