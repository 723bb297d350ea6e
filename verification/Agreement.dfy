/** While the rules of the message protocol are kept, the paths of module Loose are the steps of Rendezvous. */
module Agreement {
  import opened Wrappers
  import opened Scheduling
  import opened Kernel
  import opened Loose
  import Vector
  import R = Rendezvous
  import Runs

  // ---------- queues ----------

  /** The pointers are the queues of `k`. */
  ghost predicate Queues(w: World, k: Core) {
    Typed(w) && Represents(w.threads, w.ptrs, k) && Lists(k)
  }

  /** The `state` fields are those of the places. */
  ghost predicate Places(w: World, k: Core) {
    |w.states| == |k.where| && forall t :: 0 <= t < |k.where| ==> w.states[t] == StateOf(k.where[t])
  }

  lemma UnblockedAgrees(w: World, k: Core, t: Tid)
    requires Queues(w, k) && t < |k.where| && !Listed(k.where[t])
    ensures Queues(Unblocked(w, t), Enqueue(k, t))
    ensures Unblocked(w, t).states == w.states[t := StateReady]
  {
    var p, e := EnqueueRepresents(w.threads, w.ptrs, k, t);
  }

  lemma RequeuedAgrees(w: World, k: Core)
    requires Queues(w, k) && Places(w, k) && Inv(k)
    ensures Queues(Requeued(w), Requeue(k)) && Places(Requeued(w), Requeue(k))
  {
    if w.ptrs.current != null && w.states[w.ptrs.current.tid] == StateReady {
      var t := k.cur.value;
      assert w.threads[t] == w.ptrs.current && k.where[t] == Running;
      var p, e := EnqueueRepresents(w.threads, w.ptrs, k, t);
    }
  }

  lemma DispatchedAgrees(w: World, k: Core)
    requires Queues(w, k) && Places(w, k) && (k.ready != [] ==> k.ready[0] < |k.where|)
    ensures Queues(Dispatched(w), Dispatch(k)) && Places(Dispatched(w), Dispatch(k))
  {
    if k.ready == [] {
      SameQueues(k, Dispatch(k));
    } else {
      var p, d := DequeueRepresents(w.threads, w.ptrs, k);
      SameQueues(d, Dispatch(k));
    }
  }

  lemma SwitchedAgrees(w: World, k: Core)
    requires Queues(w, k) && Places(w, k) && Inv(k)
    ensures k.ready != [] ==> k.ready[0] < |k.where|
    ensures Queues(Switched(w), Schedule(k)) && Places(Switched(w), Schedule(k))
  {
    ReadyInRange(k);
    RequeuedAgrees(w, k);
    DispatchedAgrees(Requeued(w), Requeue(k));
  }

  lemma BlockedAgrees(w: World, k: Core, state: ThreadState, x: Where)
    requires Queues(w, k) && Places(w, k) && Settled(k) && k.cur.Some?
    requires !Listed(x) && x != Running && state == StateOf(x)
    ensures k.ready != [] ==> k.ready[0] < |k.where|
    ensures w.ptrs.current != null && Me(w) == k.cur.value
    ensures Queues(Blocked(w, state), Block(k, x)) && Places(Blocked(w, state), Block(k, x))
  {
    var k' := k.(where := k.where[k.cur.value := x]);
    RelabelOwns(k, k', k.cur.value, x);
    var b := w.(states := w.states[Me(w) := state]);
    QueuesTyped(w, b);
    SwitchedAgrees(b, k');
  }

  lemma CountedAgrees(w: World, k: Core, i: nat, d: int)
    requires Queues(w, k) && Places(w, k) && i < |k.sems|
    ensures var k' := k.(sems := k.sems[i := k.sems[i].(count := k.sems[i].count + d)]);
            i < |w.ptrs.counts| && Queues(Counted(w, i, d), k') && Places(Counted(w, i, d), k')
  {
    SameQueues(k, k.(sems := k.sems[i := k.sems[i].(count := k.sems[i].count + d)]));
  }

  lemma SignalledAgrees(w: World, k: Core, i: nat)
    requires Queues(w, k) && Places(w, k) && Settled(k) && i < |k.sems|
    ensures k.sems[i].queue != [] ==> k.sems[i].queue[0] < |k.where|
    ensures Settled(Signal(k, i))
    ensures Queues(Signalled(w, i), Signal(k, i)) && Places(Signalled(w, i), Signal(k, i))
  {
    SignalKeeps(k, i);
    var q := k.sems[i].queue;
    if q == [] {
      CountedAgrees(w, k, i, 1);
    } else {
      var p, g := GrantRepresents(w.threads, w.ptrs, k, i);
      UnblockedAgrees(Unqueued(w, i), g, q[0]);
      assert Enqueue(g, q[0]).where == k.where[q[0] := Ready];
      assert Enqueue(g, q[0]) == Signal(k, i);
    }
  }

  /** The caller's walk along a queue in order ends at its last thread. */
  lemma SleptAgrees(w: World, k: Core, i: nat)
    requires Queues(w, k) && Places(w, k) && Settled(k) && k.cur.Some? && i < |k.sems| && !Free(k, i)
    ensures k.ready != [] ==> k.ready[0] < |k.where|
    ensures w.ptrs.current != null && Me(w) == k.cur.value && i < |w.ptrs.queues| && Walked(w, i, k.sems[i].queue)
    ensures var w' := Slept(w, i, k.sems[i].queue);
            Queues(w', Schedule(Park(k, i))) && Places(w', Schedule(Park(k, i)))
  {
    var q := k.sems[i].queue;
    ReadyInRange(k);
    ParkKeeps(k, i);
    var p, e := WaitRepresents(w.threads, w.ptrs, k, i);
    var a := Parked(w, i, q);
    var b := a.(states := a.states[Me(a) := StateSema]);
    QueuesTyped(a, b);
    assert Queues(b, Park(k, i)) && Places(b, Park(k, i));
    SwitchedAgrees(b, Park(k, i));
  }

  /** The threads in the lists of the protocol. */
  ghost function Linkeds(k: Core): set<Tid> {
    set u: Tid | u < |k.where| && Listed(k.where[u])
  }

  lemma NthListed(threads: seq<Thread>, k: Core, x: Where, i: nat)
    requires Lists(k) && Listed(x) && |threads| == |k.where| && Numbered(threads)
    ensures In(Nth(threads, Queue(k, x), i), Linkeds(k))
  {
    assert Owns(k, x);
    if i < |Queue(k, x)| { assert Queue(k, x)[i] in Queue(k, x); }
  }

  /** The first pointer and the links of one list stay in it. */
  lemma ListIn(threads: seq<Thread>, links: Links, first: Thread?, k: Core, x: Where)
    requires Lists(k) && Listed(x) && |threads| == |k.where| == |links| && Numbered(threads)
    requires Linked(threads, links, first, Queue(k, x))
    ensures In(first, Linkeds(k))
    ensures forall u: Tid :: u < |links| && k.where[u] == x ==> In(links[u], Linkeds(k))
  {
    NthListed(threads, k, x, 0);
    forall u: Tid | u < |links| && k.where[u] == x ensures In(links[u], Linkeds(k)) {
      assert Owns(k, x) && u in Queue(k, x);
      var n :| 0 <= n < |Queue(k, x)| && Queue(k, x)[n] == u;
      NthListed(threads, k, x, n + 1);
    }
  }

  /** No queue leads to a thread that is in no list. */
  lemma UnlistedApart(w: World, k: Core, t: Tid)
    requires Queues(w, k) && t < |k.where| && !Listed(k.where[t])
    ensures Leaving(w, t)
  {
    var p, live := w.ptrs, Linkeds(k);
    assert Queue(k, Ready) == k.ready;
    ListIn(w.threads, p.links, p.head, k, Ready);
    if k.ready != [] { NthListed(w.threads, k, Ready, |k.ready| - 1); }
    forall i | 0 <= i < |p.queues|
      ensures In(p.queues[i], live)
      ensures forall u: Tid :: u < |p.links| && k.where[u] == OnSem(i) ==> In(p.links[u], live)
    {
      assert Queue(k, OnSem(i)) == k.sems[i].queue;
      ListIn(w.threads, p.links, p.queues[i], k, OnSem(i));
    }
    forall u: Tid | u < |p.links| && u in live ensures In(p.links[u], live) {
      assert Owns(k, k.where[u]) && u in Queue(k, k.where[u]);
    }
    assert Apart(p, live, t);
  }

  // ---------- steps ----------

  function ConnectOf(n: R.Conn): Connect { Connect(n.chan, n.owner, n.reply, n.status) }

  function ChannelOf(n: R.Chan): Channel { Channel(n.slots, n.recvid, n.buffer) }

  /** The fields of connections and channels that are in the kernel. */
  ghost predicate ShowsCalls(w: World, s: R.State) {
    && w.cont == s.cont && |w.conns| == |s.conns| && |w.chans| == |s.chans|
    && (forall j :: 0 <= j < |s.conns| ==> w.conns[j] == ConnectOf(s.conns[j]))
    && (forall c :: 0 <= c < |s.chans| ==> w.chans[c] == ChannelOf(s.chans[c]))
  }

  /** The memory of `w` is what state `s` says. */
  ghost predicate Shows(w: World, s: R.State) {
    Queues(w, s.core) && Places(w, s.core) && ShowsCalls(w, s)
  }

  lemma FilledCalls(w: World, s: R.State, bytes: Bytes)
    requires R.Protocol(s) && R.HoldsSend(s) && Shows(w, s)
    ensures Stores(w) && ShowsCalls(Filled(w, bytes), R.Deposit(s, bytes))
  {
    assert R.ThreadOk(s, R.Me(s));
  }

  lemma FilledQueues(w: World, k: Core, bytes: Bytes)
    requires Stores(w) && Queues(w, k) && Places(w, k)
    ensures Queues(Filled(w, bytes), k) && Places(Filled(w, bytes), k)
  {
  }

  lemma StoredQueues(w: World, k: Core, bytes: Bytes, j: nat)
    requires Stores(w) && Queues(w, k) && Places(w, k) && Settled(k)
    requires w.cont[Me(w)] == R.Sending(j) && j < |w.conns| && R.RecvSem(w.conns[j].chan) < |k.sems|
    ensures var i := R.RecvSem(w.conns[j].chan);
            && (k.sems[i].queue != [] ==> k.sems[i].queue[0] < |k.where|) && Settled(Signal(k, i))
            && var g := Signal(k, i);
               g.cur.Some? && g.cur.value < |g.where| && (g.ready != [] ==> g.ready[0] < |g.where|)
               && Queues(Stored(w, bytes), Block(g, OnReply)) && Places(Stored(w, bytes), Block(g, OnReply))
  {
    var i := R.RecvSem(w.conns[j].chan);
    FilledQueues(w, k, bytes);
    SignalledAgrees(Filled(w, bytes), k, i);
    BlockedAgrees(Signalled(Filled(w, bytes), i), Signal(k, i), StateReply, OnReply);
  }

  lemma StoredShows(w: World, s: R.State, bytes: Bytes)
    requires R.Protocol(s) && R.HoldsSend(s) && Shows(w, s)
    ensures Stores(w) && Shows(Stored(w, bytes), R.Deposit(s, bytes))
  {
    assert R.ThreadOk(s, R.Me(s));
    FilledCalls(w, s, bytes);
    StoredQueues(w, s.core, bytes, s.cont[R.Me(s)].conn);
  }

  lemma EmptiedCalls(w: World, s: R.State, c: nat)
    requires R.Protocol(s) && R.HoldsRecv(s) && Shows(w, s) && c == s.cont[R.Me(s)].chan
    ensures TakesOut(w) && c < |w.chans| && ShowsCalls(Emptied(w, c), R.Drain(s))
  {
    assert R.ThreadOk(s, R.Me(s)) && R.TokenOk(s, c);
  }

  lemma DrainedShows(w: World, s: R.State)
    requires R.Protocol(s) && R.HoldsRecv(s) && Shows(w, s)
    ensures TakesOut(w) && Shows(Drained(w), R.Drain(s))
  {
    var c := s.cont[R.Me(s)].chan;
    assert R.ThreadOk(s, R.Me(s)) && R.TokenOk(s, c);
    EmptiedCalls(w, s, c);
    var e := Emptied(w, c);
    assert Queues(e, s.core) && Places(e, s.core);
    SignalledAgrees(e, s.core, R.SendSem(c));
  }

  lemma ClaimedShows(w: World, s: R.State, j: nat, cap: nat)
    requires R.Protocol(s) && R.MaySend(s, j) && Shows(w, s)
    ensures Loose.InUser(w) && j < |w.conns| && R.ConnOk(s, j)
    ensures Queues(Claimed(w, j), s.core) && Places(Claimed(w, j), s.core)
    ensures ShowsCalls(Claimed(w, j), R.SendArrive(s, j, cap))
  {
    assert R.ConnOk(s, j);
  }

  lemma SentSleeps(w: World, s: R.State, j: nat, cap: nat)
    requires R.Protocol(s) && R.MaySend(s, j) && Shows(w, s)
    requires R.ConnOk(s, j) && !Free(s.core, R.SendSem(s.conns[j].chan))
    ensures Loose.InUser(w) && j < |w.conns|
    ensures var a, i := Claimed(w, j), R.SendSem(s.conns[j].chan);
            && i < |a.ptrs.queues| && a.ptrs.counts[i] <= 0 && Walked(a, i, s.core.sems[i].queue)
            && Shows(Slept(a, i, s.core.sems[i].queue), R.SendArrive(s, j, cap))
  {
    ClaimedShows(w, s, j, cap);
    SleptAgrees(Claimed(w, j), s.core, R.SendSem(s.conns[j].chan));
  }

  lemma SentTakes(w: World, s: R.State, j: nat, cap: nat)
    requires R.Protocol(s) && R.MaySend(s, j) && Shows(w, s)
    requires R.ConnOk(s, j) && Free(s.core, R.SendSem(s.conns[j].chan))
    ensures Loose.InUser(w) && j < |w.conns|
    ensures var a, i := Claimed(w, j), R.SendSem(s.conns[j].chan);
            i < |a.ptrs.queues| && a.ptrs.counts[i] > 0 && Shows(Counted(a, i, -1), R.SendArrive(s, j, cap))
  {
    ClaimedShows(w, s, j, cap);
    CountedAgrees(Claimed(w, j), s.core, R.SendSem(s.conns[j].chan), -1);
  }

  lemma SentShows(w: World, s: R.State, j: nat, bytes: Bytes, cap: nat) returns (q: seq<Tid>, w': World, s': R.State)
    requires R.Protocol(s) && R.MaySend(s, j) && Shows(w, s)
    ensures Loose.Enabled(w, Send(j, bytes, q)) && w' == Sent(w, j, bytes, q)
    ensures s' == Runs.Step(s, Runs.DoSend(j, bytes, cap)) && Shows(w', s')
  {
    Runs.SendSteps(s, j, bytes, cap);
    var i := R.SendSem(s.conns[j].chan);
    q := s.core.sems[i].queue;
    if Free(s.core, i) {
      SentTakes(w, s, j, cap);
      w', s' := Stored(Counted(Claimed(w, j), i, -1), bytes), R.Deposit(R.SendArrive(s, j, cap), bytes);
      StoredShows(Counted(Claimed(w, j), i, -1), R.SendArrive(s, j, cap), bytes);
    } else {
      SentSleeps(w, s, j, cap);
      w', s' := Slept(Claimed(w, j), i, q), R.SendArrive(s, j, cap);
    }
  }

  lemma EnteredShows(w: World, s: R.State, c: nat, cap: nat)
    requires R.Protocol(s) && R.InUser(s) && c < |s.chans| && Shows(w, s)
    ensures Loose.InUser(w) && c < |w.chans|
    ensures Queues(Entered(w, c, cap), s.core) && Places(Entered(w, c, cap), s.core)
    ensures ShowsCalls(Entered(w, c, cap), R.RecvArrive(s, c, cap))
  {
  }

  lemma ReceivedSleeps(w: World, s: R.State, c: nat, cap: nat)
    requires R.Protocol(s) && R.InUser(s) && c < |s.chans| && Shows(w, s) && !Free(s.core, R.RecvSem(c))
    ensures Loose.InUser(w) && c < |w.chans|
    ensures var a, i := Entered(w, c, cap), R.RecvSem(c);
            && i < |a.ptrs.queues| && a.ptrs.counts[i] <= 0 && Walked(a, i, s.core.sems[i].queue)
            && Shows(Slept(a, i, s.core.sems[i].queue), R.RecvArrive(s, c, cap))
  {
    EnteredShows(w, s, c, cap);
    SleptAgrees(Entered(w, c, cap), s.core, R.RecvSem(c));
  }

  lemma ReceivedTakes(w: World, s: R.State, c: nat, cap: nat)
    requires R.Protocol(s) && R.InUser(s) && c < |s.chans| && Shows(w, s) && Free(s.core, R.RecvSem(c))
    ensures Loose.InUser(w) && c < |w.chans|
    ensures var a, i := Entered(w, c, cap), R.RecvSem(c);
            i < |a.ptrs.queues| && a.ptrs.counts[i] > 0 && Shows(Counted(a, i, -1), R.RecvArrive(s, c, cap))
  {
    EnteredShows(w, s, c, cap);
    CountedAgrees(Entered(w, c, cap), s.core, R.RecvSem(c), -1);
  }

  lemma ReceivedShows(w: World, s: R.State, c: nat, cap: nat) returns (q: seq<Tid>, w': World, s': R.State)
    requires R.Protocol(s) && R.InUser(s) && c < |s.chans| && Shows(w, s)
    ensures Loose.Enabled(w, Receive(c, cap, q)) && w' == Received(w, c, cap, q)
    ensures s' == Runs.Step(s, Runs.DoReceive(c, cap)) && Shows(w', s')
  {
    Runs.ReceiveSteps(s, c, cap);
    q := s.core.sems[R.RecvSem(c)].queue;
    if Free(s.core, R.RecvSem(c)) {
      ReceivedTakes(w, s, c, cap);
      w', s' := Drained(Counted(Entered(w, c, cap), R.RecvSem(c), -1)), R.Drain(R.RecvArrive(s, c, cap));
      DrainedShows(Counted(Entered(w, c, cap), R.RecvSem(c), -1), R.RecvArrive(s, c, cap));
    } else {
      ReceivedSleeps(w, s, c, cap);
      w', s' := Slept(Entered(w, c, cap), R.RecvSem(c), q), R.RecvArrive(s, c, cap);
    }
  }

  lemma ClearedCalls(w: World, s: R.State, v: nat, status: int, data: Option<Bytes>, c: nat)
    requires R.Protocol(s) && R.HasSlot(s, v) && Shows(w, s) && c == s.home[s.pid[R.Me(s)]]
    ensures SlotOf(w, c, v).Some? && SlotOf(w, c, v).value < |w.conns|
    ensures ShowsCalls(Cleared(w, c, v, status, data), R.Reply(s, v, status, data))
  {
  }

  lemma AnsweredShows(w: World, s: R.State, v: nat, status: int, data: Option<Bytes>)
    requires R.Protocol(s) && R.HasSlot(s, v) && Shows(w, s)
    ensures var c := s.home[s.pid[R.Me(s)]];
            Loose.Enabled(w, Reply(c, v, status, data))
            && Shows(Answered(w, c, v, status, data), R.Reply(s, v, status, data))
  {
    var c := s.home[s.pid[R.Me(s)]];
    ClearedCalls(w, s, v, status, data, c);
    var j := SlotOf(w, c, v).value;
    assert R.SlotOk(s, c, v) && R.ConnOk(s, j) && R.ThreadOk(s, s.conns[j].owner);
    var e := Cleared(w, c, v, status, data);
    assert Queues(e, s.core) && Places(e, s.core);
    UnblockedAgrees(e, s.core, s.conns[j].owner);
  }

  lemma SpawnedShows(w: World, s: R.State, p: nat, x: Thread)
    requires R.Protocol(s) && Shows(w, s) && x.tid == |w.threads|
    ensures Shows(Spawned(w, x), R.Clone(s, p))
  {
    var ptrs, k := NewbornRepresents(w.threads, w.ptrs, s.core, x);
    var p', e := EnqueueRepresents(w.threads + [x], ptrs, k, |w.threads|);
    assert e == Spawn(s.core);
  }

  lemma ListeningShows(w: World, s: R.State)
    requires R.Protocol(s) && R.InUser(s) && Shows(w, s)
    ensures Shows(Listening(w), R.Listen(s))
  {
    assert R.ThreadOk(s, R.Me(s));
    var p, k := NewSemRepresents(w.threads, w.ptrs, s.core, 1);
    var p', k' := NewSemRepresents(w.threads, p, k, 0);
    assert w.ptrs.queues + [null, null] == w.ptrs.queues + [null] + [null];
    assert w.ptrs.counts + [1, 0] == w.ptrs.counts + [1] + [0];
  }

  lemma ResumedShows(w: World, s: R.State, bytes: Bytes)
    requires R.Protocol(s) && Runs.Enabled(s, Runs.DoResume(bytes)) && Shows(w, s)
    ensures Loose.Enabled(w, Resume(bytes)) && Shows(Resumed(w, bytes), Runs.Step(s, Runs.DoResume(bytes)))
  {
    assert R.ThreadOk(s, R.Me(s));
    match s.cont[R.Me(s)]
    case Sending(_) => StoredShows(w, s, bytes);
    case Receiving(_, _) => DrainedShows(w, s);
    case Awaiting(_) =>
  }

  /** Every step within the rules is a path of module Loose, on memory that shows the state before and after. */
  lemma StepIsPath(w: World, s: R.State, l: Runs.Label, x: Thread) returns (l': Path)
    requires R.Protocol(s) && Runs.Enabled(s, l) && Shows(w, s) && x.tid == |w.threads|
    ensures Loose.Enabled(w, l') && Shows(Loose.Step(w, l'), Runs.Step(s, l))
  {
    match l
    case DoTick =>
      l' := Tick;
      SwitchedAgrees(w, s.core);
    case DoExit =>
      l' := Exit;
      BlockedAgrees(w, s.core, StateDead, Dead);
    case DoClone(p) =>
      l' := Clone(x);
      SpawnedShows(w, s, p, x);
    case DoListen =>
      l' := Listen;
      ListeningShows(w, s);
    case DoConnect(c) =>
      l' := Connecting(c);
    case DoSend(j, bytes, cap) =>
      var q, w', s' := SentShows(w, s, j, bytes, cap);
      l' := Send(j, bytes, q);
    case DoReceive(c, cap) =>
      var q, w', s' := ReceivedShows(w, s, c, cap);
      l' := Receive(c, cap, q);
    case DoReply(v, status, data) =>
      AnsweredShows(w, s, v, status, data);
      l' := Reply(s.home[s.pid[R.Me(s)]], v, status, data);
    case DoResume(bytes) =>
      ResumedShows(w, s, bytes);
      l' := Resume(bytes);
  }

  lemma EmptyShows() returns (w: World)
    ensures Shows(w, R.INIT)
  {
    w := World([], Pointers(null, null, null, [], [], []), [], [], [], []);
    BootSettled();
  }

  /** A run within the rules is a run of module Loose; `xs` are the thread objects that may be allocated on the way. */
  lemma {:induction false} RunIsLoose(ss: seq<R.State>, ls: seq<Runs.Label>, xs: seq<Thread>, i: nat)
    returns (ws: seq<World>, ps: seq<Path>)
    requires Runs.Run(ss, ls) && i < |ss| && |xs| == |ls|
    requires forall n :: 0 <= n < |ls| ==> xs[n].tid == |ss[n].core.where|
    ensures Run(ws, ps) && |ps| == i && forall n :: 0 <= n <= i ==> Shows(ws[n], ss[n])
  {
    if i == 0 {
      var w := EmptyShows();
      ws, ps := [w], [];
    } else {
      ws, ps := RunIsLoose(ss, ls, xs, i - 1);
      Runs.RunGood(ss, ls, i - 1);
      assert Runs.Next(ss[i - 1], ls[i - 1], ss[i]);
      var p := StepIsPath(ws[i - 1], ss[i - 1], ls[i - 1], xs[i - 1]);
      var w := Loose.Step(ws[i - 1], p);
      RunMore(ws, ps, p, w);
      ws, ps := ws + [w], ps + [p];
    }
  }
}
