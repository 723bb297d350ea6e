/**
 * The message calls of kernel/ipc.c on the kernel's objects.  Each method is one kernel
 * path and is proved to take exactly the step of the message machine that its contract
 * names, so the properties in module Runs hold of this code.
 *
 * A call that sleeps is split at the sleep: the second half is a method of its own, and
 * its parameters are the locals that the kernel stack keeps meanwhile.
 */
module Ipc {
  import opened Wrappers
  import opened Scheduling
  import opened Rendezvous
  import opened Runs
  import Kernel
  import Vector

  class Channel {
    ghost const id: nat
    const sendSem: Kernel.Semaphore
    const recvSem: Kernel.Semaphore
    var reply: seq<Option<Connection>>
    var recvid: nat
    var buffer: Option<Bytes>

    constructor (ghost id: nat, sendSem: Kernel.Semaphore, recvSem: Kernel.Semaphore)
      ensures this.id == id && this.sendSem == sendSem && this.recvSem == recvSem
      ensures reply == Vector.Nulls(4) && recvid == 0 && buffer == None
    {
      this.id := id;
      this.sendSem := sendSem;
      this.recvSem := recvSem;
      reply := Vector.Nulls(4);
      recvid := 0;
      buffer := None;
    }

    /** The message is in the channel, its connection in the first free reply slot. */
    method Fill(conn: Connection, bytes: Bytes)
      modifies this
      ensures buffer == Some(bytes)
      ensures recvid == Vector.FirstNull(old(reply))
      ensures reply == Vector.Added(old(reply), Some(conn))
    {
      buffer := Some(bytes);
      recvid := Vector.FirstNull(reply);
      reply := Vector.Added(reply, Some(conn));
    }
  }

  class Connection {
    ghost const id: nat
    const chan: Channel
    var owner: Kernel.Thread?
    var buffer: Bytes
    var status: int

    constructor (ghost id: nat, chan: Channel)
      ensures this.id == id && this.chan == chan && buffer == [] && status == 0
    {
      this.id := id;
      this.chan := chan;
      owner := null;
      buffer := [];
      status := 0;
    }
  }

  /** A slot table with the connections in place of their numbers. */
  ghost function Objects(conns: seq<Connection>, slots: seq<Option<nat>>): (r: seq<Option<Connection>>)
    ensures |r| == |slots|
  {
    seq(|slots|, v requires 0 <= v < |slots| =>
      if slots[v].Some? && slots[v].value < |conns| then Some(conns[slots[v].value]) else None)
  }

  ghost predicate Numbers(conns: seq<Connection>, slots: seq<Option<nat>>) {
    forall v :: 0 <= v < |slots| && slots[v].Some? ==> slots[v].value < |conns|
  }

  /** vector_add of a connection to the table of objects and of its number to the table of numbers. */
  lemma AddedObjects(conns: seq<Connection>, slots: seq<Option<nat>>, j: nat)
    requires Numbers(conns, slots) && j < |conns|
    ensures Vector.FirstNull(Objects(conns, slots)) == Vector.FirstNull(slots)
    ensures Objects(conns, Vector.Added(slots, Some(j))) == Vector.Added(Objects(conns, slots), Some(conns[j]))
  {
    var r := Objects(conns, slots);
    assert forall v: nat :: v < |slots| ==> (r[v].Some? <==> slots[v].Some?);
  }

  /** Connection number `j` holds what `n` says. */
  ghost predicate ConnHolds(conn: Connection, j: nat, n: Conn, threads: seq<Kernel.Thread>, chans: seq<Channel>)
    reads conn
  {
    && conn.id == j
    && n.chan < |chans| && conn.chan == chans[n.chan]
    && conn.buffer == n.reply && conn.status == n.status
    && (n.phase != Idle ==> n.owner < |threads| && conn.owner == threads[n.owner])
  }

  /** Channel number `c` holds what `h` says. */
  ghost predicate ChanHolds(chan: Channel, c: nat, h: Chan, conns: seq<Connection>,
                            send: Kernel.Semaphore, recv: Kernel.Semaphore)
    reads chan
  {
    && chan.id == c && chan.sendSem == send && chan.recvSem == recv
    && chan.reply == Objects(conns, h.slots)
    && chan.recvid == h.recvid && chan.buffer == h.buffer
  }

  /** The fields of a channel that the kernel has. */
  ghost predicate SameFields(h: Chan, h': Chan) {
    h.slots == h'.slots && h.recvid == h'.recvid && h.buffer == h'.buffer
  }

  /** The fields of connection `j` and channel `c` after a reply on slot `v`. */
  ghost predicate Replaced(s: State, s': State, c: nat, j: nat, v: nat, status: int, data: Option<Bytes>)
    requires c < |s.chans| && j < |s.conns|
  {
    && |s'.conns| == |s.conns| && s'.conns == s.conns[j := s'.conns[j]]
    && s'.conns[j].chan == s.conns[j].chan && s'.conns[j].owner == s.conns[j].owner && s.conns[j].phase != Idle
    && s'.conns[j].status == status
    && s'.conns[j].reply == (if data.Some? then data.value else s.conns[j].reply)
    && |s'.chans| == |s.chans| && s'.chans == s.chans[c := s'.chans[c]]
    && v < |s.chans[c].slots|
    && SameFields(s'.chans[c], s.chans[c].(slots := s.chans[c].slots[v := None]))
  }

  /** A reply on channel `c` answers connection `j` and wakes its owner. */
  ghost predicate Replying(s: State, s': State, c: nat, j: nat, v: nat, status: int, data: Option<Bytes>) {
    && c < |s.chans| && j < |s.conns| && Vector.At(s.chans[c].slots, v) == Some(j)
    && s.conns[j].owner < |s.core.where| && s.core.where[s.conns[j].owner] == OnReply
    && Replaced(s, s', c, j, v, status, data)
    && s'.core == Enqueue(s.core, s.conns[j].owner) && s'.home == s.home && Protocol(s')
  }

  lemma ReplyEffect(s: State, v: nat, status: int, data: Option<Bytes>) returns (j: nat, s': State)
    requires Protocol(s) && MayReply(s, v)
    ensures s' == Rendezvous.Reply(s, v, status, data)
    ensures Replying(s, s', s.home[s.pid[Me(s)]], j, v, status, data)
  {
    var c := s.home[s.pid[Me(s)]];
    assert SlotOk(s, c, v);
    j := s.chans[c].slots[v].value;
    assert ConnOk(s, j) && ThreadOk(s, s.conns[j].owner);
    ReplyKeeps(s, v, status, data);
    s' := Rendezvous.Reply(s, v, status, data);
  }

  /** The reply is taken out of connection `j`. */
  ghost predicate Collected(s: State, s': State, j: nat)
    requires j < |s.conns|
  {
    && |s'.conns| == |s.conns| && s'.conns == s.conns[j := s.conns[j].(reply := [], phase := Idle)]
    && s'.chans == s.chans
  }

  /** The last event of `s'` is that the send of the current thread of `s` returned `status` and `bytes`. */
  ghost predicate GotReply(s: State, s': State, j: nat, status: int, bytes: Bytes)
    requires s.core.cur.Some?
  {
    && |s'.log| == |s.log| + 1
    && s'.log[|s.log|].Returned? && s'.log[|s.log|].t == Me(s) && s'.log[|s.log|].conn == j
    && s'.log[|s.log|].status == status && s'.log[|s.log|].bytes == bytes
  }

  lemma ReturnEffect(s: State, j: nat) returns (s': State)
    requires Protocol(s) && Replyable(s) && s.cont[Me(s)] == Awaiting(j)
    ensures j < |s.conns| && s' == Return(s) && Protocol(s')
    ensures s'.core == s.core && Collected(s, s', j)
    ensures GotReply(s, s', j, s.conns[j].status, Truncate(s.conns[j].reply, s.conns[j].cap))
    ensures s'.home == s.home
  {
    assert ThreadOk(s, Me(s));
    ReturnKeeps(s);
    s' := Return(s);
  }

  lemma TickEffect(s: State) returns (s': State)
    requires Protocol(s)
    ensures Inv(s.core) && (s.core.ready != [] ==> s.core.ready[0] < |s.core.where|)
    ensures s' == Tick(s) && Protocol(s') && s'.core == Schedule(s.core) && s'.conns == s.conns && s'.chans == s.chans
    ensures s'.home == s.home
  {
    ReadyInRange(s.core);
    TickKeeps(s);
    s' := Tick(s);
  }

  lemma ExitEffect(s: State) returns (s': State)
    requires Protocol(s) && InUser(s)
    ensures Settled(s.core) && (s.core.ready != [] ==> s.core.ready[0] < |s.core.where|)
    ensures s' == Exit(s) && Protocol(s') && s'.core == Block(s.core, Dead)
    ensures s'.conns == s.conns && s'.chans == s.chans
    ensures s'.home == s.home
  {
    ReadyInRange(s.core);
    ExitKeeps(s);
    s' := Exit(s);
  }

  lemma CloneEffect(s: State, p: nat) returns (s': State)
    requires Protocol(s)
    ensures s' == Clone(s, p) && Protocol(s') && s'.core == Spawn(s.core) && s'.conns == s.conns && s'.chans == s.chans
    ensures s'.home == s.home
  {
    CloneKeeps(s, p);
    s' := Clone(s, p);
  }

  lemma ListenEffect(s: State) returns (s': State)
    requires Protocol(s) && MayListen(s)
    ensures s' == Listen(s) && Protocol(s') && s'.core == NewSem(NewSem(s.core, 1), 0)
    ensures s'.conns == s.conns && |s'.chans| == |s.chans| + 1 && s'.chans[..|s.chans|] == s.chans
    ensures SameFields(s'.chans[|s.chans|], Chan(0, Vector.Nulls(4), 0, None, SendFree))
    ensures Me(s) < |s.pid| && s'.home == s.home[s.pid[Me(s)] := |s.chans|]
  {
    ListenKeeps(s);
    s' := Listen(s);
  }

  lemma ConnectEffect(s: State, c: nat) returns (s': State)
    requires Protocol(s) && InUser(s) && Me(s) < |s.pid| && c < |s.chans|
    ensures s' == Connect(s, c) && Protocol(s') && s'.core == s.core
    ensures s'.chans == s.chans && |s'.conns| == |s.conns| + 1 && s'.conns[..|s.conns|] == s.conns
    ensures var n := s'.conns[|s.conns|]; n.chan == c && n.reply == [] && n.status == 0 && n.phase == Idle
    ensures forall d, v :: 0 <= d < |s.chans| && 0 <= v < |s.chans[d].slots| && s.chans[d].slots[v].Some? ==>
              s.chans[d].slots[v].value < |s.conns|
    ensures s'.home == s.home
  {
    ConnectKeeps(s, c);
    s' := Connect(s, c);
    forall d, v | 0 <= d < |s.chans| && 0 <= v < |s.chans[d].slots| && s.chans[d].slots[v].Some?
      ensures s.chans[d].slots[v].value < |s.conns|
    {
      assert SlotOk(s, d, v);
    }
  }

  /** The last event of `s'` is that the current thread of `s` received `bytes` with `recvid`. */
  ghost predicate GotMessage(s: State, s': State, c: nat, recvid: nat, cap: nat, bytes: Bytes)
    requires s.core.cur.Some?
  {
    && |s'.log| == |s.log| + 1
    && s'.log[|s.log|].Received? && s'.log[|s.log|].t == Me(s) && s'.log[|s.log|].chan == c
    && s'.log[|s.log|].recvid == recvid && s'.log[|s.log|].cap == cap && s'.log[|s.log|].bytes == bytes
  }

  /** The memory of the connections is the same. */
  ghost predicate SameConns(s: State, s': State) {
    && |s'.conns| == |s.conns|
    && forall j :: 0 <= j < |s.conns| ==>
         && s'.conns[j].chan == s.conns[j].chan && s'.conns[j].owner == s.conns[j].owner
         && s'.conns[j].reply == s.conns[j].reply && s'.conns[j].status == s.conns[j].status
         && (s'.conns[j].phase != Idle ==> s.conns[j].phase != Idle)
  }

  /** The message of channel `c` is taken out of it. */
  ghost predicate Emptied(s: State, s': State, c: nat)
    requires c < |s.chans|
  {
    && SameConns(s, s')
    && |s'.chans| == |s.chans| && s'.chans == s.chans[c := s'.chans[c]]
    && s.chans[c].buffer.Some?
    && SameFields(s'.chans[c], s.chans[c].(buffer := None))
  }

  lemma DrainEffect(s: State, c: nat, cap: nat) returns (s': State)
    requires Protocol(s) && HoldsRecv(s) && s.cont[Me(s)] == Receiving(c, cap)
    ensures c < |s.chans| && 2 * |s.chans| == |s.core.sems|
    ensures s' == Drain(s) && Protocol(s')
    ensures Settled(s.core)
    ensures var q := s.core.sems[SendSem(c)].queue; q != [] ==> q[0] < |s.core.where|
    ensures s'.core == Signal(s.core, SendSem(c))
    ensures Emptied(s, s', c)
    ensures GotMessage(s, s', c, s.chans[c].recvid, cap, Truncate(s.chans[c].buffer.value, cap))
    ensures s'.home == s.home
  {
    assert ThreadOk(s, Me(s)) && TokenOk(s, c);
    SignalKeeps(s.core, SendSem(c));
    DrainKeeps(s);
    s' := Drain(s);
  }

  lemma RecvArriveEffect(s: State, c: nat, cap: nat) returns (s': State)
    requires Protocol(s) && InUser(s) && c < |s.chans|
    ensures 2 * |s.chans| == |s.core.sems| && SameConns(s, s')
    ensures s' == RecvArrive(s, c, cap) && Protocol(s')
    ensures Settled(s.core) && (s.core.ready != [] ==> s.core.ready[0] < |s.core.where|)
    ensures s'.core == Wait(s.core, RecvSem(c))
    ensures s'.conns == s.conns && |s'.chans| == |s.chans|
    ensures forall d :: 0 <= d < |s.chans| ==> SameFields(s'.chans[d], s.chans[d])
    ensures Free(s.core, RecvSem(c)) ==> HoldsRecv(s') && Me(s') == Me(s) && s'.cont[Me(s')] == Receiving(c, cap)
    ensures s'.home == s.home
  {
    WaitCore(s.core, RecvSem(c));
    RecvArriveKeeps(s, c, cap);
    s' := RecvArrive(s, c, cap);
  }

  /** Connection `j` is owned by the current thread, for a send. */
  ghost predicate Claimed(s: State, s': State, j: nat)
    requires j < |s.conns| && s.core.cur.Some?
  {
    && |s'.conns| == |s.conns| && s'.conns == s.conns[j := s'.conns[j]]
    && s'.conns[j].chan == s.conns[j].chan && s'.conns[j].owner == s.core.cur.value
    && s'.conns[j].reply == s.conns[j].reply && s'.conns[j].status == s.conns[j].status
    && |s'.chans| == |s.chans|
    && forall c :: 0 <= c < |s.chans| ==> SameFields(s'.chans[c], s.chans[c])
  }

  lemma SendArriveEffect(s: State, j: nat, cap: nat) returns (c: nat, s': State)
    requires Protocol(s) && MaySend(s, j)
    ensures ConnOk(s, j) && c == s.conns[j].chan < |s.chans| && 2 * |s.chans| == |s.core.sems|
    ensures s' == SendArrive(s, j, cap) && Protocol(s')
    ensures Settled(s.core) && (s.core.ready != [] ==> s.core.ready[0] < |s.core.where|)
    ensures s'.core == Wait(s.core, SendSem(c))
    ensures Claimed(s, s', j)
    ensures s.core.sems[SendSem(c)].count >= 0
    ensures Free(s.core, SendSem(c)) ==> HoldsSend(s') && s'.cont[Me(s')] == Sending(j)
    ensures s'.home == s.home
  {
    assert ConnOk(s, j);
    c := s.conns[j].chan;
    WaitCore(s.core, SendSem(c));
    SendArriveKeeps(s, j, cap);
    s' := SendArrive(s, j, cap);
  }

  /** The message of connection `j` and its recvid are in its channel; other channels and connections are as before. */
  ghost predicate Filled(s: State, s': State, j: nat, bytes: Bytes)
    requires j < |s.conns| && s.conns[j].chan < |s.chans|
  {
    var c := s.conns[j].chan;
    var v := Vector.FirstNull(s.chans[c].slots);
    && s'.conns == s.conns[j := s.conns[j].(phase := Deposited, payload := bytes, recvid := v)]
    && |s'.chans| == |s.chans| && s'.chans == s.chans[c := s'.chans[c]]
    && s'.chans[c].slots == Vector.Added(s.chans[c].slots, Some(j))
    && s'.chans[c].recvid == v && s'.chans[c].buffer == Some(bytes)
    && s.conns[j].phase == Queued
  }

  lemma DepositEffect(s: State, bytes: Bytes, j: nat) returns (c: nat, s': State)
    requires Protocol(s) && HoldsSend(s) && s.cont[Me(s)] == Sending(j)
    ensures j < |s.conns| && s.conns[j].phase == Queued && c == s.conns[j].chan < |s.chans|
    ensures 2 * |s.chans| == |s.core.sems|
    ensures s' == Deposit(s, bytes) && Protocol(s')
    ensures forall v: nat :: v < |s.chans[c].slots| && s.chans[c].slots[v].Some? ==>
              s.chans[c].slots[v].value < |s.conns|
    ensures var q := s.core.sems[RecvSem(c)].queue; q != [] ==> q[0] < |s.core.where|
    ensures Settled(s.core) && Settled(Signal(s.core, RecvSem(c)))
    ensures var k := Signal(s.core, RecvSem(c)); k.cur.Some? && (k.ready != [] ==> k.ready[0] < |k.where|)
    ensures s'.core == Block(Signal(s.core, RecvSem(c)), OnReply)
    ensures Filled(s, s', j, bytes)
    ensures s'.home == s.home
  {
    assert ThreadOk(s, Me(s));
    c := s.conns[j].chan;
    SignalKeeps(s.core, RecvSem(c));
    BlockKeeps(Signal(s.core, RecvSem(c)), OnReply);
    DepositKeeps(s, bytes);
    forall v: nat | v < |s.chans[c].slots| && s.chans[c].slots[v].Some? ensures s.chans[c].slots[v].value < |s.conns| {
      assert SlotOk(s, c, v);
    }
    s' := Deposit(s, bytes);
  }

  /** Each process has the channel that `m` says. */
  ghost predicate AtHome(home: map<nat, Channel>, chans: seq<Channel>, m: map<nat, nat>) {
    home.Keys == m.Keys && forall p :: p in m ==> m[p] < |chans| && home[p] == chans[m[p]]
  }

  lemma AtHomeStill(home: map<nat, Channel>, chans: seq<Channel>, m: map<nat, nat>, chan: Channel)
    requires AtHome(home, chans, m)
    ensures AtHome(home, chans + [chan], m)
  {
  }

  lemma HomeSet(home: map<nat, Channel>, chans: seq<Channel>, m: map<nat, nat>, p: nat, chan: Channel, c: nat)
    requires AtHome(home, chans, m)
    requires c < |chans| && chans[c] == chan
    ensures AtHome(home[p := chan], chans, m[p := c])
  {
  }

  class System {
    const kernel: Kernel.Machine
    var home: map<nat, Channel>   // process->chan
    ghost var conns: seq<Connection>
    ghost var chans: seq<Channel>
    ghost var s: State

    ghost predicate HasConn(conn: Connection)
      reads this
    {
      conn.id < |conns| && conns[conn.id] == conn && conn.id < |s.conns|
    }

    ghost predicate HasChan(chan: Channel)
      reads this
    {
      chan.id < |chans| && chans[chan.id] == chan && chan.id < |s.chans|
    }

    /** The same while the semaphores of a new channel exist already. */
    ghost predicate HoldAtLeast(cs: seq<Conn>, hs: seq<Chan>)
      reads this`conns, this`chans, conns, chans, kernel
    {
      && |conns| == |cs| && |chans| == |hs| && |kernel.sems| >= 2 * |hs|
      && this !in kernel.Repr
      && (forall j :: 0 <= j < |conns| ==> conns[j] !in kernel.Repr)
      && (forall c :: 0 <= c < |chans| ==> chans[c] !in kernel.Repr)
      && (forall j :: 0 <= j < |conns| ==> ConnHolds(conns[j], j, cs[j], kernel.threads, chans))
      && (forall c :: 0 <= c < |chans| ==>
            ChanHolds(chans[c], c, hs[c], conns, kernel.sems[SendSem(c)], kernel.sems[RecvSem(c)]))
    }

    /** The connections and channels hold what `cs` and `hs` say, and are not objects of the kernel proper. */
    ghost predicate Hold(cs: seq<Conn>, hs: seq<Chan>)
      reads this`conns, this`chans, conns, chans, kernel
    {
      |kernel.sems| == 2 * |hs| && HoldAtLeast(cs, hs)
    }

    ghost predicate Valid()
      reads this, conns, chans, kernel, kernel.Repr
    {
      kernel.Valid() && kernel.core == s.core && Hold(s.conns, s.chans) && AtHome(home, chans, s.home) && Protocol(s)
    }

    constructor ()
      ensures Valid() && s == INIT && fresh(kernel) && fresh(kernel.Repr)
      ensures home == map[] && conns == [] && chans == [] && kernel.threads == [] && kernel.sems == []
    {
      kernel := new Kernel.Machine();
      home := map[];
      conns, chans := [], [];
      s := INIT;
    }

    /** The machine state after a path whose effects are all in place. */
    ghost method Enter(s': State)
      requires kernel.Valid() && kernel.core == s'.core && Hold(s'.conns, s'.chans) && AtHome(home, chans, s'.home)
      requires Protocol(s')
      modifies this`s
      ensures Valid() && s == s'
    {
      s := s';
    }

    // The kernel calls below keep `Hold`: connections and channels are out of their reach.

    method KernelWait(sem: Kernel.Semaphore, ghost i: nat, ghost cs: seq<Conn>, ghost hs: seq<Chan>)
      returns (blocked: bool)
      requires kernel.Valid() && Hold(cs, hs)
      requires Settled(kernel.core) && kernel.core.cur.Some? && i < |kernel.sems| && kernel.sems[i] == sem
      modifies kernel.Repr
      ensures kernel.Valid() && Hold(cs, hs)
      ensures kernel.Same(old(kernel.threads), old(kernel.sems), old(kernel.Repr))
      ensures var k := old(kernel.core); k.ready != [] ==> k.ready[0] < |k.where|
      ensures blocked <==> !Free(old(kernel.core), i)
      ensures kernel.core == Wait(old(kernel.core), i)
    {
      blocked := kernel.Wait(sem, i);
    }

    method KernelSignal(sem: Kernel.Semaphore, ghost i: nat, ghost cs: seq<Conn>, ghost hs: seq<Chan>)
      requires kernel.Valid() && Hold(cs, hs)
      requires Settled(kernel.core) && i < |kernel.sems| && kernel.sems[i] == sem
      modifies kernel.Repr
      ensures kernel.Valid() && Hold(cs, hs)
      ensures kernel.Same(old(kernel.threads), old(kernel.sems), old(kernel.Repr))
      ensures var q := old(kernel.core).sems[i].queue; q != [] ==> q[0] < |old(kernel.core).where|
      ensures kernel.core == Signal(old(kernel.core), i)
    {
      kernel.Signal(sem, i);
    }

    method KernelSignalAndBlock(sem: Kernel.Semaphore, ghost i: nat, ghost cs: seq<Conn>, ghost hs: seq<Chan>)
      requires kernel.Valid() && Hold(cs, hs)
      requires Settled(kernel.core) && kernel.core.cur.Some? && i < |kernel.sems| && kernel.sems[i] == sem
      modifies kernel.Repr
      ensures kernel.Valid() && Hold(cs, hs)
      ensures kernel.Same(old(kernel.threads), old(kernel.sems), old(kernel.Repr))
      ensures var q := old(kernel.core).sems[i].queue; q != [] ==> q[0] < |old(kernel.core).where|
      ensures var k := Signal(old(kernel.core), i);
              k.cur.Some? && k.cur.value < |k.where| && (k.ready != [] ==> k.ready[0] < |k.where|)
      ensures kernel.core == Block(Signal(old(kernel.core), i), OnReply)
    {
      kernel.SignalAndBlock(sem, i, Kernel.StateReply, OnReply);
    }

    method KernelUnblock(t: Kernel.Thread, ghost cs: seq<Conn>, ghost hs: seq<Chan>)
      requires kernel.Valid() && Hold(cs, hs)
      requires kernel.Owned(t) && kernel.core.where[t.tid] == OnReply
      modifies kernel.Repr
      ensures kernel.Valid() && Hold(cs, hs)
      ensures kernel.Same(old(kernel.threads), old(kernel.sems), old(kernel.Repr))
      ensures kernel.core == Enqueue(old(kernel.core), t.tid)
    {
      kernel.Unblock(t);
    }

    /** The channel part of Store: the message and its recvid. */
    method Fill(conn: Connection, bytes: Bytes, ghost s': State)
      requires Hold(s.conns, s.chans) && HasConn(conn) && s.conns[conn.id].chan < |s.chans|
      requires Numbers(conns, s.chans[s.conns[conn.id].chan].slots)
      requires Filled(s, s', conn.id, bytes)
      modifies conn.chan
      ensures Hold(s'.conns, s'.chans)
    {
      ghost var c := s.conns[conn.id].chan;
      assert conn.chan == chans[c];
      AddedObjects(conns, s.chans[c].slots, conn.id);
      conn.chan.Fill(conn, bytes);
    }

    /** ipc_send from behind semaphore_wait to its scheduler_switch; `bytes` is what read_message reads. */
    method Store(conn: Connection, bytes: Bytes)
      requires Valid() && HoldsSend(s) && HasConn(conn) && s.cont[Me(s)] == Sending(conn.id)
      modifies this`s, conn.chan, kernel.Repr
      ensures kernel.Same(old(kernel.threads), old(kernel.sems), old(kernel.Repr))
      ensures Valid()
      ensures s == Deposit(old(s), bytes)
    {
      ghost var c, s' := DepositEffect(s, bytes, conn.id);
      assert conn.chan == chans[c];
      Fill(conn, bytes, s');
      KernelSignalAndBlock(conn.chan.recvSem, RecvSem(c), s'.conns, s'.chans);
      Enter(s');
    }

    /** The connection part of Send: the caller owns the connection. */
    method Claim(conn: Connection, t: Kernel.Thread, ghost s': State)
      requires Hold(s.conns, s.chans) && HasConn(conn) && s.core.cur.Some? && Claimed(s, s', conn.id)
      requires kernel.Valid() && Me(s) < |kernel.threads| && t == kernel.threads[Me(s)]
      modifies conn
      ensures Hold(s'.conns, s'.chans) && kernel.Valid()
    {
      conn.owner := t;
    }

    /** ipc_send up to the point where the caller has the send token or sleeps. */
    method Arrive(conn: Connection, cap: nat) returns (blocked: bool)
      requires Valid() && HasConn(conn) && MaySend(s, conn.id)
      modifies this`s, conn, kernel.Repr
      ensures Valid() && HasConn(conn)
      ensures kernel.Same(old(kernel.threads), old(kernel.sems), old(kernel.Repr))
      ensures s == SendArrive(old(s), conn.id, cap)
      ensures ConnOk(old(s), conn.id) && SendSem(old(s).conns[conn.id].chan) < |old(s).core.sems|
      ensures blocked <==> !Free(old(s).core, SendSem(old(s).conns[conn.id].chan))
      ensures !blocked ==> HoldsSend(s) && s.cont[Me(s)] == Sending(conn.id)
    {
      ghost var c, s' := SendArriveEffect(s, conn.id, cap);
      assert conn.chan == chans[c];
      Claim(conn, kernel.current, s');
      blocked := KernelWait(conn.chan.sendSem, SendSem(c), s'.conns, s'.chans);
      Enter(s');
    }

    /** ipc_send; `blocked` says that the caller sleeps in semaphore_wait, with Store still to come. */
    method Send(conn: Connection, bytes: Bytes, cap: nat) returns (blocked: bool)
      requires Valid() && HasConn(conn) && MaySend(s, conn.id)
      modifies this`s, conn, conn.chan, kernel.Repr
      ensures kernel.Same(old(kernel.threads), old(kernel.sems), old(kernel.Repr))
      ensures Valid() && ConnOk(old(s), conn.id) && SendSem(old(s).conns[conn.id].chan) < |old(s).core.sems|
      ensures blocked <==> !Free(old(s).core, SendSem(old(s).conns[conn.id].chan))
      ensures s == Step(old(s), DoSend(conn.id, bytes, cap))
    {
      SendSteps(s, conn.id, bytes, cap);
      blocked := Arrive(conn, cap);
      if !blocked {
        Store(conn, bytes);
      }
    }

    /** The channel part of Fetch: the message leaves the channel. */
    method TakeOut(chan: Channel, cap: nat, ghost s': State) returns (recvid: nat, bytes: Bytes)
      requires Hold(s.conns, s.chans) && HasChan(chan) && Emptied(s, s', chan.id)
      modifies chan
      ensures Hold(s'.conns, s'.chans)
      ensures recvid == s.chans[chan.id].recvid && bytes == Truncate(s.chans[chan.id].buffer.value, cap)
      ensures old(chan.buffer) == s.chans[chan.id].buffer && old(chan.recvid) == recvid
    {
      bytes := Truncate(chan.buffer.value, cap);
      chan.buffer := None;
      recvid := chan.recvid;
    }

    /** ipc_receive from behind semaphore_wait to its return; `bytes` is what the receiver's buffer gets. */
    method Fetch(chan: Channel, cap: nat) returns (recvid: nat, bytes: Bytes)
      requires Valid() && HoldsRecv(s) && HasChan(chan) && s.cont[Me(s)] == Receiving(chan.id, cap)
      modifies this`s, chan, kernel.Repr
      ensures Valid()
      ensures kernel.Same(old(kernel.threads), old(kernel.sems), old(kernel.Repr))
      ensures s == Drain(old(s))
      ensures GotMessage(old(s), s, chan.id, recvid, cap, bytes)
      ensures old(chan.buffer).Some? && bytes <= old(chan.buffer).value && recvid == old(chan.recvid)
      ensures var n := |old(chan.buffer).value|; |bytes| == if n <= cap then n else cap
    {
      ghost var s' := DrainEffect(s, chan.id, cap);
      recvid, bytes := TakeOut(chan, cap, s');
      KernelSignal(chan.sendSem, SendSem(chan.id), s'.conns, s'.chans);
      Enter(s');
    }

    /** ipc_receive up to the point where the caller has the receive token or sleeps. */
    method Await(chan: Channel, cap: nat) returns (blocked: bool)
      requires Valid() && InUser(s) && HasChan(chan)
      modifies this`s, kernel.Repr
      ensures Valid() && HasChan(chan)
      ensures kernel.Same(old(kernel.threads), old(kernel.sems), old(kernel.Repr))
      ensures s == RecvArrive(old(s), chan.id, cap) && |s.log| == |old(s).log| && Me(old(s)) == old(s).core.cur.value
      ensures RecvSem(chan.id) < |old(s).core.sems|
      ensures blocked <==> !Free(old(s).core, RecvSem(chan.id))
      ensures !blocked ==> HoldsRecv(s) && Me(s) == Me(old(s)) && s.cont[Me(s)] == Receiving(chan.id, cap)
      ensures chan.buffer == old(chan.buffer) && chan.recvid == old(chan.recvid)
    {
      ghost var s' := RecvArriveEffect(s, chan.id, cap);
      blocked := KernelWait(chan.recvSem, RecvSem(chan.id), s'.conns, s'.chans);
      Enter(s');
    }

    /** ipc_receive; without a result the caller sleeps in semaphore_wait, with Fetch still to come. */
    method Receive(chan: Channel, cap: nat) returns (r: Option<(nat, Bytes)>)
      requires Valid() && InUser(s) && HasChan(chan)
      modifies this`s, chan, kernel.Repr
      ensures kernel.Same(old(kernel.threads), old(kernel.sems), old(kernel.Repr))
      ensures Valid() && chan.id < |old(s).chans| && RecvSem(chan.id) < |old(s).core.sems|
      ensures r == None <==> !Free(old(s).core, RecvSem(chan.id))
      ensures s == Step(old(s), DoReceive(chan.id, cap))
      ensures r.Some? ==> GotMessage(old(s), s, chan.id, r.value.0, cap, r.value.1)
      ensures r.Some? ==>
        && old(chan.buffer).Some? && r.value.1 <= old(chan.buffer).value && r.value.0 == old(chan.recvid)
        && var n := |old(chan.buffer).value|; |r.value.1| == if n <= cap then n else cap
    {
      ReceiveSteps(s, chan.id, cap);
      var blocked := Await(chan, cap);
      if blocked {
        r := None;
      } else {
        var recvid, bytes := Fetch(chan, cap);
        r := Some((recvid, bytes));
      }
    }

    /** The fields that ipc_reply sets. */
    method Answer(chan: Channel, recvid: nat, status: int, data: Option<Bytes>, ghost j: nat, ghost s': State)
      returns (conn: Connection)
      requires Hold(s.conns, s.chans) && HasChan(chan)
      requires j < |s.conns| && Vector.At(s.chans[chan.id].slots, recvid) == Some(j)
      requires Replaced(s, s', chan.id, j, recvid, status, data)
      modifies chan, conns
      ensures Hold(s'.conns, s'.chans) && HasConn(conn) && conn.id == j
      ensures s.conns[j].owner < |kernel.threads| && conn.owner == kernel.threads[s.conns[j].owner]
    {
      conn := chan.reply[recvid].value;
      assert conn == conns[j];
      chan.reply := chan.reply[recvid := None];
      conn.status := status;
      if data.Some? { conn.buffer := data.value; }
      assert chan.reply == Objects(conns, s'.chans[chan.id].slots);
    }

    method Home(proc: nat) returns (chan: Channel)
      requires Hold(s.conns, s.chans) && AtHome(home, chans, s.home) && proc in s.home
      ensures proc in home && HasChan(chan) && chan.id == s.home[proc] && chan in chans && chan == home[proc]
    {
      chan := home[proc];
    }

    /** The channel of process `proc` is set. */
    method SetHome(proc: nat, chan: Channel, ghost m: map<nat, nat>, ghost c: nat,
                   ghost cs: seq<Conn>, ghost hs: seq<Chan>)
      requires kernel.Valid() && Hold(cs, hs)
      requires c < |chans| && chans[c] == chan
      requires AtHome(home, chans, m)
      modifies this`home
      ensures kernel.Valid() && Hold(cs, hs)
      ensures home == old(home)[proc := chan] && AtHome(home, chans, m[proc := c])
    {
      HomeSet(home, chans, m, proc, chan, c);
      home := home[proc := chan];
    }

    /** The fields that ipc_reply sets, and the thread that it wakes. */
    method AnswerAndWake(chan: Channel, recvid: nat, status: int, data: Option<Bytes>, ghost j: nat, ghost s': State)
      requires kernel.Valid() && kernel.core == s.core && Hold(s.conns, s.chans) && HasChan(chan)
      requires j < |s.conns| && Vector.At(s.chans[chan.id].slots, recvid) == Some(j)
      requires s.conns[j].owner < |s.core.where| && s.core.where[s.conns[j].owner] == OnReply
      requires Replaced(s, s', chan.id, j, recvid, status, data)
      modifies chan, conns, kernel.Repr
      ensures kernel.Valid() && Hold(s'.conns, s'.chans) && kernel.core == Enqueue(s.core, s.conns[j].owner)
      ensures kernel.Same(old(kernel.threads), old(kernel.sems), old(kernel.Repr))
    {
      var conn := Answer(chan, recvid, status, data, j, s');
      KernelUnblock(conn.owner, s'.conns, s'.chans);
    }

    /** ipc_reply on the channel `chan` of the caller's process. */
    method ReplyOn(chan: Channel, recvid: nat, status: int, data: Option<Bytes>, ghost j: nat, ghost s': State)
      requires kernel.Valid() && kernel.core == s.core && Hold(s.conns, s.chans) && AtHome(home, chans, s.home)
      requires HasChan(chan) && Replying(s, s', chan.id, j, recvid, status, data)
      modifies this`s, chan, conns, kernel.Repr
      ensures kernel.Same(old(kernel.threads), old(kernel.sems), old(kernel.Repr))
      ensures Valid() && s == s'
    {
      AnswerAndWake(chan, recvid, status, data, j, s');
      Enter(s');
    }

    /** ipc_reply, called by a thread of process `proc`. */
    method Reply(proc: nat, recvid: nat, status: int, data: Option<Bytes>)
      requires Valid() && MayReply(s, recvid) && proc == s.pid[Me(s)]
      modifies this`s, chans, conns, kernel.Repr
      ensures kernel.Same(old(kernel.threads), old(kernel.sems), old(kernel.Repr))
      ensures Valid()
      ensures s == Rendezvous.Reply(old(s), recvid, status, data)
    {
      var chan := Home(proc);
      ghost var j, s' := ReplyEffect(s, recvid, status, data);
      ReplyOn(chan, recvid, status, data, j, s');
    }

    /** The fields that the end of ipc_send sets. */
    method Collect(conn: Connection, cap: nat, ghost s': State) returns (status: int, bytes: Bytes)
      requires Hold(s.conns, s.chans) && HasConn(conn) && Collected(s, s', conn.id)
      modifies conn
      ensures Hold(s'.conns, s'.chans)
      ensures status == s.conns[conn.id].status && bytes == Truncate(s.conns[conn.id].reply, cap)
      ensures old(conn.buffer) == s.conns[conn.id].reply && old(conn.status) == status
    {
      bytes := [];
      if |conn.buffer| > 0 {
        bytes := Truncate(conn.buffer, cap);
        conn.buffer := [];
      }
      status := conn.status;
    }

    /** ipc_send from behind its scheduler_switch to its return. */
    method Finish(conn: Connection, cap: nat) returns (status: int, bytes: Bytes)
      requires Valid() && Replyable(s) && HasConn(conn) && s.cont[Me(s)] == Awaiting(conn.id)
      requires cap == s.conns[conn.id].cap
      modifies this`s, conn
      ensures Valid()
      ensures s == Return(old(s))
      ensures GotReply(old(s), s, conn.id, status, bytes)
      ensures status == old(conn.status) && bytes <= old(conn.buffer)
      ensures |bytes| == if |old(conn.buffer)| <= cap then |old(conn.buffer)| else cap
    {
      ghost var s' := ReturnEffect(s, conn.id);
      status, bytes := Collect(conn, cap, s');
      Enter(s');
    }

    method KernelSchedule(ghost cs: seq<Conn>, ghost hs: seq<Chan>)
      requires kernel.Valid() && Hold(cs, hs) && Inv(kernel.core)
      modifies kernel.Repr
      ensures kernel.Valid() && Hold(cs, hs)
      ensures kernel.Same(old(kernel.threads), old(kernel.sems), old(kernel.Repr))
      ensures var k := old(kernel.core); k.ready != [] ==> k.ready[0] < |k.where|
      ensures kernel.core == Schedule(old(kernel.core))
    {
      kernel.Schedule();
    }

    /** scheduler_schedule from a timer tick or sys_yield. */
    method DoTick()
      requires Valid()
      modifies this`s, kernel.Repr
      ensures kernel.Same(old(kernel.threads), old(kernel.sems), old(kernel.Repr))
      ensures Valid() && s == Tick(old(s))
    {
      ghost var s' := TickEffect(s);
      KernelSchedule(s'.conns, s'.chans);
      Enter(s');
    }

    method KernelExit(ghost cs: seq<Conn>, ghost hs: seq<Chan>)
      requires kernel.Valid() && Hold(cs, hs) && Settled(kernel.core) && kernel.core.cur.Some?
      modifies kernel.Repr
      ensures kernel.Valid() && Hold(cs, hs)
      ensures kernel.Same(old(kernel.threads), old(kernel.sems), old(kernel.Repr))
      ensures var k := old(kernel.core); k.ready != [] ==> k.ready[0] < |k.where|
      ensures kernel.core == Block(old(kernel.core), Dead)
    {
      kernel.Block(Kernel.StateDead, Dead);
    }

    /** process_exit. */
    method DoExit()
      requires Valid() && InUser(s)
      modifies this`s, kernel.Repr
      ensures kernel.Same(old(kernel.threads), old(kernel.sems), old(kernel.Repr))
      ensures Valid() && s == Exit(old(s))
    {
      ghost var s' := ExitEffect(s);
      KernelExit(s'.conns, s'.chans);
      Enter(s');
    }

    method KernelSpawn(ghost cs: seq<Conn>, ghost hs: seq<Chan>) returns (t: Kernel.Thread)
      requires kernel.Valid() && Hold(cs, hs)
      modifies kernel.Repr
      ensures kernel.Valid() && Hold(cs, hs)
      ensures fresh(kernel.Repr - old(kernel.Repr))
      ensures fresh(t) && kernel.core == Spawn(old(kernel.core))
    {
      t := kernel.Spawn();
    }

    /** sys_clone or process_create: a new thread of process `p`. */
    method DoClone(p: nat) returns (t: Kernel.Thread)
      requires Valid()
      modifies this`s, kernel.Repr
      ensures fresh(kernel.Repr - old(kernel.Repr))
      ensures Valid() && fresh(t) && s == Clone(old(s), p)
    {
      ghost var s' := CloneEffect(s, p);
      t := KernelSpawn(s'.conns, s'.chans);
      Enter(s');
    }

    ghost method AddChannel(chan: Channel, cs: seq<Conn>, hs: seq<Chan>, h: Chan)
      requires HoldAtLeast(cs, hs) && |kernel.sems| == 2 * |hs| + 2 && chan !in kernel.Repr
      requires ChanHolds(chan, |hs|, h, conns, kernel.sems[SendSem(|hs|)], kernel.sems[RecvSem(|hs|)])
      modifies this`chans
      ensures chans == old(chans) + [chan] && Hold(cs, hs + [h])
    {
      chans := chans + [chan];
    }

    method KernelNewSemaphores(ghost cs: seq<Conn>, ghost hs: seq<Chan>)
      returns (send: Kernel.Semaphore, recv: Kernel.Semaphore)
      requires kernel.Valid() && Hold(cs, hs)
      modifies kernel.Repr
      ensures kernel.Valid() && HoldAtLeast(cs, hs)
      ensures fresh(send) && fresh(recv) && kernel.sems == old(kernel.sems) + [send, recv]
      ensures fresh(kernel.Repr - old(kernel.Repr))
      ensures kernel.core == NewSem(NewSem(old(kernel.core), 1), 0)
    {
      send, recv := kernel.NewSemaphores(1, 0);
    }

    /** The objects that ipc_listen creates. */
    method NewChannel(ghost s': State) returns (chan: Channel)
      requires kernel.Valid() && kernel.core == s.core && Hold(s.conns, s.chans)
      requires s'.conns == s.conns && |s'.chans| == |s.chans| + 1 && s'.chans[..|s.chans|] == s.chans
      requires SameFields(s'.chans[|s.chans|], Chan(0, Vector.Nulls(4), 0, None, SendFree))
      modifies this`chans, kernel.Repr
      ensures kernel.Valid() && Hold(s'.conns, s'.chans)
      ensures fresh(kernel.Repr - old(kernel.Repr))
      ensures fresh(chan) && chan.id == |s.chans| && chans == old(chans) + [chan] && chans[chan.id] == chan
      ensures kernel.core == NewSem(NewSem(old(kernel.core), 1), 0)
    {
      var send, recv := KernelNewSemaphores(s.conns, s.chans);
      chan := new Channel(|chans|, send, recv);
      AddChannel(chan, s.conns, s.chans, s'.chans[|s.chans|]);
      assert s'.chans == s.chans + [s'.chans[|s.chans|]];
    }

    /** The channel is created and becomes that of process `proc`. */
    method NewHome(proc: nat, ghost s': State) returns (chan: Channel)
      requires kernel.Valid() && kernel.core == s.core && Hold(s.conns, s.chans) && AtHome(home, chans, s.home)
      requires s'.conns == s.conns && |s'.chans| == |s.chans| + 1 && s'.chans[..|s.chans|] == s.chans
      requires SameFields(s'.chans[|s.chans|], Chan(0, Vector.Nulls(4), 0, None, SendFree))
      modifies this`chans, this`home, kernel.Repr
      ensures kernel.Valid() && Hold(s'.conns, s'.chans) && AtHome(home, chans, s.home[proc := |s.chans|])
      ensures fresh(kernel.Repr - old(kernel.Repr))
      ensures fresh(chan) && chan.id == |s.chans| && chans == old(chans) + [chan] && chans[chan.id] == chan
      ensures home == old(home)[proc := chan]
      ensures kernel.core == NewSem(NewSem(old(kernel.core), 1), 0)
    {
      chan := NewChannel(s');
      AtHomeStill(home, old(chans), s.home, chan);
      SetHome(proc, chan, s.home, |s.chans|, s'.conns, s'.chans);
    }

    /** ipc_listen for process `proc`, which has no channel yet. */
    method DoListen(proc: nat) returns (chan: Channel)
      requires Valid() && MayListen(s) && proc == s.pid[Me(s)]
      modifies this`s, this`chans, this`home, kernel.Repr
      ensures fresh(kernel.Repr - old(kernel.Repr))
      ensures Valid() && fresh(chan) && HasChan(chan) && chans == old(chans) + [chan]
      ensures home == old(home)[proc := chan]
      ensures s == Listen(old(s))
    {
      ghost var s' := ListenEffect(s);
      chan := NewHome(proc, s');
      Enter(s');
    }

    /** The object that ipc_connect creates. */
    method NewConnection(chan: Channel, ghost s': State) returns (conn: Connection)
      requires Hold(s.conns, s.chans) && HasChan(chan)
      requires s'.chans == s.chans && |s'.conns| == |s.conns| + 1 && s'.conns[..|s.conns|] == s.conns
      requires var n := s'.conns[|s.conns|]; n.chan == chan.id && n.reply == [] && n.status == 0 && n.phase == Idle
      requires forall c :: 0 <= c < |s.chans| ==> Numbers(conns, s.chans[c].slots)
      modifies this`conns
      ensures Hold(s'.conns, s'.chans)
      ensures fresh(conn) && conn.id == |s.conns| && conns == old(conns) + [conn] && conns[conn.id] == conn
      ensures conn.chan == chan
    {
      conn := new Connection(|conns|, chan);
      forall c | 0 <= c < |s.chans|
        ensures Objects(conns + [conn], s.chans[c].slots) == Objects(conns, s.chans[c].slots)
      {
        assert Numbers(conns, s.chans[c].slots);
      }
      conns := conns + [conn];
    }

    /** ipc_connect to the channel `chan`. */
    method DoConnect(chan: Channel) returns (conn: Connection)
      requires Valid() && InUser(s) && Me(s) < |s.pid| && HasChan(chan)
      modifies this`s, this`conns
      ensures Valid() && fresh(conn) && HasConn(conn) && conns == old(conns) + [conn]
      ensures conn.chan == chan && s == Connect(old(s), chan.id)
      ensures conn.id == |old(s).conns| < |s.conns| && s.conns[conn.id].chan == chan.id
      ensures s.conns[conn.id].pid == old(s).pid[Me(old(s))]
    {
      ghost var s' := ConnectEffect(s, chan.id);
      conn := NewConnection(chan, s');
      Enter(s');
    }
  }
}
