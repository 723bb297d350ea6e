/**
 * The calls of module Ipc, in any order that the rules allow: what they do to the system is a run.  Each method
 * below prolongs a run `ss`, `ls` that leads to the state of the system by one step.
 */
module History {
  import opened Wrappers
  import opened Rendezvous
  import opened Runs
  import Ipc
  import Kernel

  /** The step `l` leads from `s` to `s'`. */
  ghost predicate Took(s: State, l: Label, s': State) {
    Protocol(s) && Enabled(s, l) && s' == Step(s, l)
  }

  lemma ReplyFits(s: State, p: nat, v: nat, status: int, data: Option<Bytes>)
    requires Protocol(s) && s.core.cur.Some? && s.core.cur.value < |s.cont| && s.cont[s.core.cur.value] == User
    requires s.core.cur.value < |s.pid| && p == s.pid[s.core.cur.value] && p in s.home && s.home[p] < |s.chans|
    requires v < |s.chans[s.home[p]].slots| && s.chans[s.home[p]].slots[v].Some?
    requires var j := s.chans[s.home[p]].slots[v].value; j < |s.conns| && s.conns[j].phase == Taken
    ensures MayReply(s, v) && p == s.pid[Me(s)]
    ensures Took(s, DoReply(v, status, data), Rendezvous.Reply(s, v, status, data))
  {
  }

  lemma ResumeFits(s: State, bytes: Bytes)
    requires Protocol(s) && s.core.cur.Some? && s.core.cur.value < |s.cont|
    ensures s.cont[s.core.cur.value].Sending? ==> HoldsSend(s) && Took(s, DoResume(bytes), Deposit(s, bytes))
    ensures s.cont[s.core.cur.value].Receiving? ==> HoldsRecv(s) && Took(s, DoResume(bytes), Drain(s))
    ensures s.cont[s.core.cur.value].Awaiting? ==> Replyable(s) && Took(s, DoResume(bytes), Return(s))
  {
  }

  lemma SendFits(s: State, j: nat, bytes: Bytes, cap: nat)
    requires Protocol(s) && s.core.cur.Some? && s.core.cur.value < |s.cont| && s.cont[s.core.cur.value] == User
    requires s.core.cur.value < |s.pid| && j < |s.conns| && s.conns[j].pid == s.pid[s.core.cur.value]
    requires s.conns[j].phase == Idle
    ensures MaySend(s, j) && Took(s, DoSend(j, bytes, cap), Step(s, DoSend(j, bytes, cap)))
  {
  }

  /** The run `ss`, `ls` ends in state `s`. */
  ghost predicate LeadsTo(ss: seq<State>, ls: seq<Label>, s: State) {
    Run(ss, ls) && ss[|ls|] == s
  }

  lemma LeadsOn(ss: seq<State>, ls: seq<Label>, l: Label, s': State) returns (ss': seq<State>)
    requires Run(ss, ls) && Took(ss[|ls|], l, s')
    ensures LeadsTo(ss', ls + [l], s')
  {
    ss' := ss + [s'];
    var ls' := ls + [l];
    forall i | 0 <= i < |ls'| ensures Next(ss'[i], ls'[i], ss'[i + 1]) {
      if i < |ls| { assert Next(ss[i], ls[i], ss[i + 1]); }
    }
  }

  method Start() returns (system: Ipc.System, ghost ss: seq<State>)
    ensures system.Valid() && LeadsTo(ss, [], system.s) && system.s.log == []
    ensures fresh(system) && fresh(system.kernel) && fresh(system.kernel.Repr)
  {
    system := new Ipc.System();
    ss := [INIT];
  }

  /** A timer tick, in the idle loop or while a program runs. */
  method Tick(system: Ipc.System, ghost ss: seq<State>, ghost ls: seq<Label>)
    returns (ghost ss': seq<State>)
    requires system.Valid() && LeadsTo(ss, ls, system.s)
    requires var s := system.s;
             s.core.cur.Some? ==> s.core.cur.value < |s.cont| && s.cont[s.core.cur.value] == User
    modifies system`s, system.kernel.Repr
    ensures system.Valid() && LeadsTo(ss', ls + [DoTick], system.s)
  {
    system.DoTick();
    ss' := LeadsOn(ss, ls, DoTick, system.s);
  }

  /** The end of a thread in user mode. */
  method Exit(system: Ipc.System, ghost ss: seq<State>, ghost ls: seq<Label>)
    returns (ghost ss': seq<State>)
    requires system.Valid() && LeadsTo(ss, ls, system.s)
    requires var s := system.s;
             s.core.cur.Some? && s.core.cur.value < |s.cont| && s.cont[s.core.cur.value] == User
    modifies system`s, system.kernel.Repr
    ensures system.Valid() && LeadsTo(ss', ls + [DoExit], system.s)
  {
    system.DoExit();
    ss' := LeadsOn(ss, ls, DoExit, system.s);
  }

  /** A new thread of process `p`. */
  method Clone(system: Ipc.System, p: nat, ghost ss: seq<State>, ghost ls: seq<Label>)
    returns (t: Kernel.Thread, ghost ss': seq<State>)
    requires system.Valid() && LeadsTo(ss, ls, system.s)
    requires var s := system.s;
             s.core.cur.Some? ==> s.core.cur.value < |s.cont| && s.cont[s.core.cur.value] == User
    modifies system`s, system.kernel.Repr
    ensures system.Valid() && LeadsTo(ss', ls + [DoClone(p)], system.s)
  {
    t := system.DoClone(p);
    ss' := LeadsOn(ss, ls, DoClone(p), system.s);
  }

  /** ipc_listen, of a process that does not listen yet. */
  method Listen(system: Ipc.System, proc: nat, ghost ss: seq<State>, ghost ls: seq<Label>)
    returns (chan: Ipc.Channel, ghost ss': seq<State>)
    requires system.Valid() && LeadsTo(ss, ls, system.s)
    requires var s := system.s;
             s.core.cur.Some? && s.core.cur.value < |s.cont| && s.cont[s.core.cur.value] == User
    requires var s := system.s;
             s.core.cur.value < |s.pid| && proc == s.pid[s.core.cur.value] && proc !in s.home
    modifies system`s, system`chans, system`home, system.kernel.Repr
    ensures system.Valid() && LeadsTo(ss', ls + [DoListen], system.s)
  {
    chan := system.DoListen(proc);
    ss' := LeadsOn(ss, ls, DoListen, system.s);
  }

  /** ipc_connect. */
  method Connect(system: Ipc.System, chan: Ipc.Channel, ghost ss: seq<State>, ghost ls: seq<Label>)
    returns (conn: Ipc.Connection, ghost ss': seq<State>)
    requires system.Valid() && LeadsTo(ss, ls, system.s)
    requires system.HasChan(chan)
    requires var s := system.s;
             s.core.cur.Some? && s.core.cur.value < |s.cont| && s.cont[s.core.cur.value] == User
    requires system.s.core.cur.value < |system.s.pid|
    modifies system`s, system`conns
    ensures system.Valid() && LeadsTo(ss', ls + [DoConnect(chan.id)], system.s)
  {
    conn := system.DoConnect(chan);
    ss' := LeadsOn(ss, ls, DoConnect(chan.id), system.s);
  }

  /** ipc_send on a connection of the caller's process without another send. */
  method Send(system: Ipc.System, conn: Ipc.Connection, bytes: Bytes, cap: nat,
              ghost ss: seq<State>, ghost ls: seq<Label>)
    returns (blocked: bool, ghost ss': seq<State>)
    requires system.Valid() && LeadsTo(ss, ls, system.s)
    requires system.HasConn(conn)
    requires var s := system.s;
             s.core.cur.Some? && s.core.cur.value < |s.cont| && s.cont[s.core.cur.value] == User
    requires var s := system.s;
             && s.core.cur.value < |s.pid| && s.conns[conn.id].pid == s.pid[s.core.cur.value]
             && s.conns[conn.id].phase == Idle
    modifies system`s, conn, conn.chan, system.kernel.Repr
    ensures system.Valid() && LeadsTo(ss', ls + [DoSend(conn.id, bytes, cap)], system.s)
  {
    SendFits(system.s, conn.id, bytes, cap);
    blocked := system.Send(conn, bytes, cap);
    ss' := LeadsOn(ss, ls, DoSend(conn.id, bytes, cap), system.s);
  }

  /** The rest of ipc_send behind a semaphore_wait that slept. */
  method Store(system: Ipc.System, conn: Ipc.Connection, bytes: Bytes, ghost ss: seq<State>, ghost ls: seq<Label>)
    returns (ghost ss': seq<State>)
    requires system.Valid() && LeadsTo(ss, ls, system.s)
    requires system.HasConn(conn)
    requires var s := system.s;
             s.core.cur.Some? && s.core.cur.value < |s.cont| && s.cont[s.core.cur.value] == Sending(conn.id)
    modifies system`s, conn.chan, system.kernel.Repr
    ensures system.Valid() && LeadsTo(ss', ls + [DoResume(bytes)], system.s)
  {
    ResumeFits(system.s, bytes);
    system.Store(conn, bytes);
    ss' := LeadsOn(ss, ls, DoResume(bytes), system.s);
  }

  /** ipc_receive. */
  method Receive(system: Ipc.System, chan: Ipc.Channel, cap: nat, ghost ss: seq<State>, ghost ls: seq<Label>)
    returns (r: Option<(nat, Bytes)>, ghost ss': seq<State>)
    requires system.Valid() && LeadsTo(ss, ls, system.s)
    requires system.HasChan(chan)
    requires var s := system.s;
             s.core.cur.Some? && s.core.cur.value < |s.cont| && s.cont[s.core.cur.value] == User
    modifies system`s, chan, system.kernel.Repr
    ensures system.Valid() && LeadsTo(ss', ls + [DoReceive(chan.id, cap)], system.s)
  {
    r := system.Receive(chan, cap);
    ss' := LeadsOn(ss, ls, DoReceive(chan.id, cap), system.s);
  }

  /** The rest of ipc_receive behind a semaphore_wait that slept. */
  method Fetch(system: Ipc.System, chan: Ipc.Channel, cap: nat, ghost ss: seq<State>, ghost ls: seq<Label>)
    returns (recvid: nat, bytes: Bytes, ghost ss': seq<State>)
    requires system.Valid() && LeadsTo(ss, ls, system.s)
    requires system.HasChan(chan)
    requires var s := system.s;
             s.core.cur.Some? && s.core.cur.value < |s.cont| && s.cont[s.core.cur.value] == Receiving(chan.id, cap)
    modifies system`s, chan, system.kernel.Repr
    ensures system.Valid() && LeadsTo(ss', ls + [DoResume([])], system.s)
  {
    ResumeFits(system.s, []);
    recvid, bytes := system.Fetch(chan, cap);
    ss' := LeadsOn(ss, ls, DoResume([]), system.s);
  }

  /** ipc_reply to a message that was received and not answered. */
  method Reply(system: Ipc.System, proc: nat, recvid: nat, status: int, data: Option<Bytes>,
               ghost ss: seq<State>, ghost ls: seq<Label>)
    returns (ghost ss': seq<State>)
    requires system.Valid() && LeadsTo(ss, ls, system.s)
    requires var s := system.s;
             s.core.cur.Some? && s.core.cur.value < |s.cont| && s.cont[s.core.cur.value] == User
    requires var s := system.s;
             && s.core.cur.value < |s.pid| && proc == s.pid[s.core.cur.value]
             && proc in s.home && s.home[proc] < |s.chans|
             && recvid < |s.chans[s.home[proc]].slots| && s.chans[s.home[proc]].slots[recvid].Some?
             && var j := s.chans[s.home[proc]].slots[recvid].value; j < |s.conns| && s.conns[j].phase == Taken
    modifies system`s, system.chans, system.conns, system.kernel.Repr
    ensures system.Valid() && LeadsTo(ss', ls + [DoReply(recvid, status, data)], system.s)
  {
    ReplyFits(system.s, proc, recvid, status, data);
    system.Reply(proc, recvid, status, data);
    ss' := LeadsOn(ss, ls, DoReply(recvid, status, data), system.s);
  }

  /** The rest of ipc_send behind its scheduler_switch. */
  method Finish(system: Ipc.System, conn: Ipc.Connection, cap: nat, ghost ss: seq<State>, ghost ls: seq<Label>)
    returns (status: int, bytes: Bytes, ghost ss': seq<State>)
    requires system.Valid() && LeadsTo(ss, ls, system.s)
    requires system.HasConn(conn) && cap == system.s.conns[conn.id].cap
    requires var s := system.s;
             s.core.cur.Some? && s.core.cur.value < |s.cont| && s.cont[s.core.cur.value] == Awaiting(conn.id)
    modifies system`s, conn
    ensures system.Valid() && LeadsTo(ss', ls + [DoResume([])], system.s)
  {
    ResumeFits(system.s, []);
    status, bytes := system.Finish(conn, cap);
    ss' := LeadsOn(ss, ls, DoResume([]), system.s);
  }
}
