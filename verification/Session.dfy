/** A whole exchange between two processes, made of the calls of module Ipc only. */
module Session {
  import opened Wrappers
  import opened Scheduling
  import opened Rendezvous
  import opened Runs
  import Ipc
  import Vector

  // ---------- the states on the way; thread 0 is the server and thread 1 the client ----------

  function Created(): State {
    State(Core([Ready, Ready], [], [0, 1], None, 0), [User, User], [0, 1], [], [], map[], [])
  }

  function ServerRuns(): State {
    Created().(core := Core([Running, Ready], [], [1], Some(0), 1))
  }

  const IDLE_CHANNEL: Chan := Chan(0, [None, None, None, None], 0, None, SendFree)

  function Listening(): State {
    ServerRuns().(core := Core([Running, Ready], [Sem(1, []), Sem(0, [])], [1], Some(0), 1),
                  chans := [IDLE_CHANNEL], home := map[0 := 0])
  }

  function ClientRuns(): State {
    Listening().(core := Core([Ready, Running], [Sem(1, []), Sem(0, [])], [0], Some(1), 2))
  }

  function Connected(): State {
    ClientRuns().(conns := [Conn(0, 0, [], 0, 1, 0, Idle, 0, [], 0)])
  }

  function Called(cap: nat): Event { Event.Called(0, 1, 0, 0, cap) }

  /** The client has the token. */
  function Calling(cap: nat): State {
    Connected().(core := Core([Ready, Running], [Sem(0, []), Sem(0, [])], [0], Some(1), 2),
                 cont := [User, Sending(0)], conns := [Conn(0, 1, [], 0, 1, cap, Queued, 0, [], 0)],
                 chans := [IDLE_CHANNEL.(tok := SendHeld(1))], log := [Called(cap)])
  }

  /** The message is in the channel, and the client waits for the reply. */
  function Sent(request: Bytes, cap: nat): State {
    Calling(cap).(core := Core([Running, OnReply], [Sem(0, []), Sem(1, [])], [], Some(0), 3),
                  cont := [User, Awaiting(0)], conns := [Conn(0, 1, [], 0, 1, cap, Deposited, 0, request, 0)],
                  chans := [Chan(0, [Some(0), None, None, None], 0, Some(request), RecvFree)],
                  log := [Called(cap), Stored(0, 0, 0, request)])
  }

  lemma ClientCalls(cap: nat)
    requires Protocol(Connected())
    ensures MaySend(Connected(), 0) && SendArrive(Connected(), 0, cap) == Calling(cap)
  {
  }

  lemma ClientStores(request: Bytes, cap: nat)
    requires Protocol(Calling(cap))
    ensures HoldsSend(Calling(cap)) && Deposit(Calling(cap), request) == Sent(request, cap)
  {
    var slots := IDLE_CHANNEL.slots;
    assert Vector.FirstNull(slots) == 0;
    assert slots[0 := Some(0)] == [Some(0), None, None, None];
  }

  lemma ClientSends(request: Bytes, cap: nat)
    requires Protocol(Connected())
    ensures Enabled(Connected(), DoSend(0, request, cap)) && Free(Connected().core, 0)
    ensures Step(Connected(), DoSend(0, request, cap)) == Sent(request, cap)
  {
    ClientCalls(cap);
    SendArriveKeeps(Connected(), 0, cap);
    ClientStores(request, cap);
  }

  /** The server has the message. */
  function Heard(request: Bytes, room: nat, cap: nat): State {
    Sent(request, cap).(core := Core([Running, OnReply], [Sem(1, []), Sem(0, [])], [], Some(0), 3),
                        conns := [Conn(0, 1, [], 0, 1, cap, Taken, 0, request, 0)],
                        chans := [Chan(0, [Some(0), None, None, None], 0, None, SendFree)],
                        log := [Called(cap), Stored(0, 0, 0, request),
                                Received(0, 0, 0, 0, room, Truncate(request, room))])
  }

  /** The server holds the token. */
  function Hearing(request: Bytes, room: nat, cap: nat): State {
    Sent(request, cap).(core := Core([Running, OnReply], [Sem(0, []), Sem(0, [])], [], Some(0), 3),
                        cont := [Receiving(0, room), Awaiting(0)],
                        chans := [Chan(0, [Some(0), None, None, None], 0, Some(request), RecvHeld(0))])
  }

  lemma ServerArrives(request: Bytes, room: nat, cap: nat)
    requires Protocol(Sent(request, cap))
    ensures InUser(Sent(request, cap)) && RecvArrive(Sent(request, cap), 0, room) == Hearing(request, room, cap)
  {
  }

  lemma ServerDrains(request: Bytes, room: nat, cap: nat)
    requires Protocol(Hearing(request, room, cap))
    ensures HoldsRecv(Hearing(request, room, cap)) && Drain(Hearing(request, room, cap)) == Heard(request, room, cap)
  {
  }

  lemma ServerReceives(request: Bytes, room: nat, cap: nat)
    requires Protocol(Sent(request, cap))
    ensures Enabled(Sent(request, cap), DoReceive(0, room)) && Free(Sent(request, cap).core, 1)
    ensures Step(Sent(request, cap), DoReceive(0, room)) == Heard(request, room, cap)
  {
    ServerArrives(request, room, cap);
    RecvArriveKeeps(Sent(request, cap), 0, room);
    ServerDrains(request, room, cap);
  }

  /** The client can run again. */
  function Replied(request: Bytes, room: nat, cap: nat, status: int, answer: Bytes): State {
    Heard(request, room, cap).(
      core := Core([Running, Ready], [Sem(1, []), Sem(0, [])], [1], Some(0), 3),
      conns := [Conn(0, 1, answer, status, 1, cap, Answered, 0, request, 0)],
      chans := [IDLE_CHANNEL],
      log := [Called(cap), Stored(0, 0, 0, request), Received(0, 0, 0, 0, room, Truncate(request, room)),
              Event.Replied(0, 0, 0, 0, status, Some(answer))])
  }

  lemma ServerReplies(request: Bytes, room: nat, cap: nat, status: int, answer: Bytes)
    requires Protocol(Heard(request, room, cap))
    ensures MayReply(Heard(request, room, cap), 0)
    ensures Reply(Heard(request, room, cap), 0, status, Some(answer)) == Replied(request, room, cap, status, answer)
  {
    var slots: seq<Option<nat>> := [Some(0), None, None, None];
    assert slots[0 := None] == IDLE_CHANNEL.slots;
  }

  function Woken(request: Bytes, room: nat, cap: nat, status: int, answer: Bytes): State {
    Replied(request, room, cap, status, answer).(
      core := Core([Ready, Running], [Sem(1, []), Sem(0, [])], [0], Some(1), 4))
  }

  // ---------- the calls ----------

  /** Two processes with a thread each. */
  method Create() returns (system: Ipc.System)
    ensures fresh(system) && fresh(system.kernel.Repr)
    ensures system.Valid() && system.s == Created() && system.chans == [] && system.conns == []
  {
    system := new Ipc.System();
    var server := system.DoClone(0);
    var client := system.DoClone(1);
    assert system.s == Created();
  }

  /** The server is on the CPU. */
  method Start() returns (system: Ipc.System)
    ensures fresh(system) && fresh(system.kernel.Repr)
    ensures system.Valid() && system.s == ServerRuns() && system.chans == [] && system.conns == []
  {
    system := Create();
    system.DoTick();
    assert system.s == ServerRuns();
  }

  method Listen(system: Ipc.System) returns (chan: Ipc.Channel)
    requires system.Valid() && system.s == ServerRuns() && system.chans == []
    modifies system`s, system`chans, system`home, system.kernel.Repr
    ensures fresh(system.kernel.Repr - old(system.kernel.Repr)) && fresh(chan)
    ensures system.Valid() && system.s == Listening() && system.chans == [chan] && system.HasChan(chan)
  {
    chan := system.DoListen(0);
    assert Vector.Nulls<nat>(4) == IDLE_CHANNEL.slots;
    assert system.s == Listening();
  }

  method Connect(system: Ipc.System, chan: Ipc.Channel) returns (conn: Ipc.Connection)
    requires system.Valid() && system.s == Listening() && system.chans == [chan] && system.HasChan(chan)
    requires system.conns == []
    modifies system`s, system`conns, system.kernel.Repr
    ensures system.kernel.Repr == old(system.kernel.Repr) && fresh(conn)
    ensures system.Valid() && system.s == Connected() && system.conns == [conn] && system.HasConn(conn)
  {
    system.DoTick();
    assert system.s == ClientRuns();
    conn := system.DoConnect(chan);
    assert system.s == Connected();
  }

  /** The client's send. */
  method Ask(system: Ipc.System, chan: Ipc.Channel, conn: Ipc.Connection, request: Bytes, cap: nat)
    requires system.Valid() && system.s == Connected() && system.chans == [chan] && system.conns == [conn]
    modifies system`s, chan, conn, system.kernel.Repr
    ensures system.kernel.Repr == old(system.kernel.Repr)
    ensures system.Valid() && system.s == Sent(request, cap)
  {
    assert system.conns[0] == conn && system.chans[0] == chan;
    ClientSends(request, cap);
    var blocked := system.Send(conn, request, cap);
  }

  /** The server's receive. */
  method Hear(system: Ipc.System, chan: Ipc.Channel, room: nat, ghost request: Bytes, ghost cap: nat)
    returns (recvid: nat, heard: Bytes)
    requires system.Valid() && system.s == Sent(request, cap) && system.chans == [chan]
    modifies system`s, chan, system.kernel.Repr
    ensures system.kernel.Repr == old(system.kernel.Repr)
    ensures system.Valid() && system.s == Heard(request, room, cap)
    ensures recvid == 0 && heard == Truncate(request, room)
  {
    assert system.chans[0] == chan;
    ServerReceives(request, room, cap);
    var message := system.Receive(chan, room);
    recvid, heard := message.value.0, message.value.1;
  }

  /** The server's reply. */
  method Answer(system: Ipc.System, chan: Ipc.Channel, recvid: nat, status: int, answer: Bytes,
                ghost request: Bytes, ghost room: nat, ghost cap: nat)
    requires system.Valid() && system.s == Heard(request, room, cap) && recvid == 0 && system.chans == [chan]
    modifies system`s, chan, system.conns, system.kernel.Repr
    ensures system.kernel.Repr == old(system.kernel.Repr)
    ensures system.Valid() && system.s == Replied(request, room, cap, status, answer)
  {
    assert system.chans[0] == chan;
    ServerReplies(request, room, cap, status, answer);
    system.Reply(0, recvid, status, Some(answer));
  }

  /** The server's part. */
  method Serve(system: Ipc.System, chan: Ipc.Channel, room: nat, status: int, answer: Bytes,
               ghost request: Bytes, ghost cap: nat)
    returns (heard: Bytes)
    requires system.Valid() && system.s == Sent(request, cap) && system.chans == [chan]
    modifies system`s, chan, system.conns, system.kernel.Repr
    ensures system.kernel.Repr == old(system.kernel.Repr)
    ensures system.Valid() && system.s == Replied(request, room, cap, status, answer)
    ensures heard == Truncate(request, room)
  {
    var recvid;
    recvid, heard := Hear(system, chan, room, request, cap);
    Answer(system, chan, recvid, status, answer, request, room, cap);
  }

  /** The end of the client's send. */
  method Return(system: Ipc.System, conn: Ipc.Connection, cap: nat,
                ghost request: Bytes, ghost room: nat, ghost status: int, ghost answer: Bytes)
    returns (result: int, reply: Bytes)
    requires system.Valid() && system.s == Replied(request, room, cap, status, answer) && system.conns == [conn]
    modifies system`s, conn, system.kernel.Repr
    ensures system.Valid() && InUser(system.s)
    ensures result == status && reply == Truncate(answer, cap)
  {
    assert system.conns[0] == conn;
    system.DoTick();
    assert system.s == Woken(request, room, cap, status, answer);
    result, reply := system.Finish(conn, cap);
  }

  /** A server that listens and a client that is connected to it. */
  method Prepare() returns (system: Ipc.System, chan: Ipc.Channel, conn: Ipc.Connection)
    ensures fresh(system) && fresh(system.kernel.Repr) && fresh(chan) && fresh(conn)
    ensures system.Valid() && system.s == Connected() && system.chans == [chan] && system.conns == [conn]
  {
    system := Start();
    chan := Listen(system);
    conn := Connect(system, chan);
  }

  /**
   * A server listens, a client connects and sends, the server receives and replies: the server gets what fits of
   * the request, and the client gets the server's status and what fits of the answer.
   */
  method Exchange(request: Bytes, room: nat, status: int, answer: Bytes, cap: nat)
    returns (heard: Bytes, result: int, reply: Bytes)
    ensures heard <= request && |heard| == if |request| <= room then |request| else room
    ensures reply <= answer && |reply| == if |answer| <= cap then |answer| else cap
    ensures result == status
  {
    var system, chan, conn := Prepare();
    Ask(system, chan, conn, request, cap);
    heard := Serve(system, chan, room, status, answer, request, cap);
    result, reply := Return(system, conn, cap, request, room, status, answer);
  }
}
