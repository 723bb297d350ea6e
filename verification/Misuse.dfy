/**
 * The two rules of the message protocol: no send on a connection that is busy, and no reply to a message that was not
 * received.  While they are kept, only its own reply wakes a sender; a reply that comes too early wakes it although
 * its message is still to be received; and a run that keeps to the rules reaches a state where both can be broken.
 * What a second send does is in module SecondSend.
 */
module Misuse {
  import opened Wrappers
  import opened Scheduling
  import opened Rendezvous
  import opened Runs
  import Vector

  // ---------- what kernel paths within the rules do to threads that wait for a reply ----------

  function SlotOf(s: State, c: nat, v: nat): Option<nat> {
    if c < |s.chans| then Vector.At(s.chans[c].slots, v) else None
  }

  /** The running thread is in ipc_send on connection `i`. */
  ghost predicate Sends(s: State, s': State, i: nat) {
    && s.core.cur.Some? && i < |s.conns| && i < |s'.conns|
    && ((Me(s) < |s.cont| && s.cont[Me(s)] == Sending(i)) || s'.conns[i].owner == Me(s))
  }

  /** Owners change only to the running thread, and only its sends put connections into slots. */
  ghost predicate Moves(s: State, s': State) {
    && |s.cont| <= |s'.cont| && |s.conns| <= |s'.conns| && |s.chans| <= |s'.chans|
    && (forall i :: 0 <= i < |s.conns| && s'.conns[i].owner != s.conns[i].owner ==>
          s.core.cur == Some(s'.conns[i].owner))
    && (forall c: nat, v: nat {:trigger SlotOf(s', c, v)} ::
          SlotOf(s', c, v) == SlotOf(s, c, v) || SlotOf(s', c, v) == None
          || (SlotOf(s, c, v) == None && Sends(s, s', SlotOf(s', c, v).value)))
    && (forall u {:trigger s'.cont[u]} :: 0 <= u < |s'.cont| && s'.cont[u].Sending? ==>
          (u < |s.cont| && s'.cont[u] == s.cont[u]) || Sends(s, s', s'.cont[u].conn))
  }

  /** A thread leaves STATE_REPLY only by a reply that clears a slot of its connection; and it is not running. */
  ghost predicate Leaves(s: State, s': State) {
    && |s.core.where| <= |s'.core.where|
    && (forall t: Tid {:trigger s'.core.where[t]} :: t < |s.core.where| && s.core.where[t] == OnReply ==>
          s'.core.where[t] == OnReply
          || exists c: nat, v: nat :: c < |s.chans| && RepliesTo(s, c, v, t) && SlotOf(s', c, v) == None)
    && (forall t: Tid :: t < |s'.core.where| && s'.core.where[t] == OnReply ==> s'.core.cur != Some(t))
  }

  lemma SendMoves(s: State, j: nat, bytes: Bytes, cap: nat)
    requires Protocol(s) && MaySend(s, j)
    ensures Moves(s, Step(s, DoSend(j, bytes, cap)))
  {
    assert ConnOk(s, j);
    SendArriveKeeps(s, j, cap);
    var c := s.conns[j].chan;
    var s' := Step(s, DoSend(j, bytes, cap));
    forall d: nat, v: nat
      ensures SlotOf(s', d, v) == SlotOf(s, d, v) || (SlotOf(s, d, v) == None && SlotOf(s', d, v) == Some(j))
    {
      if d == c { Vector.AddedIsUpdate(s.chans[c].slots, Some(j), v); }
    }
  }

  lemma StoreMoves(s: State, bytes: Bytes)
    requires Protocol(s) && HoldsSend(s)
    ensures Moves(s, Deposit(s, bytes))
  {
    assert ThreadOk(s, Me(s));
    var j := s.cont[Me(s)].conn;
    var c := s.conns[j].chan;
    var s' := Deposit(s, bytes);
    forall d: nat, v: nat
      ensures SlotOf(s', d, v) == SlotOf(s, d, v) || (SlotOf(s, d, v) == None && SlotOf(s', d, v) == Some(j))
    {
      if d == c { Vector.AddedIsUpdate(s.chans[c].slots, Some(j), v); }
    }
  }

  lemma DrainMoves(s: State)
    requires Protocol(s) && HoldsRecv(s)
    ensures Moves(s, Drain(s))
  {
    assert ThreadOk(s, Me(s)) && TokenOk(s, s.cont[Me(s)].chan);
    var s' := Drain(s);
    forall d: nat, v: nat ensures SlotOf(s', d, v) == SlotOf(s, d, v) {}
  }

  lemma ReturnMoves(s: State)
    requires Protocol(s) && Replyable(s)
    ensures Moves(s, Return(s))
  {
    assert ThreadOk(s, Me(s));
    forall d: nat, v: nat ensures SlotOf(Return(s), d, v) == SlotOf(s, d, v) {}
  }

  lemma ReceiveMoves(s: State, c: nat, cap: nat)
    requires Protocol(s) && InUser(s) && c < |s.chans|
    ensures Moves(s, Step(s, DoReceive(c, cap)))
  {
    RecvArriveKeeps(s, c, cap);
    var r := RecvArrive(s, c, cap);
    if Free(s.core, RecvSem(c)) {
      DrainMoves(r);
      forall d: nat, v: nat ensures SlotOf(r, d, v) == SlotOf(s, d, v) {}
    } else {
      forall d: nat, v: nat ensures SlotOf(r, d, v) == SlotOf(s, d, v) {}
    }
  }

  lemma ReplyMoves(s: State, v: nat, status: int, data: Option<Bytes>)
    requires Protocol(s) && MayReply(s, v)
    ensures Moves(s, Reply(s, v, status, data))
  {
    var s' := Reply(s, v, status, data);
    forall d: nat, x: nat ensures SlotOf(s', d, x) == SlotOf(s, d, x) || SlotOf(s', d, x) == None {}
  }

  lemma QuietMoves(s: State, s': State)
    requires s.cont <= s'.cont && s.conns <= s'.conns && s.chans <= s'.chans
    requires forall c, v :: |s.chans| <= c < |s'.chans| && 0 <= v ==> Vector.At(s'.chans[c].slots, v) == None
    requires forall u :: |s.cont| <= u < |s'.cont| ==> s'.cont[u] == User
    ensures Moves(s, s')
  {
    forall d: nat, v: nat ensures SlotOf(s', d, v) == SlotOf(s, d, v) {}
  }

  lemma StepMoves(s: State, l: Label)
    requires Protocol(s) && Enabled(s, l)
    ensures Moves(s, Step(s, l))
  {
    match l
    case DoSend(j, bytes, cap) => SendMoves(s, j, bytes, cap);
    case DoReceive(c, cap) => ReceiveMoves(s, c, cap);
    case DoReply(v, status, data) => ReplyMoves(s, v, status, data);
    case DoResume(bytes) =>
      match s.cont[Me(s)] {
        case Sending(_) => StoreMoves(s, bytes);
        case Receiving(_, _) => DrainMoves(s);
        case Awaiting(_) => ReturnMoves(s);
      }
    case _ => QuietMoves(s, Step(s, l));
  }

  /** While the rules are kept, a message that waits for its reply keeps its owner. */
  ghost predicate OwnersStay(s: State, s': State) {
    |s.conns| <= |s'.conns| &&
    forall i :: 0 <= i < |s.conns| && s.conns[i].phase in {Deposited, Taken} ==> s'.conns[i].owner == s.conns[i].owner
  }

  lemma DrainOwners(s: State)
    requires Protocol(s) && HoldsRecv(s)
    ensures OwnersStay(s, Drain(s)) && |Drain(s).conns| == |s.conns|
  {
    assert ThreadOk(s, Me(s)) && TokenOk(s, s.cont[Me(s)].chan);
  }

  lemma StepOwners(s: State, l: Label)
    requires Protocol(s) && Enabled(s, l)
    ensures OwnersStay(s, Step(s, l))
  {
    match l
    case DoSend(j, bytes, cap) =>
      assert ConnOk(s, j);
      SendArriveKeeps(s, j, cap);
    case DoReceive(c, cap) =>
      RecvArriveKeeps(s, c, cap);
      if Free(s.core, RecvSem(c)) { DrainOwners(RecvArrive(s, c, cap)); }
    case DoResume(bytes) =>
      assert ThreadOk(s, Me(s));
      if s.cont[Me(s)].Receiving? { DrainOwners(s); }
    case _ =>
  }

  lemma MovesLeaves(s: State, s': State)
    requires Protocol(s) && Protocol(s') && Moves(s, s') && OwnersStay(s, s')
    ensures Leaves(s, s')
  {
    forall t: Tid | t < |s.core.where| && s.core.where[t] == OnReply && s'.core.where[t] != OnReply
      ensures exists c: nat, v: nat :: c < |s.chans| && RepliesTo(s, c, v, t) && SlotOf(s', c, v) == None
    {
      SlotOwner(s, t);
      SlotOwner(s', t);
      var c: nat, v: nat :| c < |s.chans| && RepliesTo(s, c, v, t);
      assert SlotOf(s, c, v).Some? && SlotOk(s, c, v);
      if SlotOf(s', c, v) == SlotOf(s, c, v) { assert RepliesTo(s', c, v, t); }
    }
  }

  lemma StepLeaves(s: State, l: Label)
    requires Good(s) && Enabled(s, l)
    ensures Leaves(s, Step(s, l))
  {
    StepGood(s, l);
    StepMoves(s, l);
    StepOwners(s, l);
    MovesLeaves(s, Step(s, l));
  }

  // ---------- a reply to a message that was not received ----------

  lemma {:induction false} AboutFrom(log: seq<Event>, m: nat, e: Event)
    requires e in About(log, m)
    ensures e in log && e.mid == m
  {
    if log != [] {
      if e in About(log[..|log| - 1], m) { AboutFrom(log[..|log| - 1], m, e); }
    }
  }

  /** The message of send `m` has been received. */
  ghost predicate WasReceived(log: seq<Event>, m: nat) {
    exists k :: 0 <= k < |log| && log[k].mid == m && log[k].Received?
  }

  /** An unanswered message has been received exactly when its connection says so. */
  lemma ReceivedIffTaken(s: State, j: nat)
    requires Good(s) && j < |s.conns| && s.conns[j].phase in {Deposited, Taken}
    ensures WasReceived(s.log, s.conns[j].mid) <==> s.conns[j].phase == Taken
  {
    var m := s.conns[j].mid;
    assert CarriedOk(s, j);
    MonitorSound(s.log, m);
    var es := About(s.log, m);
    if s.conns[j].phase == Taken {
      AboutFrom(s.log, m, es[2]);
    } else {
      forall k | 0 <= k < |s.log| && s.log[k].mid == m ensures !s.log[k].Received? {
        AboutHas(s.log, k);
      }
    }
  }

  /**
   * A reply makes the sender READY and about to return.  Its message was not received at all if and only if the reply
   * came before that; then the message is still in the channel, and the receive that takes it out will return a recvid
   * whose slot is null, which a reply to it would follow.
   */
  lemma EarlyReply(s: State, v: nat, status: int, data: Option<Bytes>)
    requires Good(s) && HasSlot(s, v)
    ensures var c := s.home[s.pid[Me(s)]];
            var s', j := Reply(s, v, status, data), s.chans[c].slots[v].value;
            var n := s.conns[j];
            && n.owner < |s'.cont| && s'.core.where[n.owner] == Ready && s'.cont[n.owner] == Awaiting(j)
            && (!WasReceived(s'.log, n.mid) <==> n.phase == Deposited)
            && (n.phase == Deposited ==>
                  s'.chans[c].buffer == Some(n.payload) && Vector.At(s'.chans[c].slots, s'.chans[c].recvid) == None)
  {
    var c := s.home[s.pid[Me(s)]];
    var j := s.chans[c].slots[v].value;
    assert SlotOk(s, c, v) && ConnOk(s, j) && ThreadOk(s, s.conns[j].owner);
    ReceivedIffTaken(s, j);
    var s', m := Reply(s, v, status, data), s.conns[j].mid;
    assert s'.log[..|s.log|] == s.log && s'.log[|s.log|].Replied?;
    if WasReceived(s.log, m) {
      var k :| 0 <= k < |s.log| && s.log[k].mid == m && s.log[k].Received?;
      assert s'.log[k] == s.log[k];
    }
    if WasReceived(s'.log, m) {
      var k :| 0 <= k < |s'.log| && s'.log[k].mid == m && s'.log[k].Received?;
      assert s.log[k] == s'.log[k];
    }
  }

  /** Then the events about the message are no life any more. */
  lemma EarlyReplyBreaks(s: State, v: nat, status: int, data: Option<Bytes>)
    requires Good(s) && HasSlot(s, v)
    ensures var n := s.conns[s.chans[s.home[s.pid[Me(s)]]].slots[v].value];
            Track(Reply(s, v, status, data).log, n.mid) == Broken <==> n.phase == Deposited
  {
    var c := s.home[s.pid[Me(s)]];
    var j := s.chans[c].slots[v].value;
    var n := s.conns[j];
    assert SlotOk(s, c, v) && CarriedOk(s, j);
    var s' := Reply(s, v, status, data);
    assert s'.log[..|s'.log| - 1] == s.log;
    if n.phase != Deposited {
      ReplyGood(s, v, status, data);
      assert MessageOk(s', n.mid);
    }
  }

  // ---------- a run to a state where both can happen ----------

  function Threads(n: nat): State {
    State(Core(seq(n, _ => Ready), [], seq(n, (i: nat) => i), None, 0), seq(n, _ => User), seq(n, _ => 0),
          [], [], map[], [])
  }

  function FirstRuns(): State {
    Threads(4).(core := Core([Running, Ready, Ready, Ready], [], [1, 2, 3], Some(0), 1))
  }

  function Listening(): State {
    FirstRuns().(core := Core([Running, Ready, Ready, Ready], [Sem(1, []), Sem(0, [])], [1, 2, 3], Some(0), 1),
                 chans := [Chan(0, [None, None, None, None], 0, None, SendFree)], home := map[0 := 0])
  }

  const NEW: Conn := Conn(0, 0, [], 0, 0, 0, Idle, 0, [], 0)

  function Connected(): State { Listening().(conns := [NEW, NEW]) }

  function Calling(): State {
    Connected().(core := Core([Running, Ready, Ready, Ready], [Sem(0, []), Sem(0, [])], [1, 2, 3], Some(0), 1),
                 cont := [Sending(0), User, User, User], conns := [NEW.(phase := Queued), NEW],
                 chans := [Chan(0, [None, None, None, None], 0, None, SendHeld(0))], log := [Called(0, 0, 0, 0, 0)])
  }

  /** Thread 0 waits for the reply; thread 1 runs. */
  function Waiting(): State {
    Calling().(core := Core([OnReply, Running, Ready, Ready], [Sem(0, []), Sem(1, [])], [2, 3], Some(1), 2),
               cont := [Awaiting(0), User, User, User], conns := [NEW.(phase := Deposited), NEW],
               chans := [Chan(0, [Some(0), None, None, None], 0, Some([]), RecvFree)],
               log := [Called(0, 0, 0, 0, 0), Stored(0, 0, 0, [])])
  }

  /**
   * Four threads of one process that listens and is connected to itself twice.  Thread 0 waits for the reply on
   * connection 0, thread 1 sleeps in its send on connection 1, and thread 2 runs.
   */
  function Crowded(): State {
    Waiting().(core := Core([OnReply, OnSem(0), Running, Ready], [Sem(0, [1]), Sem(1, [])], [3], Some(2), 3),
               cont := [Awaiting(0), Sending(1), User, User],
               conns := [NEW.(phase := Deposited), NEW.(phase := Queued, owner := 1, mid := 2)],
               log := [Called(0, 0, 0, 0, 0), Stored(0, 0, 0, []), Called(2, 1, 1, 0, 0)])
  }

  lemma RunMore(ss: seq<State>, ls: seq<Label>, l: Label, s: State)
    requires Run(ss, ls) && Next(ss[|ls|], l, s)
    ensures Run(ss + [s], ls + [l])
  {
  }

  lemma ToThread(n: nat)
    ensures Next(Threads(n), DoClone(0), Threads(n + 1))
  {
  }

  lemma ToListening()
    ensures Next(Threads(4), DoTick, FirstRuns()) && Next(FirstRuns(), DoListen, Listening())
  {
    assert Threads(4).core.ready == [0, 1, 2, 3] && Threads(4).core.ready[1..] == [1, 2, 3];
    assert Vector.Nulls<nat>(4) == [None, None, None, None];
  }

  lemma ToConnected()
    ensures Next(Listening(), DoConnect(0), Listening().(conns := [NEW]))
    ensures Next(Listening().(conns := [NEW]), DoConnect(0), Connected())
  {
  }

  lemma ToCalling()
    requires Protocol(Connected())
    ensures MaySend(Connected(), 0) && SendArrive(Connected(), 0, 0) == Calling()
  {
  }

  lemma ToWaiting()
    requires Protocol(Calling())
    ensures HoldsSend(Calling()) && Deposit(Calling(), []) == Waiting()
  {
    var slots: seq<Option<nat>> := [None, None, None, None];
    assert Vector.FirstNull(slots) == 0;
    assert slots[0 := Some(0)] == [Some(0), None, None, None];
  }

  lemma FirstSends()
    ensures Next(Connected(), DoSend(0, [], 0), Waiting())
  {
    if Protocol(Connected()) {
      ToCalling();
      SendSteps(Connected(), 0, [], 0);
      SendArriveKeeps(Connected(), 0, 0);
      ToWaiting();
    }
  }

  lemma ToCrowded()
    requires Protocol(Waiting())
    ensures MaySend(Waiting(), 1) && SendArrive(Waiting(), 1, 0) == Crowded()
  {
    var k := Park(Waiting().core, 0);
    assert k.where == [OnReply, OnSem(0), Ready, Ready] && k.ready == [2, 3] && k.ready[1..] == [3];
    assert k.sems[0].queue == [1];
    assert k.sems == [Sem(0, [1]), Sem(1, [])];
    assert Scheduling.Schedule(k) == Crowded().core;
  }

  lemma SecondSleeps()
    ensures Next(Waiting(), DoSend(1, [], 0), Crowded())
  {
    if Protocol(Waiting()) {
      ToCrowded();
      SendSteps(Waiting(), 1, [], 0);
    }
  }

  lemma ThreadsReached() returns (ss: seq<State>, ls: seq<Label>)
    ensures Run(ss, ls) && ss[|ls|] == Threads(4)
  {
    ss, ls := [INIT], [];
    assert Threads(0) == INIT;
    for n := 0 to 4
      invariant Run(ss, ls) && ss[|ls|] == Threads(n)
    {
      ToThread(n);
      RunMore(ss, ls, DoClone(0), Threads(n + 1));
      ss, ls := ss + [Threads(n + 1)], ls + [DoClone(0)];
    }
  }

  lemma ConnectedReached() returns (ss: seq<State>, ls: seq<Label>)
    ensures Run(ss, ls) && ss[|ls|] == Connected()
  {
    ss, ls := ThreadsReached();
    ToListening();
    ToConnected();
    RunMore(ss, ls, DoTick, FirstRuns());
    ss, ls := ss + [FirstRuns()], ls + [DoTick];
    RunMore(ss, ls, DoListen, Listening());
    ss, ls := ss + [Listening()], ls + [DoListen];
    RunMore(ss, ls, DoConnect(0), Listening().(conns := [NEW]));
    ss, ls := ss + [Listening().(conns := [NEW])], ls + [DoConnect(0)];
    RunMore(ss, ls, DoConnect(0), Connected());
    ss, ls := ss + [Connected()], ls + [DoConnect(0)];
  }

  /** A run that keeps to the rules reaches that state. */
  lemma CrowdedReached() returns (ss: seq<State>, ls: seq<Label>)
    ensures Run(ss, ls) && ss[|ls|] == Crowded()
  {
    ss, ls := ConnectedReached();
    FirstSends();
    RunMore(ss, ls, DoSend(0, [], 0), Waiting());
    ss, ls := ss + [Waiting()], ls + [DoSend(0, [], 0)];
    SecondSleeps();
    RunMore(ss, ls, DoSend(1, [], 0), Crowded());
    ss, ls := ss + [Crowded()], ls + [DoSend(1, [], 0)];
  }

  /**
   * Thread 2 may do what the two rules forbid there: send on a connection whose message is stored, or on one whose
   * message is queued, and reply to a message that was not received.
   */
  lemma BusyReached() returns (ss: seq<State>, ls: seq<Label>)
    ensures Run(ss, ls) && ss[|ls|] == Crowded() && Protocol(Crowded()) && InUser(Crowded())
    ensures forall j :: 0 <= j < 2 ==> Crowded().conns[j].pid == Crowded().pid[Me(Crowded())]
    ensures Crowded().conns[0].phase == Deposited && Crowded().conns[1].phase == Queued && HasSlot(Crowded(), 0)
  {
    ss, ls := CrowdedReached();
    RunGood(ss, ls, |ls|);
  }
}
