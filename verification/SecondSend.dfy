/**
 * A second ipc_send on a connection whose first one is not answered yet, on memory that shows a state of the
 * protocol, and what becomes of the first sender.
 */
module SecondSend {
  import opened Wrappers
  import opened Scheduling
  import opened Kernel
  import opened Loose
  import opened Agreement
  import R = Rendezvous
  import Misuse

  /** Thread `t` is in ipc_send and has no reply yet. */
  ghost predicate Waits(w: World, t: Tid) {
    t < |w.cont| == |w.states| && (w.cont[t].Sending? || (w.cont[t].Awaiting? && w.states[t] == StateReply))
  }

  /** It will get none: no reply that is on its way, or that a send under way will cause, names it. */
  ghost predicate Disowned(w: World, t: Tid) {
    Waits(w, t) && Unnamed(w, t)
  }

  /** The owner of a busy connection owns no other one in use, so the claim of another thread leaves it without any. */
  lemma ClaimDisowns(w: World, s: R.State, j: nat)
    requires R.Protocol(s) && Shows(w, s) && R.InUser(s) && j < |s.conns|
    requires s.conns[j].phase in {R.Queued, R.Deposited, R.Taken}
    ensures s.conns[j].owner != R.Me(s) && Unnamed(Claimed(w, j), s.conns[j].owner)
  {
    var t, a := s.conns[j].owner, Claimed(w, j);
    assert R.ConnOk(s, j) && R.ThreadOk(s, t);
    forall c: nat, v: nat | SlotOf(a, c, v).Some? ensures NotOwned(a, SlotOf(a, c, v).value, t) {
      assert R.SlotOk(s, c, v) && R.ConnOk(s, SlotOf(a, c, v).value);
    }
    forall u | 0 <= u < |a.cont| && a.cont[u].Sending? ensures NotOwned(a, a.cont[u].conn, t) {
      assert u != R.Me(s) ==> a.cont[u] == s.cont[u] && R.ThreadOk(s, u);
    }
  }

  /** Then the reply that is on its way names the second sender. */
  lemma BusySendNames(w: World, s: R.State, j: nat, bytes: Bytes, q: seq<Tid>)
    requires R.Protocol(s) && Shows(w, s) && R.InUser(s) && j < |s.conns| && s.conns[j].phase in {R.Deposited, R.Taken}
    requires Enabled(w, Send(j, bytes, q))
    ensures var w' := Step(w, Send(j, bytes, q));
            SlotOf(w', s.conns[j].chan, s.conns[j].recvid) == Some(j) && w'.conns[j].owner == R.Me(s)
  {
    assert R.ConnOk(s, j);
    SentCalls(w, j, bytes, q);
    assert SlotOf(w, s.conns[j].chan, s.conns[j].recvid) == Some(j);
  }

  lemma BusySendUnnamed(w: World, s: R.State, j: nat, bytes: Bytes, q: seq<Tid>)
    requires R.Protocol(s) && Shows(w, s) && R.InUser(s) && j < |s.conns|
    requires s.conns[j].phase in {R.Queued, R.Deposited, R.Taken} && Enabled(w, Send(j, bytes, q))
    ensures s.conns[j].owner < |s.cont| && s.conns[j].owner != R.Me(s) && R.ConnOk(s, j)
    ensures Unnamed(Sent(w, j, bytes, q), s.conns[j].owner)
  {
    assert R.ConnOk(s, j);
    ClaimDisowns(w, s, j);
    ClaimedUnnamed(w, j, bytes, q, s.conns[j].owner);
  }

  lemma ReplyWaiterOff(w: World, s: R.State, t: Tid)
    requires R.Protocol(s) && Shows(w, s) && t < |s.core.where| && s.core.where[t] == OnReply
    ensures Off(w, t) && w.states[t] == StateReply && w.cont[t].Awaiting?
  {
    assert R.ThreadOk(s, t);
    UnlistedApart(w, s.core, t);
  }

  lemma BusyOwner(s: R.State, j: nat)
    requires R.Protocol(s) && j < |s.conns| && s.conns[j].phase in {R.Deposited, R.Taken}
    ensures s.conns[j].owner < |s.core.where| && s.core.where[s.conns[j].owner] == OnReply
  {
    assert R.ConnOk(s, j) && R.ThreadOk(s, s.conns[j].owner);
  }

  lemma BusySendLoses(w: World, s: R.State, j: nat, bytes: Bytes, q: seq<Tid>)
    requires R.Protocol(s) && Shows(w, s) && R.InUser(s) && j < |s.conns|
    requires s.conns[j].phase in {R.Deposited, R.Taken} && Enabled(w, Send(j, bytes, q))
    ensures Lost(Sent(w, j, bytes, q), s.conns[j].owner)
  {
    var t := s.conns[j].owner;
    BusyOwner(s, j);
    BusySendUnnamed(w, s, j, bytes, q);
    ReplyWaiterOff(w, s, t);
    SentApart(w, j, bytes, q, t);
  }

  lemma QueuedSendWaits(w: World, s: R.State, j: nat, bytes: Bytes, q: seq<Tid>)
    requires R.Protocol(s) && Shows(w, s) && R.InUser(s) && j < |s.conns|
    requires s.conns[j].phase == R.Queued && Enabled(w, Send(j, bytes, q))
    ensures Disowned(Sent(w, j, bytes, q), s.conns[j].owner) && !Lost(Sent(w, j, bytes, q), s.conns[j].owner)
  {
    BusySendUnnamed(w, s, j, bytes, q);
    SentCalls(w, j, bytes, q);
  }

  /** The caller of the send is the owner now. */
  lemma SenderNamed(w: World, s: R.State, j: nat, bytes: Bytes, q: seq<Tid>)
    requires Shows(w, s) && R.InUser(s) && j < |s.conns| && Enabled(w, Send(j, bytes, q))
    ensures !Unnamed(Sent(w, j, bytes, q), R.Me(s))
  {
    var w', t := Sent(w, j, bytes, q), R.Me(s);
    SentCalls(w, j, bytes, q);
    if w'.cont[t] == R.Sending(j) {
      assert !NotOwned(w', w'.cont[t].conn, t);
    } else {
      var c: nat, v: nat :| SlotOf(w', c, v) == Some(j);
      assert !NotOwned(w', SlotOf(w', c, v).value, t);
    }
  }

  /** A thread that waits in a send owns its connection, and that is in a slot or will be put into one. */
  lemma WaiterOwns(w: World, s: R.State, t: Tid)
    requires R.Protocol(s) && Shows(w, s) && t < |s.cont| && Waits(w, t)
    ensures var i := w.cont[t].conn;
            && i < |w.conns| && w.conns[i].owner == t && s.conns[i].phase in {R.Queued, R.Deposited, R.Taken}
            && (w.cont[t].Sending? || exists c: nat, v: nat :: SlotOf(w, c, v) == Some(i))
  {
    assert R.ThreadOk(s, t);
    var i := s.cont[t].conn;
    assert R.ConnOk(s, i);
    if s.cont[t].Awaiting? { assert SlotOf(w, s.conns[i].chan, s.conns[i].recvid) == Some(i); }
  }

  /** So it is named, and another thread's send on another connection does not change that. */
  lemma WaiterNamed(w: World, j: nat, bytes: Bytes, q: seq<Tid>, t: Tid)
    requires Enabled(w, Send(j, bytes, q)) && t < |w.cont| && t != Me(w) && (w.cont[t].Sending? || w.cont[t].Awaiting?)
    requires var i := w.cont[t].conn;
             && i < |w.conns| && i != j && w.conns[i].owner == t
             && (w.cont[t].Sending? || exists c: nat, v: nat :: SlotOf(w, c, v) == Some(i))
    ensures !Unnamed(Sent(w, j, bytes, q), t)
  {
    var w', i := Sent(w, j, bytes, q), w.cont[t].conn;
    SentCalls(w, j, bytes, q);
    if w.cont[t].Sending? {
      assert !NotOwned(w', w'.cont[t].conn, t);
    } else {
      var c: nat, v: nat :| SlotOf(w, c, v) == Some(i);
      assert !NotOwned(w', SlotOf(w', c, v).value, t);
    }
  }

  lemma IdleSendDisownsNobody(w: World, s: R.State, j: nat, bytes: Bytes, q: seq<Tid>)
    requires R.Protocol(s) && Shows(w, s) && R.InUser(s) && j < |s.conns| && Enabled(w, Send(j, bytes, q))
    requires s.conns[j].phase !in {R.Queued, R.Deposited, R.Taken}
    ensures !Disowned(Sent(w, j, bytes, q), s.conns[j].owner)
  {
    var t := s.conns[j].owner;
    if t == R.Me(s) {
      SenderNamed(w, s, j, bytes, q);
    } else {
      SentCalls(w, j, bytes, q);
      if Waits(w, t) {
        WaiterOwns(w, s, t);
        WaiterNamed(w, j, bytes, q, t);
      }
    }
  }

  /**
   * A second send takes the reply away from the first sender exactly when that one has none yet.  If its message is
   * stored by then, the first sender is lost for good (see LostForever); if it is still queued, the first sender
   * will store it and then wait for a reply that names the other (see NeverNamed and StoreLoses).
   */
  lemma SecondSendDisowns(w: World, s: R.State, j: nat, bytes: Bytes, q: seq<Tid>)
    requires R.Protocol(s) && Shows(w, s) && R.InUser(s) && j < |s.conns| && Enabled(w, Send(j, bytes, q))
    ensures var w', t := Step(w, Send(j, bytes, q)), s.conns[j].owner;
            && (Disowned(w', t) <==> s.conns[j].phase in {R.Queued, R.Deposited, R.Taken})
            && (Lost(w', t) <==> s.conns[j].phase in {R.Deposited, R.Taken})
  {
    if s.conns[j].phase == R.Queued {
      QueuedSendWaits(w, s, j, bytes, q);
    } else if s.conns[j].phase in {R.Deposited, R.Taken} {
      BusySendLoses(w, s, j, bytes, q);
    } else {
      IdleSendDisownsNobody(w, s, j, bytes, q);
    }
  }

  // ---------- a first sender that is still queued ----------

  /** It is lost as soon as it has stored its message, as long as the queues are in order then. */
  lemma QueuedSenderLost(w: World, k: Core, bytes: Bytes)
    requires Stores(w) && Unnamed(w, Me(w)) && Queues(w, k) && !Listed(k.where[Me(w)])
    ensures Enabled(w, Resume(bytes)) && Lost(Step(w, Resume(bytes)), Me(w))
  {
    UnlistedApart(w, k, Me(w));
    StoreLoses(w, bytes);
  }

  function BothQueued(): Core {
    Core([OnReply, OnSem(0), OnSem(0), Running], [Sem(0, [1, 2]), Sem(1, [])], [], Some(3), 4)
  }

  function Woken(): Core {
    Core([OnReply, Ready, OnSem(0), Running], [Sem(0, [2]), Sem(0, [])], [1], Some(3), 4)
  }

  function Chosen(): Core {
    Core([OnReply, Running, OnSem(0), Ready], [Sem(0, [2]), Sem(0, [])], [3], Some(1), 5)
  }

  lemma QueuesThen()
    ensures !Free(Misuse.Crowded().core, 0)
    ensures Scheduling.Schedule(Park(Misuse.Crowded().core, 0)) == BothQueued()
  {
    var k := Park(Misuse.Crowded().core, 0);
    assert k.sems[0].queue == [1, 2];
    assert k.ready == [3] && k.ready[1..] == [] && k.sems == [Sem(0, [1, 2]), Sem(1, [])];
    assert k.where == [OnReply, OnSem(0), OnSem(0), Ready];
  }

  lemma QueuesLater()
    ensures Signal(Take(BothQueued(), 1), 0) == Woken() && Scheduling.Schedule(Woken()) == Chosen()
  {
    var k := Requeue(Woken());
    assert k.ready == [1, 3] && k.ready[1..] == [3];
  }

  /** Thread 2 sends on connection 1 as well and goes to sleep behind thread 1. */
  lemma SecondQueues(w: World) returns (w': World)
    requires R.Protocol(Misuse.Crowded()) && Shows(w, Misuse.Crowded())
    ensures Goes(w, Send(1, [], [1]), w')
    ensures Queues(w', BothQueued()) && Places(w', BothQueued()) && Settled(BothQueued())
    ensures w'.cont == [R.Awaiting(0), R.Sending(1), R.Sending(1), R.User] && |w'.chans| == 1
  {
    var k, a := Misuse.Crowded().core, Claimed(w, 1);
    assert Queues(a, k) && Places(a, k);
    SleptAgrees(a, k, 0);
    WaitKeeps(k, 0);
    QueuesThen();
    w' := Slept(a, 0, [1]);
  }

  lemma SecondDisowns(w: World, w': World)
    requires R.Protocol(Misuse.Crowded()) && Shows(w, Misuse.Crowded()) && Goes(w, Send(1, [], [1]), w')
    ensures Unnamed(w', 1)
  {
    SecondSendDisowns(w, Misuse.Crowded(), 1, [], [1]);
  }

  lemma ThenTakes(w: World)
    requires Queues(w, BothQueued()) && Places(w, BothQueued()) && Settled(BothQueued())
    requires w.cont == [R.Awaiting(0), R.Sending(1), R.Sending(1), R.User] && |w.chans| == 1
    ensures InUser(w) && Me(w) == 3
    ensures var a, k := Entered(w, 0, 0), Take(BothQueued(), 1);
            && a.ptrs.counts[1] > 0 && Settled(k)
            && Queues(Counted(a, 1, -1), k) && Places(Counted(a, 1, -1), k)
  {
    var k := BothQueued();
    assert w.threads[3] == w.ptrs.current;
    assert Queues(Entered(w, 0, 0), k) && Places(Entered(w, 0, 0), k);
    CountedAgrees(Entered(w, 0, 0), k, 1, -1);
    TakeKeeps(k, 1);
  }

  lemma ThenHandsOver(w: World, k: Core)
    requires Queues(w, k) && Places(w, k) && Settled(k) && k == Take(BothQueued(), 1)
    requires w.cont == [R.Awaiting(0), R.Sending(1), R.Sending(1), R.Receiving(0, 0)] && |w.chans| == 1
    ensures TakesOut(w) && Queues(Drained(w), Woken()) && Places(Drained(w), Woken()) && Settled(Woken())
    ensures Drained(w).cont == [R.Awaiting(0), R.Sending(1), R.Sending(1), R.User]
  {
    assert w.threads[3] == w.ptrs.current;
    var e := Emptied(w, 0);
    assert Queues(e, k) && Places(e, k);
    SignalledAgrees(e, k, 0);
    QueuesLater();
  }

  /** Thread 3 receives the message of thread 0, which hands the token to thread 1. */
  lemma ThenReceives(w: World) returns (w': World)
    requires Queues(w, BothQueued()) && Places(w, BothQueued()) && Settled(BothQueued())
    requires w.cont == [R.Awaiting(0), R.Sending(1), R.Sending(1), R.User] && |w.chans| == 1
    ensures Goes(w, Receive(0, 0, []), w')
    ensures Queues(w', Woken()) && Places(w', Woken()) && Settled(Woken()) && w'.cont == w.cont
  {
    ThenTakes(w);
    var b := Counted(Entered(w, 0, 0), 1, -1);
    ThenHandsOver(b, Take(BothQueued(), 1));
    w' := Drained(b);
  }

  lemma ThenSwitches(w: World) returns (w': World)
    requires Queues(w, Woken()) && Places(w, Woken()) && Settled(Woken())
    requires w.cont == [R.Awaiting(0), R.Sending(1), R.Sending(1), R.User]
    ensures Goes(w, Tick, w')
    ensures Queues(w', Chosen()) && Places(w', Chosen()) && w'.cont == w.cont
  {
    SwitchedAgrees(w, Woken());
    QueuesLater();
    w' := Switched(w);
  }

  lemma StillDisowned(w: World, l: Path, w': World)
    requires Goes(w, l, w') && Unnamed(w, 1) && w.cont == [R.Awaiting(0), R.Sending(1), R.Sending(1), R.User]
    ensures Unnamed(w', 1)
  {
    StepUnnamed(w, l, 1);
  }

  lemma ThenStores(w: World) returns (w': World)
    requires Queues(w, Chosen()) && Unnamed(w, 1) && w.cont == [R.Awaiting(0), R.Sending(1), R.Sending(1), R.User]
    ensures Goes(w, Resume([]), w') && Lost(w', 1)
  {
    QueuedSenderLost(w, Chosen(), []);
    w' := Step(w, Resume([]));
  }

  /** From memory that shows this state, a second send, a receive and a tick later thread 1 stores, and is lost. */
  lemma QueuedSenderIsLost(w: World) returns (w1: World, w2: World, w3: World, w4: World)
    requires R.Protocol(Misuse.Crowded()) && Shows(w, Misuse.Crowded())
    ensures Goes(w, Send(1, [], [1]), w1) && Goes(w1, Receive(0, 0, []), w2) && Goes(w2, Tick, w3)
    ensures Goes(w3, Resume([]), w4) && Lost(w4, 1)
  {
    w1 := SecondQueues(w);
    SecondDisowns(w, w1);
    w2 := ThenReceives(w1);
    StillDisowned(w1, Receive(0, 0, []), w2);
    w3 := ThenSwitches(w2);
    StillDisowned(w2, Tick, w3);
    w4 := ThenStores(w3);
  }
}
