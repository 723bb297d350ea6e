/**
 * Thread queues as values: the ready queue, the semaphore queues and the thread
 * that holds the CPU (kernel/scheduler.c, kernel/semaphore.c, kernel/thread.c).
 *
 * Every function below is what one kernel routine does to the queues.  The pointer
 * code that does the same on the shared `next` field is in module Kernel, which is
 * proved to compute exactly these functions.
 */
module Scheduling {
  import opened Sequences
  import opened Wrappers

  type Tid = nat

  /**
   * The one place where a thread is.  STATE_READY covers both Running and Ready;
   * OnSem is STATE_SEMA on a particular semaphore.
   */
  datatype Where = Running | Ready | OnSem(sem: nat) | OnReply | Dead

  datatype Sem = Sem(count: int, queue: seq<Tid>)

  /** `switches` counts the calls of scheduler_schedule. */
  datatype Core = Core(
    where: seq<Where>,
    sems: seq<Sem>,
    ready: seq<Tid>,
    cur: Option<Tid>,
    switches: nat)

  // ---------- what the routines do ----------

  function Enqueue(k: Core, t: Tid): Core
    requires t < |k.where|
  {
    k.(ready := k.ready + [t], where := k.where[t := Ready])
  }

  /** The part of scheduler_schedule that puts the preempted thread back. */
  function Requeue(k: Core): Core
    requires k.cur.Some? ==> k.cur.value < |k.where|
  {
    if k.cur.Some? && k.where[k.cur.value] == Running then Enqueue(k, k.cur.value) else k
  }

  /** scheduler_dequeue_thread on a non-empty queue: the head is about to run. */
  function Popped(k: Core): Core
    requires k.ready != [] && k.ready[0] < |k.where|
  {
    k.(ready := k.ready[1..], where := k.where[k.ready[0] := Running])
  }

  /** The part of scheduler_schedule that picks the next thread; None stands for the idle thread. */
  function Dispatch(k: Core): Core
    requires k.ready != [] ==> k.ready[0] < |k.where|
  {
    if k.ready == [] then k.(cur := None, switches := k.switches + 1)
    else Popped(k).(cur := Some(k.ready[0]), switches := k.switches + 1)
  }

  function Schedule(k: Core): Core
    requires k.cur.Some? ==> k.cur.value < |k.where|
    requires k.ready != [] ==> k.ready[0] < |k.where|
  {
    Dispatch(Requeue(k))
  }

  /** thread_block on the current thread, then scheduler_switch. */
  function Block(k: Core, w: Where): Core
    requires k.cur.Some? && k.cur.value < |k.where|
    requires k.ready != [] ==> k.ready[0] < |k.where|
  {
    Schedule(k.(where := k.where[k.cur.value := w]))
  }

  /** semaphore_wait takes the count at once, or the caller goes to the tail of the queue and blocks. */
  predicate Free(k: Core, i: nat)
    requires i < |k.sems|
  {
    k.sems[i].count > 0
  }

  function Take(k: Core, i: nat): Core
    requires i < |k.sems|
  {
    k.(sems := k.sems[i := k.sems[i].(count := k.sems[i].count - 1)])
  }

  function Append(k: Core, i: nat): Core
    requires i < |k.sems| && k.cur.Some?
  {
    k.(sems := k.sems[i := k.sems[i].(queue := k.sems[i].queue + [k.cur.value])])
  }

  /** The caller is in the queue of semaphore `i` and marked STATE_SEMA, but still on the CPU. */
  function Park(k: Core, i: nat): Core
    requires i < |k.sems| && k.cur.Some? && k.cur.value < |k.where|
  {
    Append(k, i).(where := k.where[k.cur.value := OnSem(i)])
  }

  function Wait(k: Core, i: nat): Core
    requires i < |k.sems|
    requires k.cur.Some? && k.cur.value < |k.where|
    requires k.ready != [] ==> k.ready[0] < |k.where|
  {
    if Free(k, i) then Take(k, i) else Schedule(Park(k, i))
  }

  function Signal(k: Core, i: nat): Core
    requires i < |k.sems|
    requires k.sems[i].queue != [] ==> k.sems[i].queue[0] < |k.where|
  {
    var s := k.sems[i];
    if s.queue == [] then k.(sems := k.sems[i := s.(count := s.count + 1)])
    else
      Enqueue(k.(sems := k.sems[i := s.(queue := s.queue[1..])]), s.queue[0])
  }

  /** thread_new followed by scheduler_enqueue_thread. */
  function Spawn(k: Core): Core {
    k.(where := k.where + [Ready], ready := k.ready + [|k.where|])
  }

  /** semaphore_init: a semaphore nobody waits on. */
  function NewSem(k: Core, count: int): Core {
    k.(sems := k.sems + [Sem(count, [])])
  }

  const BOOT: Core := Core([], [], [], None, 0)

  // ---------- the invariant ----------

  /** The list that holds the threads whose place is `w`. */
  function Queue(k: Core, w: Where): seq<Tid> {
    match w
    case Ready => k.ready
    case OnSem(i) => if i < |k.sems| then k.sems[i].queue else []
    case _ => []
  }

  predicate Listed(w: Where) { w.Ready? || w.OnSem? }

  /** The list for `w` holds exactly the threads whose place is `w`, each once. */
  ghost predicate Owns(k: Core, w: Where) {
    && Distinct(Queue(k, w))
    && (forall t: Tid :: t in Queue(k, w) ==> t < |k.where| && k.where[t] == w)
    && (forall t: Tid :: t < |k.where| && k.where[t] == w ==> t in Queue(k, w))
  }

  ghost predicate Lists(k: Core) {
    forall w {:trigger Owns(k, w)} :: Listed(w) ==> Owns(k, w)
  }

  ghost predicate Counts(k: Core) {
    forall i :: 0 <= i < |k.sems| ==> k.sems[i].count >= 0 && (k.sems[i].count > 0 ==> k.sems[i].queue == [])
  }

  /** Holds everywhere, also in the middle of a kernel path. */
  ghost predicate Inv(k: Core) {
    && Lists(k)
    && Counts(k)
    && (forall t :: 0 <= t < |k.where| && k.where[t] == Running ==> k.cur == Some(t))
    && (k.cur.Some? ==> k.cur.value < |k.where| && k.where[k.cur.value] != Ready)
  }

  /** Holds between kernel paths: whoever has the CPU is marked Running. */
  ghost predicate Settled(k: Core) {
    && Inv(k)
    && (k.cur.Some? ==> k.where[k.cur.value] == Running)
  }

  lemma ReadyInRange(k: Core)
    requires Inv(k)
    ensures forall t :: t in k.ready ==> t < |k.where| && k.where[t] == Ready
    ensures k.ready != [] ==> k.ready[0] in k.ready
  {
    assert Listed(Ready) && Owns(k, Ready) && Queue(k, Ready) == k.ready;
  }

  lemma WaitersInRange(k: Core, i: nat)
    requires Inv(k) && i < |k.sems|
    ensures forall t :: t in k.sems[i].queue ==> t < |k.where| && k.where[t] == OnSem(i)
    ensures k.sems[i].queue != [] ==> k.sems[i].queue[0] in k.sems[i].queue
  {
    var w := OnSem(i);
    assert Listed(w) && Owns(k, w) && Queue(k, w) == k.sems[i].queue;
  }

  // ---------- every routine keeps it ----------

  /** Moving one unlisted thread to the tail of the list of `w`. */
  lemma AppendOwns(k: Core, k': Core, t: Tid, w: Where)
    requires Lists(k) && t < |k.where| && Listed(w)
    requires !Listed(k.where[t])
    requires k'.where == k.where[t := w]
    requires Queue(k', w) == Queue(k, w) + [t]
    requires forall v :: Listed(v) && v != w ==> Queue(k', v) == Queue(k, v)
    ensures Lists(k')
  {
    forall v | Listed(v) ensures Owns(k', v) {
      assert Owns(k, v);
      if v == w {
        assert t !in Queue(k, w);
        forall u: Tid | u < |k'.where| && k'.where[u] == w ensures u in Queue(k', w) {
          if u != t { assert u in Queue(k, w); }
        }
      }
    }
  }

  /** Taking the head off the list of `w`; its thread gets an unlisted place `x`. */
  lemma PopOwns(k: Core, k': Core, w: Where, x: Where)
    requires Lists(k) && Listed(w) && !Listed(x)
    requires Queue(k, w) != []
    requires Queue(k, w)[0] < |k.where|
    requires k'.where == k.where[Queue(k, w)[0] := x]
    requires Queue(k', w) == Queue(k, w)[1..]
    requires forall v :: Listed(v) && v != w ==> Queue(k', v) == Queue(k, v)
    ensures Lists(k')
  {
    assert Owns(k, w);
    var t := Queue(k, w)[0];
    assert k.where[t] == w;
    assert Queue(k, w) == [t] + Queue(k', w);
    assert t !in Queue(k', w);
    forall v | Listed(v) ensures Owns(k', v) {
      assert Owns(k, v);
      forall u | u in Queue(k', v) ensures u < |k'.where| && k'.where[u] == v {
        assert u in Queue(k, v);
      }
    }
  }

  /** A place that has no list may be exchanged for another such place. */
  lemma RelabelOwns(k: Core, k': Core, t: Tid, x: Where)
    requires Lists(k) && t < |k.where| && !Listed(x) && !Listed(k.where[t])
    requires k'.where == k.where[t := x]
    requires forall v :: Listed(v) ==> Queue(k', v) == Queue(k, v)
    ensures Lists(k')
  {
    forall v | Listed(v) ensures Owns(k', v) {
      assert Owns(k, v);
    }
  }

  lemma EnqueueKeeps(k: Core, t: Tid)
    requires Inv(k) && t < |k.where| && !Listed(k.where[t])
    requires k.cur == Some(t) ==> k.where[t] == Running
    ensures Lists(Enqueue(k, t)) && Counts(Enqueue(k, t))
    ensures k.cur != Some(t) ==> Inv(Enqueue(k, t))
  {
    AppendOwns(k, Enqueue(k, t), t, Ready);
  }

  lemma SameQueues(k: Core, k': Core)
    requires Lists(k) && k'.where == k.where && k'.ready == k.ready
    requires forall v :: Listed(v) ==> Queue(k', v) == Queue(k, v)
    ensures Lists(k')
  {
    forall v | Listed(v) ensures Owns(k', v) {
      assert Owns(k, v);
    }
  }

  lemma ScheduleKeeps(k: Core)
    requires Inv(k)
    ensures k.ready != [] ==> k.ready[0] < |k.where|
    ensures Settled(Schedule(k))
  {
    ReadyInRange(k);
    var q := Requeue(k);
    if q != k { EnqueueKeeps(k, k.cur.value); }
    assert Lists(q) && Counts(q);
    assert forall t :: 0 <= t < |q.where| ==> q.where[t] != Running;
    assert Listed(Ready) && Owns(q, Ready);
    if q.ready != [] {
      assert q.ready[0] in Queue(q, Ready);
      PopOwns(q, Schedule(k), Ready, Running);
    } else {
      SameQueues(q, Schedule(k));
    }
  }

  lemma BlockKeeps(k: Core, w: Where)
    requires Settled(k) && k.cur.Some? && !Listed(w) && w != Running
    ensures k.ready != [] ==> k.ready[0] < |k.where|
    ensures Settled(Block(k, w))
  {
    ReadyInRange(k);
    var k' := k.(where := k.where[k.cur.value := w]);
    RelabelOwns(k, k', k.cur.value, w);
    ScheduleKeeps(k');
  }

  lemma TakeKeeps(k: Core, i: nat)
    requires Settled(k) && i < |k.sems| && Free(k, i)
    ensures Settled(Take(k, i))
  {
    SameQueues(k, Take(k, i));
  }

  lemma ParkKeeps(k: Core, i: nat)
    requires Settled(k) && k.cur.Some? && i < |k.sems| && !Free(k, i)
    ensures Inv(Park(k, i))
  {
    AppendOwns(k, Park(k, i), k.cur.value, OnSem(i));
  }

  lemma WaitKeeps(k: Core, i: nat)
    requires Settled(k) && k.cur.Some? && i < |k.sems|
    ensures k.ready != [] ==> k.ready[0] < |k.where|
    ensures Settled(Wait(k, i))
  {
    ReadyInRange(k);
    if Free(k, i) {
      TakeKeeps(k, i);
    } else {
      ParkKeeps(k, i);
      ScheduleKeeps(Park(k, i));
    }
  }

  lemma SignalKeeps(k: Core, i: nat)
    requires Settled(k) && i < |k.sems|
    ensures k.sems[i].queue != [] ==> k.sems[i].queue[0] < |k.where|
    ensures Settled(Signal(k, i))
  {
    WaitersInRange(k, i);
    var s := k.sems[i];
    if s.queue == [] {
      SameQueues(k, Signal(k, i));
    } else {
      var t := s.queue[0];
      assert t in s.queue;
      var k' := k.(sems := k.sems[i := s.(queue := s.queue[1..])], where := k.where[t := OnReply]);
      PopOwns(k, k', OnSem(i), OnReply);
      AppendOwns(k', Signal(k, i), t, Ready);
    }
  }

  lemma UnblockKeeps(k: Core, t: Tid)
    requires Settled(k) && t < |k.where| && k.where[t] == OnReply
    ensures Settled(Enqueue(k, t))
  {
    EnqueueKeeps(k, t);
  }

  /** A thread that exists but is in no list yet. */
  function Newborn(k: Core): Core {
    k.(where := k.where + [OnReply])
  }

  lemma NewbornOwns(k: Core)
    requires Lists(k)
    ensures Lists(Newborn(k))
  {
    forall v | Listed(v) ensures Owns(Newborn(k), v) {
      assert Owns(k, v);
    }
  }

  lemma SpawnKeeps(k: Core)
    requires Settled(k)
    ensures Settled(Spawn(k))
  {
    NewbornOwns(k);
    AppendOwns(Newborn(k), Spawn(k), |k.where|, Ready);
  }

  lemma NewSemKeeps(k: Core, count: int)
    requires Settled(k) && count >= 0
    ensures Settled(NewSem(k, count))
  {
    SameQueues(k, NewSem(k, count));
  }

  lemma BootSettled()
    ensures Settled(BOOT)
  {
  }

  // ---------- who is parked where ----------

  /** The place of a thread, not distinguishing Running from Ready. */
  function Still(w: Where): Where {
    if w == Running then Ready else w
  }

  function Stills(k: Core): seq<Where> {
    seq(|k.where|, (t: nat) requires t < |k.where| => Still(k.where[t]))
  }

  /** scheduler_schedule moves nobody in or out of the semaphores, the reply set or the dead. */
  lemma ScheduleStill(k: Core)
    requires Inv(k)
    ensures k.ready != [] ==> k.ready[0] < |k.where|
    ensures Stills(Schedule(k)) == Stills(k) && Schedule(k).sems == k.sems
  {
    ReadyInRange(k);
    assert Listed(Ready) && Owns(Requeue(k), Ready) by {
      if Requeue(k) != k { EnqueueKeeps(k, k.cur.value); }
    }
    var q := Requeue(k);
    if q.ready != [] {
      assert q.ready[0] in Queue(q, Ready);
    }
  }

  lemma BlockStill(k: Core, w: Where)
    requires Settled(k) && k.cur.Some? && !Listed(w) && w != Running
    ensures k.ready != [] ==> k.ready[0] < |k.where|
    ensures Stills(Block(k, w)) == Stills(k)[k.cur.value := w] && Block(k, w).sems == k.sems
  {
    ReadyInRange(k);
    var k' := k.(where := k.where[k.cur.value := w]);
    RelabelOwns(k, k', k.cur.value, w);
    ScheduleStill(k');
  }

  lemma WaitStill(k: Core, i: nat)
    requires Settled(k) && k.cur.Some? && i < |k.sems| && !Free(k, i)
    ensures k.ready != [] ==> k.ready[0] < |k.where|
    ensures Stills(Wait(k, i)) == Stills(k)[k.cur.value := OnSem(i)]
    ensures Wait(k, i).sems == Append(k, i).sems
  {
    ReadyInRange(k);
    ParkKeeps(k, i);
    ScheduleStill(Park(k, i));
  }

  // ---------- properties of scheduler_schedule ----------

  /** No thread is in STATE_READY. */
  ghost predicate Starved(k: Core) {
    forall t :: 0 <= t < |k.where| ==> Still(k.where[t]) != Ready
  }

  /** The idle registers are returned exactly when no thread could run. */
  lemma WorkConservation(k: Core)
    requires Inv(k)
    ensures k.ready != [] ==> k.ready[0] < |k.where|
    ensures Schedule(k).cur == None <==> Starved(k)
  {
    ReadyInRange(k);
    assert Listed(Ready) && Owns(k, Ready);
    if k.ready != [] {
      assert k.ready[0] in k.ready;
      assert Still(k.where[k.ready[0]]) == Ready;
    }
  }

  /**
   * What a kernel path does to waiting threads: without a call of scheduler_schedule all
   * keep their positions, with one call all move up and the first gets the CPU.
   */
  ghost predicate Shifts(k: Core, k': Core) {
    && k.switches <= k'.switches <= k.switches + 1
    && (k'.switches == k.switches ==> k.ready <= k'.ready)
    && (k'.switches > k.switches && k.ready != [] ==> k'.cur == Some(k.ready[0]) && k.ready[1..] <= k'.ready)
  }

  lemma ScheduleShifts(k: Core)
    requires Inv(k)
    ensures k.ready != [] ==> k.ready[0] < |k.where|
    ensures Shifts(k, Schedule(k))
    ensures Schedule(k).cur == None ==> Schedule(k).ready == []
  {
    ReadyInRange(k);
  }

  lemma BlockShifts(k: Core, w: Where)
    requires Settled(k) && k.cur.Some? && !Listed(w) && w != Running
    ensures k.ready != [] ==> k.ready[0] < |k.where|
    ensures Shifts(k, Block(k, w)) && Block(k, w).switches == k.switches + 1
    ensures Block(k, w).cur == None ==> Block(k, w).ready == []
  {
    var k' := k.(where := k.where[k.cur.value := w]);
    RelabelOwns(k, k', k.cur.value, w);
    ScheduleShifts(k');
  }

  lemma WaitShifts(k: Core, i: nat)
    requires Settled(k) && k.cur.Some? && i < |k.sems| && !Free(k, i)
    ensures k.ready != [] ==> k.ready[0] < |k.where|
    ensures Shifts(k, Wait(k, i)) && Wait(k, i).switches == k.switches + 1
    ensures Wait(k, i).cur == None ==> Wait(k, i).ready == []
  {
    ParkKeeps(k, i);
    ScheduleShifts(Park(k, i));
  }

  lemma {:induction false} OnceIn(q: seq<Tid>, t: Tid)
    requires Distinct(q)
    ensures multiset(q)[t] == if t in q then 1 else 0
  {
    if q != [] {
      OnceIn(q[1..], t);
      assert q == [q[0]] + q[1..];
    }
  }

  /**
   * Every thread is in exactly one place, the one its state names: it has the CPU, or it
   * is once in the ready queue, or once in one semaphore queue; and the lists hold
   * nobody else.
   */
  lemma OnePlace(k: Core, t: Tid)
    requires Settled(k) && t < |k.where|
    ensures k.cur == Some(t) <==> k.where[t] == Running
    ensures multiset(k.ready)[t] == if k.where[t] == Ready then 1 else 0
    ensures forall i: nat :: i < |k.sems| ==> multiset(k.sems[i].queue)[t] == if k.where[t] == OnSem(i) then 1 else 0
  {
    ReadyInRange(k);
    assert Listed(Ready) && Owns(k, Ready) && Queue(k, Ready) == k.ready;
    OnceIn(k.ready, t);
    forall i: nat | i < |k.sems|
      ensures multiset(k.sems[i].queue)[t] == if k.where[t] == OnSem(i) then 1 else 0
    {
      var w := OnSem(i);
      assert Listed(w) && Owns(k, w) && Queue(k, w) == k.sems[i].queue;
      OnceIn(k.sems[i].queue, t);
    }
  }

  /** A thread at position `p` gets the CPU at call number p + 1, whatever happens in between. */
  lemma {:induction false} GetsItsTurn(ks: seq<Core>, n: nat, p: nat)
    requires n < |ks| && p < |ks[0].ready|
    requires forall i :: 0 <= i < |ks| - 1 ==> Shifts(ks[i], ks[i + 1])
    ensures var d := ks[n].switches - ks[0].switches;
            && d >= 0
            && (d <= p ==> p - d < |ks[n].ready| && ks[n].ready[p - d] == ks[0].ready[p])
            && (d == p + 1 && ks[n].switches > ks[n - 1].switches ==> ks[n].cur == Some(ks[0].ready[p]))
  {
    if n > 0 {
      GetsItsTurn(ks, n - 1, p);
      var k, k' := ks[n - 1], ks[n];
      assert Shifts(k, k');
      var q := p - (k.switches - ks[0].switches);
      if q > 0 && k'.switches > k.switches { assert k.ready[1..][q - 1] == k.ready[q]; }
    }
  }
}
