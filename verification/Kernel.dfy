/**
 * The pointer code behind module Scheduling: kernel/thread.c, kernel/scheduler.c and
 * kernel/semaphore.c.  All queues are threaded through the one field `next`, and every
 * method is proved to do to the queues exactly what the function of the same name does.
 */
module Kernel {
  import opened Wrappers
  import opened Scheduling
  import opened Sequences

  datatype ThreadState = StateReady | StateWait | StateReply | StateSema | StateDead

  /** The `state` field that belongs to a place. */
  function StateOf(w: Where): ThreadState {
    match w
    case Running => StateReady
    case Ready => StateReady
    case OnSem(_) => StateSema
    case OnReply => StateReply
    case Dead => StateDead
  }

  /** The thread control block; `tid` is its position in the kernel's list of threads. */
  class Thread {
    ghost const tid: Tid
    var state: ThreadState
    var next: Thread?

    /** thread_new. */
    constructor (ghost tid: Tid)
      ensures this.tid == tid && state == StateReady && next == null
    {
      this.tid := tid;
      state := StateReady;
      next := null;
    }
  }

  class Semaphore {
    var count: int
    var queue: Thread?

    /** semaphore_init. */
    constructor (count: int)
      ensures this.count == count && queue == null
    {
      this.count := count;
      queue := null;
    }
  }

  // ---------- linked lists ----------

  /** A snapshot of all `next` fields: links[i] is the field of threads[i]. */
  type Links = seq<Thread?>

  /** The thread at position `i` of a queue; null behind its end. */
  function Nth(threads: seq<Thread>, q: seq<Tid>, i: nat): Thread? {
    if i < |q| && q[i] < |threads| then threads[q[i]] else null
  }

  /** The list that starts at `first` and follows the links visits exactly the threads of `q`, in order, and ends. */
  ghost predicate Linked(threads: seq<Thread>, links: Links, first: Thread?, q: seq<Tid>)
    requires |links| == |threads|
  {
    && (forall i :: 0 <= i < |q| ==> q[i] < |threads|)
    && first == Nth(threads, q, 0)
    && (forall i {:trigger links[q[i]]} :: 0 <= i < |q| ==> links[q[i]] == Nth(threads, q, i + 1))
  }

  /** A list none of whose threads is touched. */
  lemma LinkedSame(threads: seq<Thread>, links: Links, links': Links, first: Thread?, q: seq<Tid>)
    requires |links'| == |links| == |threads| && Linked(threads, links, first, q)
    requires forall t :: t in q && t < |links| ==> links'[t] == links[t]
    ensures Linked(threads, links', first, q)
  {
    forall i | 0 <= i < |q| ensures links'[q[i]] == links[q[i]] { assert q[i] in q; }
  }

  /** Appending `t` behind the last thread of a list. */
  lemma LinkedAppend(threads: seq<Thread>, links: Links, first: Thread?, q: seq<Tid>, t: Tid)
    requires |links| == |threads| && t < |threads| && Linked(threads, links, first, q) && Distinct(q) && t !in q
    ensures var l := links[t := null];
            var l' := if q == [] then l else l[q[|q| - 1] := threads[t]];
            Linked(threads, l', if q == [] then threads[t] else first, q + [t])
  {
    var l := links[t := null];
    var l' := if q == [] then l else l[q[|q| - 1] := threads[t]];
    var r := q + [t];
    forall i | 0 <= i < |r| ensures l'[r[i]] == Nth(threads, r, i + 1) {
      if i < |q| { assert q[i] in q; }
    }
  }

  /** The rest of a list is a list. */
  lemma LinkedTail(threads: seq<Thread>, links: Links, first: Thread?, q: seq<Tid>)
    requires |links| == |threads| && Linked(threads, links, first, q) && q != []
    ensures q[0] < |threads| && Linked(threads, links, links[q[0]], q[1..])
  {
    var r := q[1..];
    forall i | 0 <= i < |r| ensures r[i] < |threads| && links[r[i]] == Nth(threads, r, i + 1) {
      assert r[i] == q[i + 1];
    }
  }

  /** All pointers of the kernel at one moment. */
  datatype Pointers = Pointers(
    current: Thread?,
    head: Thread?,
    tail: Thread?,
    links: Links,
    queues: seq<Thread?>,   // sem->queue of each semaphore
    counts: seq<int>)       // sem->count of each semaphore

  /** The pointers are the queues of `k`. */
  ghost predicate Represents(threads: seq<Thread>, p: Pointers, k: Core) {
    && |threads| == |k.where| == |p.links|
    && (k.cur.Some? ==> k.cur.value < |threads|)
    && p.current == (if k.cur.Some? then threads[k.cur.value] else null)
    && Linked(threads, p.links, p.head, k.ready)
    && p.tail == (if k.ready == [] then null else threads[k.ready[|k.ready| - 1]])
    && |p.queues| == |p.counts| == |k.sems|
    && (forall i :: 0 <= i < |k.sems| ==> p.counts[i] == k.sems[i].count)
    && (forall i :: 0 <= i < |k.sems| ==> Linked(threads, p.links, p.queues[i], k.sems[i].queue))
  }

  /** New links that leave the threads on the list of `w` alone. */
  lemma ListKept(threads: seq<Thread>, p: Pointers, k: Core, links: Links, w: Where, first: Thread?)
    requires Lists(k) && Listed(w) && |links| == |p.links| == |threads| == |k.where|
    requires Linked(threads, p.links, first, Queue(k, w))
    requires forall t: Tid :: t < |threads| && k.where[t] == w ==> links[t] == p.links[t]
    ensures Linked(threads, links, first, Queue(k, w))
  {
    assert Owns(k, w);
    LinkedSame(threads, p.links, links, first, Queue(k, w));
  }

  lemma WaitersKept(threads: seq<Thread>, p: Pointers, k: Core, links: Links)
    requires Represents(threads, p, k) && Lists(k) && |links| == |threads|
    requires forall t: Tid :: t < |threads| && k.where[t].OnSem? ==> links[t] == p.links[t]
    ensures forall i :: 0 <= i < |k.sems| ==> Linked(threads, links, p.queues[i], k.sems[i].queue)
  {
    forall i: nat | i < |k.sems| ensures Linked(threads, links, p.queues[i], k.sems[i].queue) {
      ListKept(threads, p, k, links, OnSem(i), p.queues[i]);
    }
  }

  /** The links after `t` was put behind the last thread of `q`. */
  function LinkBehind(threads: seq<Thread>, links: Links, q: seq<Tid>, t: Tid): Links
    requires t < |threads| == |links| && (q != [] ==> q[|q| - 1] < |links|)
  {
    var l := links[t := null];
    if q == [] then l else l[q[|q| - 1] := threads[t]]
  }

  ghost predicate Numbered(threads: seq<Thread>) {
    forall i :: 0 <= i < |threads| ==> threads[i].tid == i
  }

  /** The object that pointer `x` names is one of `threads`, or the pointer is null. */
  ghost predicate Known(threads: seq<Thread>, x: Thread?) {
    x != null ==> x.tid < |threads| && threads[x.tid] == x
  }

  // What each routine writes, whatever the pointers are: lists need not end, and may share their threads.

  /** scheduler_enqueue_thread. */
  ghost function Enqueued(threads: seq<Thread>, p: Pointers, t: Tid): Pointers
    requires t < |threads| == |p.links| && Known(threads, p.tail)
  {
    var l := p.links[t := null];
    p.(links := if p.tail == null then l else l[p.tail.tid := threads[t]],
       head := if p.tail == null && p.head == null then threads[t] else p.head,
       tail := threads[t])
  }

  /** scheduler_dequeue_thread. */
  ghost function Dequeued(threads: seq<Thread>, p: Pointers): Pointers
    requires |threads| == |p.links| && Known(threads, p.head)
  {
    if p.head == null then p
    else
      var h := p.links[p.head.tid];
      p.(head := h, tail := if h == null then null else p.tail)
  }

  /** semaphore_wait puts thread `t` behind the list `q` of semaphore `i`. */
  ghost function Attached(threads: seq<Thread>, p: Pointers, i: nat, q: seq<Tid>, t: Tid): Pointers
    requires t < |threads| == |p.links| && i < |p.queues| && (q != [] ==> q[|q| - 1] < |threads|)
  {
    p.(queues := if q == [] then p.queues[i := threads[t]] else p.queues, links := LinkBehind(threads, p.links, q, t))
  }

  /** semaphore_signal takes the head off the list of semaphore `i`. */
  ghost function Detached(threads: seq<Thread>, p: Pointers, i: nat): Pointers
    requires |threads| == |p.links| && i < |p.queues| && p.queues[i] != null && Known(threads, p.queues[i])
  {
    p.(queues := p.queues[i := p.links[p.queues[i].tid]])
  }

  lemma EnqueueRepresents(threads: seq<Thread>, p: Pointers, k: Core, t: Tid) returns (p': Pointers, k': Core)
    requires Represents(threads, p, k) && Lists(k) && t < |threads| && !Listed(k.where[t]) && Numbered(threads)
    ensures k' == Enqueue(k, t)
    ensures Known(threads, p.tail) && p' == Enqueued(threads, p, t)
    ensures Represents(threads, p', k') && Lists(k')
  {
    assert Listed(Ready) && Owns(k, Ready) && Queue(k, Ready) == k.ready;
    if k.ready != [] { assert k.ready[|k.ready| - 1] in k.ready; }
    LinkedAppend(threads, p.links, p.head, k.ready, t);
    p' := p.(head := if k.ready == [] then threads[t] else p.head, tail := threads[t],
             links := LinkBehind(threads, p.links, k.ready, t));
    WaitersKept(threads, p, k, p'.links);
    k' := Enqueue(k, t);
    AppendOwns(k, k', t, Ready);
  }

  lemma DequeueRepresents(threads: seq<Thread>, p: Pointers, k: Core) returns (p': Pointers, k': Core)
    requires Represents(threads, p, k) && Lists(k) && k.ready != [] && Numbered(threads)
    ensures k.ready[0] < |threads| && k.where[k.ready[0]] == Ready
    ensures k' == Popped(k)
    ensures p.head == threads[k.ready[0]] && Known(threads, p.head) && p' == Dequeued(threads, p)
    ensures Represents(threads, p', k') && Lists(k')
  {
    LinkedTail(threads, p.links, p.head, k.ready);
    assert Listed(Ready) && Owns(k, Ready) && Queue(k, Ready) == k.ready && k.ready[0] in k.ready;
    var h := p.links[k.ready[0]];
    p', k' := p.(head := h, tail := if h == null then null else p.tail), Popped(k);
    PopOwns(k, k', Ready, Running);
  }

  /** The links and queue heads after thread `t` went behind the queue of semaphore `i`. */
  lemma WaitLinks(threads: seq<Thread>, p: Pointers, k: Core, i: nat, t: Tid) returns (l: Links, first: Thread?)
    requires Represents(threads, p, k) && Lists(k) && i < |k.sems| && t < |threads| && !Listed(k.where[t])
    ensures var q := k.sems[i].queue;
            && (q != [] ==> q[|q| - 1] < |threads|)
            && l == LinkBehind(threads, p.links, q, t)
            && first == (if q == [] then threads[t] else p.queues[i])
            && Linked(threads, l, first, q + [t])
    ensures Linked(threads, l, p.head, k.ready)
    ensures forall j :: 0 <= j < |k.sems| && j != i ==> Linked(threads, l, p.queues[j], k.sems[j].queue)
  {
    var w, q := OnSem(i), k.sems[i].queue;
    assert Listed(w) && Owns(k, w) && Queue(k, w) == q;
    if q != [] { assert q[|q| - 1] in q; }
    l, first := LinkBehind(threads, p.links, q, t), if q == [] then threads[t] else p.queues[i];
    LinkedAppend(threads, p.links, p.queues[i], q, t);
    ListKept(threads, p, k, l, Ready, p.head);
    forall j: nat | j < |k.sems| && j != i ensures Linked(threads, l, p.queues[j], k.sems[j].queue) {
      ListKept(threads, p, k, l, OnSem(j), p.queues[j]);
    }
  }

  /** semaphore_wait with no count left: the current thread goes behind the queue of semaphore `i`. */
  lemma WaitRepresents(threads: seq<Thread>, p: Pointers, k: Core, i: nat) returns (p': Pointers, k': Core)
    requires Represents(threads, p, k) && Lists(k) && i < |k.sems| && !Free(k, i)
    requires k.cur.Some? && !Listed(k.where[k.cur.value])
    ensures k' == Park(k, i)
    ensures var q, t := k.sems[i].queue, k.cur.value;
            && (q != [] ==> q[|q| - 1] < |threads|)
            && Linked(threads, p.links[t := null], p.queues[i], q)
            && p' == Attached(threads, p, i, q, t)
    ensures Represents(threads, p', k') && Lists(k')
  {
    var t := k.cur.value;
    var l, first := WaitLinks(threads, p, k, i, t);
    p', k' := p.(queues := p.queues[i := first], links := l), Park(k, i);
    assert p'.queues == if k.sems[i].queue == [] then p.queues[i := threads[t]] else p.queues;
    ListKept(threads, p, k, p.links[t := null], OnSem(i), p.queues[i]);
    AppendOwns(k, k', t, OnSem(i));
  }

  /** The queue of semaphore `i` without its head, which is in no list for a moment. */
  function Granted(k: Core, i: nat): Core
    requires i < |k.sems| && k.sems[i].queue != [] && k.sems[i].queue[0] < |k.where|
  {
    k.(sems := k.sems[i := k.sems[i].(queue := k.sems[i].queue[1..])],
       where := k.where[k.sems[i].queue[0] := OnReply])
  }

  lemma GrantRepresents(threads: seq<Thread>, p: Pointers, k: Core, i: nat) returns (p': Pointers, k': Core)
    requires Represents(threads, p, k) && Lists(k) && i < |k.sems| && k.sems[i].queue != [] && Numbered(threads)
    ensures k.sems[i].queue[0] < |threads|
    ensures k' == Granted(k, i)
    ensures p.queues[i] == threads[k.sems[i].queue[0]] && p' == Detached(threads, p, i)
    ensures Represents(threads, p', k') && Lists(k')
  {
    var w, q := OnSem(i), k.sems[i].queue;
    assert Listed(w) && Owns(k, w) && Queue(k, w) == q && q[0] in q;
    LinkedTail(threads, p.links, p.queues[i], q);
    p' := p.(queues := p.queues[i := p.links[q[0]]]);
    k' := Granted(k, i);
    PopOwns(k, k', w, OnReply);
  }

  lemma LinkedMore(threads: seq<Thread>, links: Links, t: Thread, first: Thread?, q: seq<Tid>)
    requires |links| == |threads| && Linked(threads, links, first, q)
    ensures Linked(threads + [t], links + [null], first, q)
  {
    var ts, ls := threads + [t], links + [null];
    forall i | 0 <= i < |q| ensures ls[q[i]] == Nth(ts, q, i + 1) {
      assert links[q[i]] == Nth(threads, q, i + 1);
    }
  }

  /** One more thread, one more semaphore: the lists stay as they are. */
  lemma NewbornRepresents(threads: seq<Thread>, p: Pointers, k: Core, t: Thread) returns (p': Pointers, k': Core)
    requires Represents(threads, p, k) && Lists(k)
    ensures k' == Newborn(k) && p' == p.(links := p.links + [null])
    ensures Represents(threads + [t], p', k') && Lists(k')
  {
    p', k' := p.(links := p.links + [null]), Newborn(k);
    LinkedMore(threads, p.links, t, p.head, k.ready);
    forall i | 0 <= i < |k.sems| ensures Linked(threads + [t], p'.links, p.queues[i], k.sems[i].queue) {
      LinkedMore(threads, p.links, t, p.queues[i], k.sems[i].queue);
    }
    NewbornOwns(k);
  }

  lemma NewSemRepresents(threads: seq<Thread>, p: Pointers, k: Core, count: int) returns (p': Pointers, k': Core)
    requires Represents(threads, p, k) && Lists(k)
    ensures k' == NewSem(k, count) && p' == p.(queues := p.queues + [null], counts := p.counts + [count])
    ensures Represents(threads, p', k') && Lists(k')
  {
    p', k' := p.(queues := p.queues + [null], counts := p.counts + [count]), NewSem(k, count);
    SameQueues(k, k');
  }

  class Machine {
    var current: Thread?
    var head: Thread?
    var tail: Thread?

    ghost var threads: seq<Thread>
    ghost var sems: seq<Semaphore>
    ghost var ptrs: Pointers
    ghost var core: Core
    ghost var Repr: set<object>   // the kernel's own objects

    /** `ptrs` shows the memory. */
    ghost predicate InMemory()
      reads this, Repr
    {
      && this in Repr && (forall i :: 0 <= i < |sems| ==> sems[i] in Repr)
      && (forall i {:trigger threads[i]} :: 0 <= i < |threads| ==> threads[i] in Repr)
      && current == ptrs.current && head == ptrs.head && tail == ptrs.tail
      && |ptrs.links| == |threads| && |ptrs.queues| == |ptrs.counts| == |sems|
      && Numbered(threads)
      && (forall i {:trigger threads[i].next} :: 0 <= i < |threads| ==> threads[i].next == ptrs.links[i])
      && (forall i, j :: 0 <= i < j < |sems| ==> sems[i] != sems[j])
      && (forall i :: 0 <= i < |sems| ==> sems[i].queue == ptrs.queues[i] && sems[i].count == ptrs.counts[i])
    }

    /** Everything but the `state` field of `x`. */
    ghost predicate ValidBut(x: Thread?)
      reads this, Repr
    {
      && InMemory() && Represents(threads, ptrs, core) && Lists(core)
      && (forall i :: 0 <= i < |threads| && threads[i] != x ==> threads[i].state == StateOf(core.where[i]))
    }

    ghost predicate Valid()
      reads this, Repr
    {
      ValidBut(null)
    }

    constructor ()
      ensures Valid() && core == BOOT && threads == [] && sems == [] && Repr == {this}
    {
      current, head, tail := null, null, null;
      threads, sems := [], [];
      ptrs := Pointers(null, null, null, [], [], []);
      core := BOOT;
      Repr := {this};
      new;
      BootSettled();
    }

    /** No object was added. */
    ghost predicate Same(ts: seq<Thread>, ss: seq<Semaphore>, r: set<object>)
      reads this
    {
      threads == ts && sems == ss && Repr == r
    }

    ghost predicate Owned(t: Thread)
      reads this
    {
      t.tid < |threads| && threads[t.tid] == t
    }

    // The routines that write pointers, on memory of any shape.

    /** scheduler_enqueue_thread. */
    method Link(t: Thread)
      requires InMemory() && Owned(t) && Known(threads, tail)
      modifies Repr
      ensures Same(old(threads), old(sems), old(Repr)) && core == old(core)
      ensures forall x: Thread :: x in threads ==> x.state == old(x.state)
      ensures InMemory() && ptrs == Enqueued(threads, old(ptrs), t.tid)
    {
      t.next := null;
      if tail != null {
        tail.next := t;
      } else if head == null {
        head := t;
      }
      ptrs := Enqueued(threads, ptrs, t.tid);
      tail := t;
    }

    /** scheduler_dequeue_thread. */
    method Unlink() returns (t: Thread?)
      requires InMemory() && Known(threads, head)
      modifies Repr
      ensures Same(old(threads), old(sems), old(Repr)) && core == old(core)
      ensures forall x: Thread :: x in threads ==> x.state == old(x.state)
      ensures InMemory() && t == old(head) && ptrs == Dequeued(threads, old(ptrs))
    {
      t := head;
      if t != null {
        head := head.next;
        if head == null { tail := null; }
        ptrs := Dequeued(threads, ptrs);
      }
    }

    /** The thread at the end of a semaphore queue, found by following `next`; null for an empty queue. */
    method Last(first: Thread?, ghost q: seq<Tid>) returns (last: Thread?)
      requires InMemory() && Linked(threads, ptrs.links, first, q)
      ensures last == if q == [] then null else threads[q[|q| - 1]]
    {
      last := first;
      if last != null {
        ghost var n := 0;
        while last.next != null
          invariant n < |q| && last == threads[q[n]]
          decreases |q| - n
        {
          last := last.next;
          n := n + 1;
        }
      }
    }

    method ClearNext(t: Thread)
      requires InMemory() && Owned(t)
      modifies Repr
      ensures Same(old(threads), old(sems), old(Repr)) && core == old(core)
      ensures forall x: Thread :: x in threads ==> x.state == old(x.state)
      ensures InMemory() && ptrs == old(ptrs).(links := old(ptrs).links[t.tid := null])
    {
      t.next := null;
      ptrs := ptrs.(links := ptrs.links[t.tid := null]);
    }

    /** The part of semaphore_wait that puts the current thread behind the list `q` of `sem`. */
    method Attach(sem: Semaphore, ghost i: nat, ghost q: seq<Tid>, ghost t: Tid)
      requires InMemory() && i < |sems| && sems[i] == sem && t < |threads| && current == threads[t]
      requires Linked(threads, ptrs.links[t := null], ptrs.queues[i], q)
      modifies Repr
      ensures Same(old(threads), old(sems), old(Repr)) && core == old(core)
      ensures forall x: Thread :: x in threads ==> x.state == old(x.state)
      ensures InMemory() && ptrs == Attached(threads, old(ptrs), i, q, t)
    {
      ClearNext(current);
      var last := Last(sem.queue, q);
      if last == null {
        sem.queue := current;
      } else {
        last.next := current;
      }
      ptrs := Attached(threads, old(ptrs), i, q, t);
    }

    /** The part of semaphore_signal that takes the head off the list of `sem`. */
    method Detach(sem: Semaphore, ghost i: nat)
      requires InMemory() && i < |sems| && sems[i] == sem && sem.queue != null && Known(threads, sem.queue)
      modifies Repr
      ensures Same(old(threads), old(sems), old(Repr)) && core == old(core)
      ensures forall x: Thread :: x in threads ==> x.state == old(x.state)
      ensures InMemory() && ptrs == Detached(threads, old(ptrs), i)
    {
      ptrs := Detached(threads, ptrs, i);
      sem.queue := sem.queue.next;
    }

    // The same routines in a kernel whose lists are in order.

    /** scheduler_enqueue_thread, for a thread that is in no list. */
    method Enqueue(t: Thread)
      requires ValidBut(t) && Owned(t) && !Listed(core.where[t.tid]) && t.state == StateReady
      modifies Repr
      ensures Same(old(threads), old(sems), old(Repr))
      ensures Valid()
      ensures core == Scheduling.Enqueue(old(core), t.tid)
    {
      ghost var p, k := EnqueueRepresents(threads, ptrs, core, t.tid);
      Link(t);
      core := k;
    }

    /** scheduler_dequeue_thread: the head of the ready queue, or null. */
    method Dequeue() returns (t: Thread?)
      requires Valid()
      modifies Repr
      ensures Same(old(threads), old(sems), old(Repr))
      ensures Valid()
      ensures t == if old(core).ready == [] then null else threads[old(core).ready[0]]
      ensures core == if old(core).ready == [] then old(core) else Popped(old(core))
    {
      ghost var k := core;
      if core.ready != [] {
        ghost var p;
        p, k := DequeueRepresents(threads, ptrs, core);
      }
      t := Unlink();
      core := k;
    }

    /** The second half of scheduler_schedule: the head of the ready queue gets the CPU. */
    method Dispatch()
      requires Valid()
      modifies Repr
      ensures Same(old(threads), old(sems), old(Repr))
      ensures Valid()
      ensures old(core).ready != [] ==> old(core).ready[0] < |old(core).where|
      ensures core == Scheduling.Dispatch(old(core))
    {
      current := Dequeue();
      ghost var k := core;
      core := k.(cur := if current == null then None else Some(current.tid), switches := k.switches + 1);
      ptrs := ptrs.(current := current);
      SameQueues(k, core);
    }

    /** scheduler_schedule: requeue the current thread if it can still run, then take the head. */
    method Schedule()
      requires Valid() && Inv(core)
      modifies Repr
      ensures Same(old(threads), old(sems), old(Repr))
      ensures Valid()
      ensures old(core).ready != [] ==> old(core).ready[0] < |old(core).where|
      ensures core == Scheduling.Schedule(old(core))
    {
      ReadyInRange(core);
      if current != null && current.state == StateReady {
        Enqueue(current);
      }
      Dispatch();
    }

    /** thread_block and scheduler_switch. */
    method Block(state: ThreadState, ghost w: Where)
      requires Valid() && Settled(core) && core.cur.Some?
      requires !Listed(w) && w != Running && state == StateOf(w)
      modifies Repr
      ensures Same(old(threads), old(sems), old(Repr))
      ensures Valid()
      ensures old(core).ready != [] ==> old(core).ready[0] < |old(core).where|
      ensures core == Scheduling.Block(old(core), w)
    {
      current.state := state;
      ghost var k := core;
      core := core.(where := core.where[core.cur.value := w]);
      RelabelOwns(k, core, k.cur.value, w);
      Schedule();
    }

    /** thread_unblock. */
    method Unblock(t: Thread)
      requires ValidBut(t) && Owned(t) && !Listed(core.where[t.tid])
      modifies Repr
      ensures Same(old(threads), old(sems), old(Repr))
      ensures Valid()
      ensures core == Scheduling.Enqueue(old(core), t.tid)
    {
      t.state := StateReady;
      Enqueue(t);
    }

    /** The current thread goes behind the last waiting thread of `sem`. */
    method Append(sem: Semaphore, ghost i: nat)
      requires Valid() && core.cur.Some? && !Listed(core.where[core.cur.value])
      requires i < |sems| && sems[i] == sem && !Free(core, i)
      modifies Repr
      ensures Same(old(threads), old(sems), old(Repr))
      ensures ValidBut(current)
      ensures core == Scheduling.Park(old(core), i)
    {
      ghost var p, k := WaitRepresents(threads, ptrs, core, i);
      Attach(sem, i, core.sems[i].queue, core.cur.value);
      core := k;
    }

    /** The calling thread goes to sleep in the queue of `sem`. */
    method Sleep(sem: Semaphore, ghost i: nat)
      requires Valid() && Settled(core) && core.cur.Some? && i < |sems| && sems[i] == sem && !Free(core, i)
      modifies Repr
      ensures Same(old(threads), old(sems), old(Repr))
      ensures Valid()
      ensures old(core).ready != [] ==> old(core).ready[0] < |old(core).where|
      ensures core == Scheduling.Schedule(Park(old(core), i))
    {
      ParkKeeps(core, i);
      Append(sem, i);
      current.state := StateSema;
      Schedule();
    }

    method Count(sem: Semaphore, ghost i: nat, d: int, ghost k: Core)
      requires Valid() && i < |sems| && sems[i] == sem && Lists(k)
      requires k == core.(sems := core.sems[i := core.sems[i].(count := core.sems[i].count + d)])
      modifies Repr
      ensures Same(old(threads), old(sems), old(Repr))
      ensures Valid() && core == k
    {
      sem.count := sem.count + d;
      ptrs := ptrs.(counts := ptrs.counts[i := sem.count]);
      core := k;
    }

    /** semaphore_wait; `blocked` says that the caller was suspended in it. */
    method Wait(sem: Semaphore, ghost i: nat) returns (blocked: bool)
      requires Valid() && Settled(core) && core.cur.Some? && i < |sems| && sems[i] == sem
      modifies Repr
      ensures Same(old(threads), old(sems), old(Repr))
      ensures Valid()
      ensures old(core).ready != [] ==> old(core).ready[0] < |old(core).where|
      ensures blocked <==> !Free(old(core), i)
      ensures core == Scheduling.Wait(old(core), i)
    {
      ReadyInRange(core);
      blocked := sem.count <= 0;
      if blocked {
        Sleep(sem, i);
      } else {
        TakeKeeps(core, i);
        Count(sem, i, -1, Take(core, i));
      }
    }

    method PopWaiter(sem: Semaphore, ghost i: nat)
      requires Valid() && i < |sems| && sems[i] == sem && sem.queue != null
      modifies Repr
      ensures Same(old(threads), old(sems), old(Repr))
      ensures var q := old(core).sems[i].queue;
              q != [] && q[0] < |threads| && old(sem.queue) == threads[q[0]] && threads[q[0]].tid == q[0]
      ensures ValidBut(old(sem.queue))
      ensures core == Granted(old(core), i)
    {
      ghost var p, k := GrantRepresents(threads, ptrs, core, i);
      Detach(sem, i);
      core := k;
    }

    /** The head of the queue of `sem` becomes ready. */
    method HandOver(sem: Semaphore, ghost i: nat)
      requires Valid() && i < |sems| && sems[i] == sem && sem.queue != null
      modifies Repr
      ensures Same(old(threads), old(sems), old(Repr))
      ensures Valid()
      ensures var q := old(core).sems[i].queue; q != [] && q[0] < |old(core).where|
      ensures core == Scheduling.Signal(old(core), i)
    {
      var t := sem.queue;
      PopWaiter(sem, i);
      Unblock(t);
      assert core.where == old(core).where[t.tid := Ready];
    }

    /** semaphore_signal: the head of the queue gets the token, or the count goes up. */
    method Signal(sem: Semaphore, ghost i: nat)
      requires Valid() && Settled(core) && i < |sems| && sems[i] == sem
      modifies Repr
      ensures Same(old(threads), old(sems), old(Repr))
      ensures Valid()
      ensures var q := old(core).sems[i].queue; q != [] ==> q[0] < |old(core).where|
      ensures core == Scheduling.Signal(old(core), i)
    {
      SignalKeeps(core, i);
      if sem.queue == null {
        Count(sem, i, 1, Scheduling.Signal(core, i));
      } else {
        HandOver(sem, i);
      }
    }

    /** thread_new: a thread in no list. */
    method Create() returns (t: Thread)
      requires Valid()
      modifies this
      ensures ValidBut(t) && Owned(t) && t.tid == |old(threads)| && t.state == StateReady && fresh(t)
      ensures threads == old(threads) + [t] && sems == old(sems) && Repr == old(Repr) + {t}
      ensures core == Newborn(old(core))
    {
      t := new Thread(|threads|);
      ghost var p, k := NewbornRepresents(threads, ptrs, core, t);
      threads := threads + [t];
      Repr := Repr + {t};
      ptrs := p;
      core := k;
    }

    /** thread_new and scheduler_enqueue_thread. */
    method Spawn() returns (t: Thread)
      requires Valid()
      modifies Repr
      ensures Valid() && fresh(t) && sems == old(sems) && Repr == old(Repr) + {t}
      ensures threads == old(threads) + [t]
      ensures core == Scheduling.Spawn(old(core))
    {
      t := Create();
      Enqueue(t);
    }

    /** semaphore_init of a new semaphore. */
    method NewSemaphore(count: int) returns (sem: Semaphore)
      requires Valid()
      modifies Repr
      ensures Valid() && fresh(sem) && threads == old(threads) && Repr == old(Repr) + {sem}
      ensures sems == old(sems) + [sem]
      ensures core == NewSem(old(core), count)
    {
      sem := new Semaphore(count);
      ghost var p, k := NewSemRepresents(threads, ptrs, core, count);
      sems := sems + [sem];
      Repr := Repr + {sem};
      ptrs := p;
      core := k;
    }

    /** semaphore_signal, then thread_block and scheduler_switch. */
    method SignalAndBlock(sem: Semaphore, ghost i: nat, state: ThreadState, ghost w: Where)
      requires Valid() && Settled(core) && core.cur.Some? && i < |sems| && sems[i] == sem
      requires !Listed(w) && w != Running && state == StateOf(w)
      modifies Repr
      ensures Same(old(threads), old(sems), old(Repr))
      ensures Valid()
      ensures var q := old(core).sems[i].queue; q != [] ==> q[0] < |old(core).where|
      ensures var k := Scheduling.Signal(old(core), i);
              k.cur.Some? && k.cur.value < |k.where| && (k.ready != [] ==> k.ready[0] < |k.where|)
      ensures core == Scheduling.Block(Scheduling.Signal(old(core), i), w)
    {
      SignalKeeps(core, i);
      Signal(sem, i);
      Block(state, w);
    }

    /** The two semaphores of a new channel. */
    method NewSemaphores(count: int, count': int) returns (sem: Semaphore, sem': Semaphore)
      requires Valid()
      modifies Repr
      ensures Valid() && fresh(sem) && fresh(sem')
      ensures threads == old(threads) && sems == old(sems) + [sem, sem'] && Repr == old(Repr) + {sem, sem'}
      ensures core == NewSem(NewSem(old(core), count), count')
    {
      sem := NewSemaphore(count);
      sem' := NewSemaphore(count');
    }
  }
}
