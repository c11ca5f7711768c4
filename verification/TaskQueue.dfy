/** The timer queue (src/taskqueue.c): the heap operations on its pointers, the operations of its
    callers, and the run loop that executes due tasks. */
module TaskQueue {
  import opened Time
  import opened PairingHeap

  /** The time of day plus an offset. */
  function Settime(clock: Timespec, timeout: nat, millisecs: nat): (due: Timespec)
    requires Normal(clock)
    ensures Normal(due) && Ns(due) == Ns(clock) + timeout * BILLION + millisecs * MILLION
  {
    Add(clock, Timespec(timeout, millisecs * MILLION))
  }

  /** What has become of a task. */
  datatype Fate = Waiting | Executing | Dropped | Completed
  {
    predicate Live() { Waiting? || Executing? }
  }

  /** One execution of a task by the run loop. */
  datatype Execution = Execution(task: Ptr, due: Timespec)

  /** The books: exactly the waiting tasks are in the heap, exactly the live ones are in memory, and
      the others were cleaned up and freed exactly once. */
  ghost predicate Balanced(heap: set<Ptr>, memory: set<Ptr>, fates: map<Ptr, Fate>, freed: multiset<Ptr>, brk: Ptr) {
    && NULL < brk && (forall t :: t in fates ==> NULL < t < brk)
    && (forall t :: t in heap <==> t in fates && fates[t].Waiting?)
    && (forall t :: t in memory <==> t in fates && fates[t].Live())
    && (forall t :: freed[t] == if t in fates && !fates[t].Live() then 1 else 0)
  }

  lemma BalancedAfterFree(heap: set<Ptr>, memory: set<Ptr>, fates: map<Ptr, Fate>, freed: multiset<Ptr>, brk: Ptr,
                          task: Ptr, fate: Fate)
    requires Balanced(heap, memory, fates, freed, brk) && task in memory && !fate.Live()
    ensures Balanced(heap - {task}, memory - {task}, fates[task := fate], freed[task := freed[task] + 1], brk)
  {
  }

  lemma BalancedAfterBegin(heap: set<Ptr>, memory: set<Ptr>, fates: map<Ptr, Fate>, freed: multiset<Ptr>,
                           brk: Ptr, task: Ptr)
    requires Balanced(heap, memory, fates, freed, brk) && task in heap
    ensures Balanced(heap - {task}, memory, fates[task := Executing], freed, brk)
  {
  }

  /** Exactly the task being executed is marked as such, and it is out of the heap. */
  ghost predicate MarkedIn(mem: Memory, fates: map<Ptr, Fate>) {
    forall t :: t in mem && t in fates ==>
      (mem[t].running <==> fates[t].Executing?) && (fates[t].Executing? ==> mem[t].Detached())
  }

  class TaskqueueCtx {
    /** The root of the heap, the memory it lives in, the time the timer is armed for, and the next
        address to be handed out. */
    var queue: Ptr
    var mem: Memory
    var timer: Timespec
    var brk: Ptr

    /** The structure of the heap, what has become of every task ever posted, and how often each of
        them was cleaned up and freed. */
    ghost var shape: Shape
    ghost var fates: map<Ptr, Fate>
    ghost var freed: multiset<Ptr>

    /** What the slot s holds: `*s`. */
    function Load(s: Slot): Ptr
      requires SlotInMemory(s, mem)
      reads this
    {
      match s
      case Root => queue
      case NextOf(n) => mem[n].next
      case ChildrenOf(n) => mem[n].children
    }

    method Store(s: Slot, t: Ptr)
      requires SlotInMemory(s, mem)
      modifies this`queue, this`mem
      ensures mem == Stored(old(mem), s, t)
      ensures queue == if s.Root? then t else old(queue)
    {
      match s
      case Root => queue := t;
      case NextOf(n) => mem := mem[n := mem[n].(next := t)];
      case ChildrenOf(n) => mem := mem[n := mem[n].(children := t)];
    }

    method Link(s: Slot, elem: Ptr)
      requires SlotInMemory(s, mem) && elem in mem && mem[elem].next == NULL
      requires Load(s) != NULL ==> Load(s) in mem
      requires s != NextOf(elem)
      modifies this`queue, this`mem
      ensures mem == Linked(old(mem), s, elem, old(Load(s)))
      ensures queue == if s.Root? then elem else old(queue)
    {
      if mem[elem].next != NULL { assert false; }  // exit_bug: element already linked
      var head := Load(s);
      mem := mem[elem := mem[elem].(pprev := s, next := head)];
      if mem[elem].next != NULL { mem := mem[head := mem[head].(pprev := NextOf(elem))]; }
      Store(s, elem);
    }

    method Unlink(elem: Ptr)
      requires elem in mem && SlotInMemory(mem[elem].pprev, mem)
      requires mem[elem].next != NULL ==> mem[elem].next in mem
      requires mem[elem].pprev != NextOf(elem) && mem[elem].next != elem
      modifies this`queue, this`mem
      ensures mem == Unlinked(old(mem), elem)
      ensures queue == if old(mem[elem].pprev).Root? then old(mem[elem].next) else old(queue)
    {
      Store(mem[elem].pprev, mem[elem].next);
      var next := mem[elem].next;
      if next != NULL { mem := mem[next := mem[next].(pprev := mem[elem].pprev)]; }
      mem := mem[elem := mem[elem].(next := NULL)];
    }

    /** Merges two heaps; the second may be empty.  Their tops' pprev are stale here. */
    method Merge(queue1: Ptr, queue2: Ptr, ghost h1: Shape, ghost h2: Shape) returns (lo: Ptr, ghost h: Shape)
      requires queue1 != NULL && Tree(h1, queue1, mem) && Tree(h2, queue2, mem) && Nodes(h1) !! Nodes(h2)
      modifies this`queue, this`mem
      ensures lo != NULL && Tree(h, lo, mem) && Nodes(h) == Nodes(h1) + Nodes(h2)
      ensures queue == old(queue) && OnlyLinks(old(mem), mem, Nodes(h1) + Nodes(h2))
    {
      TopOfTree(h1, queue1, mem);
      if queue1 == NULL { assert false; }  // exit_bug: queue1 unset
      if mem[queue1].next != NULL { assert false; }  // exit_bug: queue1 has successor
      if queue2 == NULL { return queue1, h1; }
      TopOfTree(h2, queue2, mem);
      if mem[queue2].next != NULL { assert false; }  // exit_bug: queue2 has successor

      var hi: Ptr;
      ghost var l, g;
      if Cmp(mem[queue1].due, mem[queue2].due) < 0 {
        lo, hi, l, g := queue1, queue2, h1, h2;
      } else {
        lo, hi, l, g := queue2, queue1, h2, h1;
      }
      MergedTree(mem, lo, hi, l, g);
      Link(ChildrenOf(lo), hi);
      h := Heap(lo, Heap(hi, g.kids, l.kids), Nil);
    }

    /** Merges the list of heaps h pairwise into one.  Only the first needs a pprev, and its value
        does not matter. */
    method MergePairs(queue0: Ptr, ghost h: Shape) returns (merged: Ptr, ghost g: Shape)
      requires if queue0 == NULL then h.Nil? else h.Heap? && h.elem == queue0
      requires Forest(h, mem) && (queue0 != NULL ==> mem[queue0].pprev != NoSlot)
      modifies this`queue, this`mem
      ensures Tree(g, merged, mem) && Nodes(g) == Nodes(h)
      ensures queue == old(queue) && OnlyLinks(old(mem), mem, Nodes(h))
      decreases h
    {
      hide OrderedBut, Cmp;
      if queue0 == NULL { return NULL, Nil; }
      if mem[queue0].pprev == NoSlot { assert false; }  // exit_bug: unlinked queue
      var queue1 := mem[queue0].next;
      assert Spells(h.rest, queue1, NextOf(queue0), mem);
      assert Distinct(h.rest);
      if queue1 == NULL { return queue0, h; }
      var queue2 := mem[queue1].next;
      assert h.rest.elem == queue1 && Body(h.rest, mem);
      assert Spells(h.rest.rest, queue2, NextOf(queue1), mem);
      CutPair(mem, h);
      mem := mem[queue0 := mem[queue0].(next := NULL)];
      mem := mem[queue1 := mem[queue1].(next := NULL)];
      ghost var h0, h1, h2 := Heap(queue0, h.kids, Nil), Heap(queue1, h.rest.kids, Nil), h.rest.rest;
      PairPieces(h);
      ghost var m0 := mem;
      var pair, gp := Merge(queue0, queue1, h0, h1);
      ghost var m1 := mem;
      Untouched(h2, m0, m1, Nodes(h0) + Nodes(h1));
      OnlyLinksChain(old(mem), m0, m1, Nodes(h0) + Nodes(h1), Nodes(h));
      var others, go := MergePairs(queue2, h2);
      ghost var m2 := mem;
      Untouched(gp, m1, m2, Nodes(h2));
      OnlyLinksChain(old(mem), m1, m2, Nodes(h2), Nodes(h));
      merged, g := Merge(pair, others, gp, go);
      OnlyLinksChain(old(mem), m2, mem, Nodes(gp) + Nodes(go), Nodes(h));
    }

    method Insert(elem: Ptr, ghost h: Shape) returns (ghost g: Shape)
      requires Holds(queue, mem, h) && elem != NULL && elem in mem && elem !in Nodes(h) && mem[elem].Detached()
      modifies this`queue, this`mem
      ensures Holds(queue, mem, g) && Nodes(g) == Nodes(h) + {elem}
      ensures OnlyLinks(old(mem), mem, Nodes(g))
    {
      if mem[elem].pprev != NoSlot || mem[elem].next != NULL || mem[elem].children != NULL {
        assert false;  // exit_bug: tried to insert linked queue element
      }
      var top;
      top, g := Merge(elem, queue, Heap(elem, Nil, Nil), h);
      queue := top;
      ghost var m := mem;
      mem := mem[queue := mem[queue].(pprev := Root)];
      Crowned(m, g, top);
    }

    /** The conditional link at the end of a removal. */
    method Relink(pprev: Slot, merged: Ptr)
      requires SlotInMemory(pprev, mem) && (Load(pprev) != NULL ==> Load(pprev) in mem)
      requires merged != NULL ==> merged in mem && mem[merged].next == NULL && pprev != NextOf(merged)
      modifies this`queue, this`mem
      ensures mem == Relinked(old(mem), pprev, merged, old(Load(pprev))) && mem.Keys == old(mem.Keys)
      ensures queue == if pprev.Root? && merged != NULL then merged else old(queue)
    {
      if merged != NULL {
        LinkedData(mem, pprev, merged, Load(pprev));
        Link(pprev, merged);
      }
    }

    /** Removes any task, wherever it is in the heap and whatever its due time has become. */
    method Remove(elem: Ptr, ghost h: Shape) returns (ghost g: Shape)
      requires elem in mem && (elem !in Nodes(h) ==> mem[elem].Detached())
      requires Removable(mem, queue, h, elem)
      modifies this`queue, this`mem
      ensures OnlyLinks(old(mem), mem, Nodes(h))
      ensures Holds(queue, mem, g) && Nodes(g) == Nodes(h) - {elem} && mem[elem].Detached()
    {
      if mem[elem].pprev == NoSlot {
        UnlinkedIsOutside(h, queue, mem, elem);
        if mem[elem].children != NULL || mem[elem].next != NULL { assert false; }  // exit_bug: corrupted queue item
        OrderedWithout(h, elem, mem);
        return h;
      }
      var pprev := mem[elem].pprev;
      ghost var m0, queue0, below := mem, queue, At(h, elem).kids;
      SlotOfRemovable(m0, queue0, h, elem);
      Detaching(m0, queue0, h, elem);
      Unlink(elem);
      ghost var m1 := mem;
      var merged, t := MergePairs(mem[elem].children, below);
      g := Reattach(elem, pprev, merged, m0, m1, queue0, h, t);
    }

    /** The end of a removal: the merged children take the place of elem, whose links are wiped. */
    method Reattach(elem: Ptr, pprev: Slot, merged: Ptr, ghost m0: Memory, ghost m1: Memory, ghost queue0: Ptr,
                    ghost h: Shape, ghost t: Shape) returns (ghost g: Shape)
      requires Detached(m0, m1, mem, queue0, h, elem, t, merged) && pprev == m0[elem].pprev
      requires queue == if pprev.Root? then m0[elem].next else queue0
      modifies this`queue, this`mem
      ensures OnlyLinks(m0, mem, Nodes(h))
      ensures Holds(queue, mem, g) && Nodes(g) == Nodes(h) - {elem} && elem in mem && mem[elem].Detached()
    {
      ghost var m2 := mem;
      Linkable(m0, m1, m2, queue0, h, elem, t, merged);
      Relink(pprev, merged);
      Removed(m0, m1, m2, queue0, h, elem, t, merged);
      mem := mem[elem := mem[elem].(pprev := NoSlot, children := NULL)];
      g := Put(h, elem, Joined(t, At(h, elem).rest));
    }

    // ----- The invariant

    ghost predicate Marked()
      reads this
    {
      MarkedIn(mem, fates)
    }

    ghost predicate Valid()
      reads this
    {
      Holds(queue, mem, shape) && Balanced(Nodes(shape), mem.Keys, fates, freed, brk) && Marked()
    }

    /** The timer will fire when the first task is due. */
    ghost predicate Armed()
      reads this
      requires queue != NULL ==> queue in mem
    {
      queue != NULL ==> timer == mem[queue].due
    }

    method Schedule()
      requires queue != NULL ==> queue in mem
      modifies this`timer
      ensures Armed()
    {
      if queue == NULL { return; }
      timer := mem[queue].due;
    }

    constructor ()
      ensures Valid() && fates == map[] && Armed()
    {
      queue, mem, brk, timer := NULL, map[], 1, Timespec(0, 0);
      shape, fates, freed := Nil, map[], multiset{};
    }

    /** All due times but that of ex are as they were. */
    twostate predicate DuesKept(ex: Ptr)
      reads this
    {
      forall t :: t in mem && t in old(mem) && t != ex ==> mem[t].due == old(mem[t].due)
    }

    // ----- The operations of the callers

    method PostTask(clock: Timespec, timeout: nat, millisecs: nat) returns (task: Ptr)
      requires Valid() && Normal(clock)
      modifies this
      ensures Valid() && Armed() && task !in old(fates) && fates == old(fates)[task := Waiting]
      ensures mem[task].due == Settime(clock, timeout, millisecs) && DuesKept(task)
    {
      task := Enqueue(Settime(clock, timeout, millisecs));
      fates := fates[task := Waiting];
      Schedule();
    }

    /** Allocates a task and puts it into the heap. */
    method Enqueue(due: Timespec) returns (task: Ptr)
      requires Holds(queue, mem, shape) && brk !in mem && NULL < brk
      modifies this`queue, this`mem, this`shape, this`brk
      ensures task == old(brk) && brk == task + 1 && mem.Keys == old(mem.Keys) + {task}
      ensures Holds(queue, mem, shape) && Nodes(shape) == old(Nodes(shape)) + {task}
      ensures mem[task].due == due && !mem[task].running
      ensures forall n :: n in old(mem) ==> mem[n].due == old(mem[n].due) && mem[n].running == old(mem[n].running)
      ensures forall n :: n in old(mem) && n !in Nodes(shape) ==> mem[n] == old(mem[n])
    {
      task, brk := brk, brk + 1;
      ghost var m := mem;
      mem := mem[task := Task(NoSlot, NULL, NULL, due, false)];
      Kept(queue, m, mem, shape);
      shape := Insert(task, shape);
    }

    /** Drops a live task; a task that is just being executed is left to the run loop. */
    method DropTask(task: Ptr)
      requires Valid() && task in mem
      modifies this
      ensures Valid() && DuesKept(NULL) && (old(Armed()) ==> Armed())
      ensures fates == if old(fates[task]).Executing? then old(fates) else old(fates)[task := Dropped]
    {
      hide Holds, Nodes;
      Accounted(task);
      if mem[task].running { return; }
      BalancedAfterFree(Nodes(shape), mem.Keys, fates, freed, brk, task, Dropped);
      TakeOut(task);
      Free(task, Dropped);
      QueueInMemory(queue, mem, shape);
      Schedule();
    }

    lemma Accounted(task: Ptr)
      requires Valid() && task in mem
      ensures task in fates && (mem[task].running <==> fates[task].Executing?)
      ensures !mem[task].running ==> fates[task].Waiting? && task in Nodes(shape)
    {
    }

    /** Removes a task whose due time is in order. */
    method TakeOut(task: Ptr)
      requires Holds(queue, mem, shape) && task in mem && task in Nodes(shape)
      modifies this`queue, this`mem, this`shape
      ensures Holds(queue, mem, shape) && Nodes(shape) == old(Nodes(shape)) - {task} && mem.Keys == old(mem.Keys)
      ensures mem[task].Detached()
      ensures forall n :: n in mem ==> mem[n].due == old(mem[n].due) && mem[n].running == old(mem[n].running)
      ensures forall n :: n in mem && n != task && n !in Nodes(shape) ==> mem[n] == old(mem[n])
    {
      NullIsNoNode(shape);
      OrderedExempt(shape, task, mem);
      shape := Remove(task, shape);
    }

    /** Runs the cleanup of a task that is out of the heap and releases its memory. */
    method Free(task: Ptr, ghost fate: Fate)
      requires Holds(queue, mem, shape) && task in mem && task !in Nodes(shape) && !fate.Live()
      modifies this`mem, this`fates, this`freed
      ensures Holds(queue, mem, shape)
      ensures mem == old(mem) - {task} && mem.Keys == old(mem.Keys) - {task}
      ensures fates == old(fates)[task := fate] && freed == old(freed)[task := old(freed)[task] + 1]
    {
      ghost var m := mem;
      freed := freed[task := freed[task] + 1];
      mem := mem - {task};
      fates := fates[task := fate];
      Kept(queue, m, mem, shape);
    }

    /** Moves a pending task to a new due time; reports whether there was one to move. */
    method RescheduleTask(task: Ptr, clock: Timespec, timeout: nat, millisecs: nat) returns (ok: bool)
      requires Valid() && (task != NULL ==> task in mem) && Normal(clock)
      modifies this
      ensures Valid() && (old(Armed()) ==> Armed()) && fates == old(fates)
      ensures ok == (task != NULL && fates[task].Waiting?)
      ensures ok ==> mem[task].due == Settime(clock, timeout, millisecs)
      ensures DuesKept(if ok then task else NULL)
    {
      if task == NULL || mem[task].pprev == NoSlot {
        if task != NULL { UnlinkedIsOutside(shape, queue, mem, task); }
        return false;
      }
      var due := Settime(clock, timeout, millisecs);
      if Cmp(due, mem[task].due) != 0 {
        Requeue(task, due);
        Schedule();
      }
      ok := true;
    }

    /** Changes the due time first, while the task is still linked, and then moves it. */
    method Requeue(task: Ptr, due: Timespec)
      requires Holds(queue, mem, shape) && task in mem && task in Nodes(shape)
      modifies this`queue, this`mem, this`shape
      ensures Holds(queue, mem, shape) && Nodes(shape) == old(Nodes(shape)) && mem.Keys == old(mem.Keys)
      ensures mem[task].due == due && mem[task].running == old(mem[task].running)
      ensures forall n :: n in mem && n != task ==>
        mem[n].due == old(mem[n].due) && mem[n].running == old(mem[n].running)
      ensures forall n :: n in mem && n !in Nodes(shape) ==> mem[n] == old(mem[n])
    {
      StaysRemovable(queue, mem, shape, task, due);
      mem := mem[task := mem[task].(due := due)];
      shape := Remove(task, shape);
      NullIsNoNode(old(shape));
      shape := Insert(task, shape);
    }

    // ----- The run loop

    /** Any callback: any number of posts, drops and reschedulings of live tasks, its own included, at any
        clock readings; what it posts or reschedules is due after now. */
    method Callback(now: Timespec)
      requires Valid() && Normal(now)
      modifies this
      ensures Valid() && CalledBack(now, NULL, old(fates), old(mem), fates, mem)
    {
      var steps: nat := *;
      while steps > 0
        invariant Valid() && CalledBack(now, NULL, old(fates), old(mem), fates, mem)
      {
        CallbackStep(now);
        steps := steps - 1;
      }
    }

    method CallbackStep(now: Timespec)
      requires Valid() && Normal(now)
      modifies this
      ensures Valid() && CalledBack(now, NULL, old(fates), old(mem), fates, mem)
    {
      var clock: Timespec, timeout: nat, millisecs: nat, choice: nat, task: Ptr := *, *, *, *, *;
      if !Normal(clock) || (choice != 1 && Cmp(Settime(clock, timeout, millisecs), now) <= 0) { return; }
      if choice == 0 {
        task := PostTask(clock, timeout, millisecs);
      } else if task in mem {
        if choice == 1 {
          DropTask(task);
        } else {
          var ok := RescheduleTask(task, clock, timeout, millisecs);
        }
      }
    }

    ghost predicate Idle()
      reads this
    {
      forall t :: t in fates ==> !fates[t].Executing?
    }

    /** Takes the first task out of the queue and executes it. */
    method RunFirst(now: Timespec) returns (ghost e: Execution)
      requires Valid() && Idle() && Normal(now) && queue != NULL && queue in mem
      modifies this
      ensures Valid() && Idle() && CalledBack(now, e.task, old(fates), old(mem), fates, mem)
      ensures e == Execution(old(queue), old(mem[queue].due)) && e.task in fates && fates[e.task].Completed?
      ensures IsFirst(e, old(fates), old(mem))
    {
      hide Holds, Nodes;
      var task := queue;
      e := Execution(task, mem[task].due);
      RootIsFirst();
      Begin(task);
      Callback(now);
      Finish(task);
    }

    /** Cleans up and frees the task that has been executed. */
    method Finish(task: Ptr)
      requires Valid() && task in fates && fates[task].Executing?
      modifies this`mem, this`fates, this`freed
      ensures Valid() && fates == old(fates)[task := Completed] && mem == old(mem) - {task}
    {
      hide Holds, Nodes;
      BalancedAfterFree(Nodes(shape), mem.Keys, fates, freed, brk, task, Completed);
      Free(task, Completed);
    }

    lemma RootIsFirst()
      requires Valid() && queue != NULL && queue in mem
      ensures IsFirst(Execution(queue, mem[queue].due), fates, mem)
    {
      RootIsMinimum(shape, mem);
    }

    method Begin(task: Ptr)
      requires Valid() && Idle() && task in mem
      modifies this
      ensures Valid() && mem.Keys == old(mem.Keys)
      ensures fates == old(fates)[task := Executing]
      ensures forall n :: n in mem ==> mem[n].due == old(mem[n].due)
    {
      hide Holds, Nodes;
      BalancedAfterBegin(Nodes(shape), mem.Keys, fates, freed, brk, task);
      TakeOut(task);
      ghost var m := mem;
      mem := mem[task := mem[task].(running := true)];
      fates := fates[task := Executing];
      Kept(queue, m, mem, shape);
    }

    /** Executes everything that is due by now, in order of due times.  A task that was due is
        executed, unless a callback dropped it or moved it beyond now. */
    method TaskqueueRun(now: Timespec) returns (ghost ran: seq<Execution>)
      requires Valid() && Idle() && Normal(now)
      modifies this
      ensures Valid() && Idle() && Armed() && DueBy(now, fates, mem) == {}
      ensures SoFar(now, ran, old(fates), old(mem), fates, mem)
    {
      ran := [];
      if queue == NULL {
        NothingDue(now);
        return;
      }
      while queue != NULL && Cmp(mem[queue].due, now) <= 0
        invariant Valid() && Idle() && SoFar(now, ran, old(fates), old(mem), fates, mem)
        decreases DueBy(now, fates, mem)
      {
        ghost var f, m := fates, mem;
        ghost var e := RunFirst(now);
        OneMore(now, ran, e, old(fates), old(mem), f, m, fates, mem);
        ran := ran + [e];
      }
      NothingDue(now);
      Schedule();
    }

    /** The loop with callbacks that each post one task at the clock reading now, without delay: after any
        number of rounds it has still not ended. */
    method RunReposting(now: Timespec, rounds: nat)
      requires Valid() && Idle() && Normal(now) && queue != NULL && queue in mem && Cmp(mem[queue].due, now) <= 0
      modifies this
      ensures Valid() && Idle() && queue != NULL && queue in mem && Cmp(mem[queue].due, now) <= 0
    {
      hide Holds, Nodes;
      for i := 0 to rounds
        invariant Valid() && Idle() && queue != NULL && queue in mem && Cmp(mem[queue].due, now) <= 0
      {
        var task := queue;
        RootIsFirst();
        Begin(task);
        var next := PostTask(now, 0, 0);
        NsInjective(now, Settime(now, 0, 0));
        Finish(task);
        StillDue(next, now);
      }
    }

    lemma StillDue(task: Ptr, now: Timespec)
      requires Valid() && task in fates && fates[task].Waiting? && task in mem && mem[task].due == now && Normal(now)
      ensures queue != NULL && queue in mem && Cmp(mem[queue].due, now) <= 0
    {
      RootIsMinimum(shape, mem);
    }

    lemma NothingDue(now: Timespec)
      requires Valid() && (queue != NULL ==> queue in mem && Cmp(mem[queue].due, now) > 0)
      ensures DueBy(now, fates, mem) == {}
    {
      if queue != NULL { RootIsMinimum(shape, mem); }
      assert forall t :: t in fates && fates[t].Waiting? ==> t in Nodes(shape) && queue != NULL;
      forall t | t in fates && fates[t].Waiting? ensures t !in DueBy(now, fates, mem) {
        assert t in Nodes(shape);
      }
      assert forall t :: t !in DueBy(now, fates, mem);
    }
  }

  // ----- What running tasks does to the books

  /** What any callback, run while t0 is executed, leaves in place: it neither starts nor completes any
      other task, and keeps what is pending or drops it. */
  ghost predicate OthersKept(t0: Ptr, f: map<Ptr, Fate>, f': map<Ptr, Fate>) {
    && (forall t :: t in f ==> t in f')
    && (forall t :: t in f && t != t0 && f'[t] != f[t] ==> f[t].Waiting? && f'[t].Dropped?)
    && (forall t :: t in f' && t !in f ==> f'[t].Waiting? || f'[t].Dropped?)
  }

  /** Nothing has been posted or rescheduled that is due by now. */
  ghost predicate NothingNewDue(now: Timespec, m: Memory, m': Memory) {
    && (forall t :: t in m' && t in m && Cmp(m'[t].due, now) <= 0 ==> m'[t].due == m[t].due)
    && (forall t :: t in m' && t !in m ==> Cmp(m'[t].due, now) > 0)
  }

  /** What a callback, run while t0 is executed, does. */
  ghost predicate CalledBack(now: Timespec, t0: Ptr, f: map<Ptr, Fate>, m: Memory, f': map<Ptr, Fate>, m': Memory) {
    OthersKept(t0, f, f') && NothingNewDue(now, m, m')
  }

  /** The waiting tasks that are due by now. */
  ghost function DueBy(now: Timespec, f: map<Ptr, Fate>, m: Memory): set<Ptr> {
    set t | t in m && t in f && f[t].Waiting? && Cmp(m[t].due, now) <= 0
  }

  /** e executes a waiting task, and no waiting task is due earlier. */
  ghost predicate IsFirst(e: Execution, f: map<Ptr, Fate>, m: Memory) {
    && e.task in m && e.task in f && f[e.task].Waiting? && e.due == m[e.task].due
    && forall t :: t in m && t in f && f[t].Waiting? ==> Cmp(e.due, m[t].due) <= 0
  }

  ghost predicate HasRun(ran: seq<Execution>, t: Ptr) {
    exists i :: 0 <= i < |ran| && ran[i].task == t
  }

  /** What the run loop has done between (f0, m0) and (f, m): it executed the tasks ran, each once and
      in order of due times, each of them waiting and due when the loop started; nothing else was
      completed; and whatever was due is executed, dropped, moved beyond now, or still to come. */
  ghost predicate SoFar(now: Timespec, ran: seq<Execution>, f0: map<Ptr, Fate>, m0: Memory,
                        f: map<Ptr, Fate>, m: Memory) {
    && (forall i :: 0 <= i < |ran| ==>
          && ran[i].task in DueBy(now, f0, m0) && ran[i].due == m0[ran[i].task].due
          && ran[i].task in f && f[ran[i].task].Completed?)
    && (forall i, j :: 0 <= i < j < |ran| ==> ran[i].task != ran[j].task && Cmp(ran[i].due, ran[j].due) <= 0)
    && (forall t :: t in f0 ==> t in f)
    && (forall t :: t in f0 && f[t] != f0[t] ==>
          f0[t].Waiting? && (f[t].Dropped? || (f[t].Completed? && HasRun(ran, t))))
    && (forall t :: t in f && t !in f0 ==> f[t].Waiting? || f[t].Dropped?)
    && (forall t :: t in DueBy(now, f, m) ==> t in DueBy(now, f0, m0) && m[t].due == m0[t].due)
    && (forall i, t :: 0 <= i < |ran| && t in DueBy(now, f, m) ==> Cmp(ran[i].due, m[t].due) <= 0)
  }

  /** One more execution extends the account, and leaves fewer tasks due. */
  lemma OneMore(now: Timespec, ran: seq<Execution>, e: Execution, f0: map<Ptr, Fate>, m0: Memory,
                f: map<Ptr, Fate>, m: Memory, f': map<Ptr, Fate>, m': Memory)
    requires SoFar(now, ran, f0, m0, f, m) && IsFirst(e, f, m) && Cmp(e.due, now) <= 0
    requires forall t :: t in m ==> t in f
    requires CalledBack(now, e.task, f, m, f', m') && e.task in f' && f'[e.task].Completed?
    ensures SoFar(now, ran + [e], f0, m0, f', m')
    ensures DueBy(now, f', m') < DueBy(now, f, m)
  {
    assert e.task in DueBy(now, f, m);
    forall t | t in DueBy(now, f', m') ensures t in DueBy(now, f, m) && m'[t].due == m[t].due {
    }
    forall t | HasRun(ran, t) || t == e.task ensures HasRun(ran + [e], t) {
      if t == e.task {
        assert (ran + [e])[|ran|] == e;
      } else {
        var i :| 0 <= i < |ran| && ran[i].task == t;
        assert (ran + [e])[i].task == t;
      }
    }
  }

  /** Once nothing is due any more, every task that was due has been executed, dropped by a callback,
      or moved beyond now by one. */
  lemma EveryDueTaskServed(now: Timespec, ran: seq<Execution>, f0: map<Ptr, Fate>, m0: Memory,
                           f: map<Ptr, Fate>, m: Memory)
    requires SoFar(now, ran, f0, m0, f, m) && DueBy(now, f, m) == {}
    requires forall t :: t in f && f[t].Live() ==> t in m
    ensures forall t :: t in DueBy(now, f0, m0) ==>
      && t in f
      && (if f[t].Waiting? then t in m && Cmp(m[t].due, now) > 0 else f[t].Dropped? || HasRun(ran, t))
  {
    forall t | t in DueBy(now, f0, m0) && f[t].Waiting? ensures t in m && Cmp(m[t].due, now) > 0 {
      assert t !in DueBy(now, f, m);
    }
  }

  // ----- Why what callbacks post must be due later

  ghost function CompletedBefore(k: Ptr): (f: map<Ptr, Fate>)
    ensures forall t :: t in f <==> NULL < t < k
    ensures forall t :: t in f ==> f[t].Completed?
    decreases k
  {
    if k <= NULL + 1 then map[] else CompletedBefore(k - 1)[k - 1 := Completed]
  }

  /** Task k waits, due now, and all before it have been completed. */
  ghost function FatesAt(k: Ptr): map<Ptr, Fate> {
    CompletedBefore(k)[k := Waiting]
  }

  ghost function FreedBefore(k: Ptr): (freed: multiset<Ptr>)
    ensures forall t :: freed[t] == if NULL < t < k then 1 else 0
    decreases k
  {
    if k <= NULL + 1 then multiset{} else FreedBefore(k - 1)[k - 1 := 1]
  }

  function MemoryAt(k: Ptr, now: Timespec): Memory {
    map[k := Task(Root, NULL, NULL, now, false)]
  }

  /** If a callback may post a task that is due at once, the run loop need not end.  There is an endless
      run, whose k-th state keeps the whole invariant and has a task that is due first; its execution
      posts the next, which is all that makes it an improper callback, and there is always one more task
      due. */
  lemma LoopNeedNotEnd(now: Timespec, k: Ptr)
    requires Normal(now) && k > NULL
    ensures var f, m, f', m' := FatesAt(k), MemoryAt(k, now), FatesAt(k + 1), MemoryAt(k + 1, now);
      && Holds(k, m, Heap(k, Nil, Nil)) && m[k].due == Settime(now, 0, 0)
      && Balanced(Nodes(Heap(k, Nil, Nil)), m.Keys, f, FreedBefore(k), k + 1) && MarkedIn(m, f)
      && (forall t :: t in f && f[t].Waiting? <==> t == k)
      && IsFirst(Execution(k, now), f, m) && Cmp(now, now) <= 0
      && OthersKept(k, f, f') && f'[k].Completed? && !NothingNewDue(now, m, m')
      && DueBy(now, f, m) == {k} && DueBy(now, f', m') == {k + 1}
  {
    NsInjective(now, Settime(now, 0, 0));
    assert k + 1 in MemoryAt(k + 1, now);
  }
}
