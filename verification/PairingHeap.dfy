/** The structure behind the timer queue (src/taskqueue.c): an intrusive pairing heap whose nodes
    know the slot that points at them.

    Memory is explicit: a map from pointers to the task records that are currently allocated.
    Every access is to an allocated record, so that nothing is used after it was freed. */
module PairingHeap {
  import opened Time

  type Ptr = int

  const NULL: Ptr := 0

  /** A `taskqueue_t **`: the place that holds the pointer to a task. */
  datatype Slot = NoSlot | Root | NextOf(prev: Ptr) | ChildrenOf(parent: Ptr)

  datatype Task = Task(pprev: Slot, next: Ptr, children: Ptr, due: Timespec, running: bool)
  {
    predicate Detached() {
      pprev == NoSlot && next == NULL && children == NULL
    }
  }

  type Memory = map<Ptr, Task>

  // ----- The shape of the heap: first child to the left, next sibling to the right

  datatype Shape = Nil | Heap(elem: Ptr, kids: Shape, rest: Shape)

  ghost function Nodes(h: Shape): set<Ptr> {
    match h
    case Nil => {}
    case Heap(e, k, r) => {e} + Nodes(k) + Nodes(r)
  }

  /** Every node is a task, not NULL, and is reached exactly once. */
  ghost predicate Distinct(h: Shape) {
    match h
    case Nil => true
    case Heap(e, k, r) =>
      && e != NULL && e !in Nodes(k) && e !in Nodes(r) && Nodes(k) !! Nodes(r)
      && Distinct(k) && Distinct(r)
  }

  /** The links below the top of h spell out h; the top's own pprev is left open, because it is
      stale while heaps are being merged. */
  ghost predicate Body(h: Shape, m: Memory)
    decreases h, 0
  {
    match h
    case Nil => true
    case Heap(e, k, r) =>
      e in m && Spells(k, m[e].children, ChildrenOf(e), m) && Spells(r, m[e].next, NextOf(e), m)
  }

  /** The pointer p, held by slot s, leads to the structure h. */
  ghost predicate Spells(h: Shape, p: Ptr, s: Slot, m: Memory)
    decreases h, 1
  {
    match h
    case Nil => p == NULL
    case Heap(e, _, _) => p == e && e in m && m[e].pprev == s && Body(h, m)
  }

  /** Two memories agree on a task. */
  ghost predicate Same(n: Ptr, m: Memory, m': Memory) {
    n in m && n in m' && m[n] == m'[n]
  }

  /** No task is due before an ancestor of it; the task ex is exempt, on either side. */
  ghost predicate OrderedBut(h: Shape, ex: Ptr, m: Memory)
    requires Nodes(h) <= m.Keys
  {
    match h
    case Nil => true
    case Heap(e, k, r) =>
      && (e != ex ==> forall x :: x in Nodes(k) && x != ex ==> Cmp(m[e].due, m[x].due) <= 0)
      && OrderedBut(k, ex, m) && OrderedBut(r, ex, m)
  }

  ghost predicate Ordered(h: Shape, m: Memory)
    requires Nodes(h) <= m.Keys
  {
    OrderedBut(h, NULL, m)
  }

  /** p is the top of a heap without siblings, or there is nothing. */
  ghost predicate Tree(h: Shape, p: Ptr, m: Memory) {
    && (if p == NULL then h.Nil? else h.Heap? && h.elem == p && h.rest.Nil?)
    && Forest(h, m)
  }

  /** A list of heaps. */
  ghost predicate Forest(h: Shape, m: Memory) {
    Nodes(h) <= m.Keys && Body(h, m) && Distinct(h) && Ordered(h, m)
  }

  /** The whole queue: a heap hanging off the root slot. */
  ghost predicate Holds(queue: Ptr, m: Memory, h: Shape) {
    Tree(h, queue, m) && Spells(h, queue, Root, m)
  }

  /** The root, if there is one, is in memory. */
  lemma QueueInMemory(queue: Ptr, m: Memory, h: Shape)
    requires Holds(queue, m, h)
    ensures queue != NULL ==> queue in m
  {
  }

  lemma TopOfTree(h: Shape, p: Ptr, m: Memory)
    requires Tree(h, p, m) && p != NULL
    ensures p in m && m[p].next == NULL && Spells(h.kids, m[p].children, ChildrenOf(p), m)
  {
    assert Spells(h.rest, m[p].next, NextOf(p), m);
  }

  /** Only the links of h's own nodes matter. */
  lemma {:induction false} OnlyLinksMatter(h: Shape, p: Ptr, s: Slot, m: Memory, m': Memory)
    requires forall n :: n in Nodes(h) ==> n in m && n in m' && m'[n].pprev == m[n].pprev
                                           && m'[n].next == m[n].next && m'[n].children == m[n].children
    ensures Body(h, m) <==> Body(h, m')
    ensures Spells(h, p, s, m) <==> Spells(h, p, s, m')
  {
    match h
    case Nil =>
    case Heap(e, k, r) =>
      OnlyLinksMatter(k, m[e].children, ChildrenOf(e), m, m');
      OnlyLinksMatter(r, m[e].next, NextOf(e), m, m');
  }

  lemma OnlyOwnLinksMatter(h: Shape, p: Ptr, s: Slot, m: Memory, m': Memory)
    requires forall n :: n in Nodes(h) ==> Same(n, m, m')
    ensures Body(h, m) <==> Body(h, m')
    ensures Spells(h, p, s, m) <==> Spells(h, p, s, m')
  {
    forall n | n in Nodes(h) ensures n in m && n in m' && m'[n] == m[n] {
      assert Same(n, m, m');
    }
    OnlyLinksMatter(h, p, s, m, m');
  }

  /** Only the due times of h's own nodes matter to its order, and the exempt one's not even then. */
  lemma OnlyDueMatters(h: Shape, ex: Ptr, m: Memory, m': Memory)
    requires Nodes(h) <= m.Keys && Nodes(h) <= m'.Keys
    requires forall n :: n in Nodes(h) && n != ex ==> m[n].due == m'[n].due
    ensures OrderedBut(h, ex, m) <==> OrderedBut(h, ex, m')
  {
  }

  lemma NullIsNoNode(h: Shape)
    requires Distinct(h)
    ensures NULL !in Nodes(h)
  {
  }

  /** The top of a heap is due first. */
  lemma RootIsMinimum(h: Shape, m: Memory)
    requires Nodes(h) <= m.Keys && h.Heap? && h.rest.Nil? && Distinct(h) && Ordered(h, m)
    ensures forall x :: x in Nodes(h) ==> Cmp(m[h.elem].due, m[x].due) <= 0
  {
    NullIsNoNode(h);
  }

  // ----- Locating and replacing an interior node

  /** The part of h that starts at e: e, everything below it and everything after it. */
  ghost function At(h: Shape, e: Ptr): (s: Shape)
    requires e in Nodes(h)
    ensures s.Heap? && s.elem == e && Nodes(s) <= Nodes(h)
  {
    if h.elem == e then h
    else if e in Nodes(h.kids) then At(h.kids, e)
    else At(h.rest, e)
  }

  /** h with the part that starts at e replaced by g. */
  ghost function Put(h: Shape, e: Ptr, g: Shape): Shape
    requires e in Nodes(h)
  {
    if h.elem == e then g
    else if e in Nodes(h.kids) then Heap(h.elem, Put(h.kids, e, g), h.rest)
    else Heap(h.elem, h.kids, Put(h.rest, e, g))
  }

  /** The slot, by shape alone, that holds e when s holds the top of h. */
  ghost function SlotIn(h: Shape, s: Slot, e: Ptr): Slot
    requires e in Nodes(h)
  {
    if h.elem == e then s
    else if e in Nodes(h.kids) then SlotIn(h.kids, ChildrenOf(h.elem), e)
    else SlotIn(h.rest, NextOf(h.elem), e)
  }

  /** An interior slot belongs to a node of h outside the part it leads to. */
  lemma SlotOutside(h: Shape, s: Slot, e: Ptr)
    requires Distinct(h) && e in Nodes(h)
    ensures Distinct(At(h, e))
    ensures h.elem != e ==>
      match SlotIn(h, s, e)
      case NextOf(n) => n in Nodes(h) - Nodes(At(h, e))
      case ChildrenOf(n) => n in Nodes(h) - Nodes(At(h, e))
      case _ => false
  {
    if h.elem == e {
    } else if e in Nodes(h.kids) {
      SlotOutside(h.kids, ChildrenOf(h.elem), e);
      assert h.kids.elem == e ==> SlotIn(h, s, e) == ChildrenOf(h.elem);
    } else {
      SlotOutside(h.rest, NextOf(h.elem), e);
      assert h.rest.elem == e ==> SlotIn(h, s, e) == NextOf(h.elem);
    }
  }

  /** Each node's pprev names the slot that really holds it. */
  lemma PprevHoldsNode(h: Shape, p: Ptr, s: Slot, e: Ptr, m: Memory)
    requires Spells(h, p, s, m) && Distinct(h) && e in Nodes(h)
    ensures e in m && m[e].pprev == SlotIn(h, s, e) && Spells(At(h, e), e, m[e].pprev, m)
    ensures h.elem == e ==> p == e
    ensures h.elem != e ==>
      match m[e].pprev
      case NextOf(n) => n in m && m[n].next == e
      case ChildrenOf(n) => n in m && m[n].children == e
      case _ => false
  {
    if h.elem == e {
    } else if e in Nodes(h.kids) {
      PprevHoldsNode(h.kids, m[h.elem].children, ChildrenOf(h.elem), e, m);
      assert h.kids.elem == e ==> m[e].pprev == ChildrenOf(h.elem);
    } else {
      PprevHoldsNode(h.rest, m[h.elem].next, NextOf(h.elem), e, m);
      assert h.rest.elem == e ==> m[e].pprev == NextOf(h.elem);
    }
  }

  lemma {:induction false} PutNodes(h: Shape, e: Ptr, g: Shape)
    requires Distinct(h) && e in Nodes(h)
    requires Distinct(g) && Nodes(g) <= Nodes(At(h, e))
    ensures Distinct(Put(h, e, g))
    ensures Nodes(Put(h, e, g)) == Nodes(h) - Nodes(At(h, e)) + Nodes(g)
  {
    if h.elem == e {
    } else if e in Nodes(h.kids) {
      PutNodes(h.kids, e, g);
    } else {
      PutNodes(h.rest, e, g);
    }
  }

  lemma {:induction false} PutOrdered(h: Shape, e: Ptr, g: Shape, m: Memory)
    requires Nodes(h) <= m.Keys && Distinct(h) && e in Nodes(h) && OrderedBut(h, e, m)
    requires Distinct(g) && Nodes(g) <= Nodes(At(h, e)) - {e} && Ordered(g, m)
    ensures Nodes(Put(h, e, g)) <= m.Keys && Ordered(Put(h, e, g), m)
  {
    PutNodes(h, e, g);
    if h.elem == e {
    } else if e in Nodes(h.kids) {
      PutNodes(h.kids, e, g);
      PutOrdered(h.kids, e, g, m);
      OrderedWithout(h.rest, e, m);
    } else {
      PutOrdered(h.rest, e, g, m);
      OrderedWithout(h.kids, e, m);
    }
  }

  lemma OrderedWithout(h: Shape, ex: Ptr, m: Memory)
    requires Nodes(h) <= m.Keys && OrderedBut(h, ex, m) && ex !in Nodes(h)
    ensures Ordered(h, m)
  {
  }

  lemma OrderedExempt(h: Shape, ex: Ptr, m: Memory)
    requires Nodes(h) <= m.Keys && Ordered(h, m) && NULL !in Nodes(h)
    ensures OrderedBut(h, ex, m)
  {
  }

  /** Below and beside the exempt task there is no exemption. */
  lemma OrderedParts(h: Shape, ex: Ptr, m: Memory)
    requires Nodes(h) <= m.Keys && ex in Nodes(h) && Distinct(h) && OrderedBut(h, ex, m)
    ensures Nodes(At(h, ex).kids) <= m.Keys && Ordered(At(h, ex).kids, m)
    ensures Nodes(At(h, ex).rest) <= m.Keys && Ordered(At(h, ex).rest, m)
  {
    if h.elem == ex {
      OrderedWithout(h.kids, ex, m);
      OrderedWithout(h.rest, ex, m);
    } else if ex in Nodes(h.kids) {
      OrderedParts(h.kids, ex, m);
    } else {
      OrderedParts(h.rest, ex, m);
    }
  }

  /** Of the links of n, only the one that is the given slot may differ: in m' it holds top. */
  ghost predicate OnlySlot(n: Ptr, slot: Slot, top: Ptr, m: Memory, m': Memory) {
    && n in m && n in m'
    && m'[n].pprev == m[n].pprev
    && m'[n].next == (if slot == NextOf(n) then top else m[n].next)
    && m'[n].children == (if slot == ChildrenOf(n) then top else m[n].children)
    && m'[n].due == m[n].due && m'[n].running == m[n].running
  }

  /** Changing what one slot holds, together with whatever hangs off it, replaces exactly that part
      of the structure. */
  lemma {:induction false} PutSpells(h: Shape, p: Ptr, s: Slot, e: Ptr, g: Shape, top: Ptr, m: Memory, m': Memory)
    requires Spells(h, p, s, m) && Distinct(h) && e in Nodes(h)
    requires Spells(g, top, SlotIn(h, s, e), m')
    requires forall n :: n in Nodes(h) - Nodes(At(h, e)) ==> OnlySlot(n, SlotIn(h, s, e), top, m, m')
    ensures Spells(Put(h, e, g), if h.elem == e then top else p, s, m')
  {
    if h.elem == e {
      return;
    }
    var slot := SlotIn(h, s, e);
    assert OnlySlot(h.elem, slot, top, m, m');
    forall n | n in Nodes(h) - Nodes(At(h, e))
      ensures OnlySlot(n, slot, top, m, m')
    {
    }
    if e in Nodes(h.kids) {
      SlotOutside(h.kids, ChildrenOf(h.elem), e);
      assert slot == SlotIn(h.kids, ChildrenOf(h.elem), e);
      assert h.kids.elem == e ==> slot == ChildrenOf(h.elem);
      PutSpells(h.kids, m[h.elem].children, ChildrenOf(h.elem), e, g, top, m, m');
      forall n | n in Nodes(h.rest) ensures Same(n, m, m') {
        assert OnlySlot(n, slot, top, m, m');
      }
      OnlyOwnLinksMatter(h.rest, m[h.elem].next, NextOf(h.elem), m, m');
    } else {
      SlotOutside(h.rest, NextOf(h.elem), e);
      assert slot == SlotIn(h.rest, NextOf(h.elem), e);
      assert h.rest.elem == e ==> slot == NextOf(h.elem);
      PutSpells(h.rest, m[h.elem].next, NextOf(h.elem), e, g, top, m, m');
      forall n | n in Nodes(h.kids) ensures Same(n, m, m') {
        assert OnlySlot(n, slot, top, m, m');
      }
      OnlyOwnLinksMatter(h.kids, m[h.elem].children, ChildrenOf(h.elem), m, m');
    }
  }

  lemma BelowTop(h: Shape, due: Timespec, m: Memory)
    requires Nodes(h) <= m.Keys && h.Heap? && h.rest.Nil?
             && Distinct(h) && Ordered(h, m) && Cmp(due, m[h.elem].due) <= 0
    ensures forall x :: x in Nodes(h) ==> Cmp(due, m[x].due) <= 0
  {
    RootIsMinimum(h, m);
  }

  // ----- Linking and unlinking, as functions of the memory

  predicate SlotInMemory(s: Slot, m: Memory) {
    match s
    case NoSlot => false
    case Root => true
    case NextOf(n) => n in m
    case ChildrenOf(n) => n in m
  }

  function Stored(m: Memory, s: Slot, t: Ptr): (m': Memory)
    requires SlotInMemory(s, m)
  {
    match s
    case NextOf(n) => m[n := m[n].(next := t)]
    case ChildrenOf(n) => m[n := m[n].(children := t)]
    case _ => m
  }

  function Repointed(m: Memory, t: Ptr, s: Slot): Memory
    requires t != NULL ==> t in m
  {
    if t == NULL then m else m[t := m[t].(pprev := s)]
  }

  /** elem now comes before head, which slot s used to hold. */
  function Linked(m: Memory, s: Slot, elem: Ptr, head: Ptr): Memory
    requires SlotInMemory(s, m) && elem in m && (head != NULL ==> head in m)
  {
    Stored(Repointed(m[elem := m[elem].(pprev := s, next := head)], head, NextOf(elem)), s, elem)
  }

  /** The slot of elem now holds what followed elem. */
  function Unlinked(m: Memory, elem: Ptr): Memory
    requires elem in m && SlotInMemory(m[elem].pprev, m) && (m[elem].next != NULL ==> m[elem].next in m)
  {
    var m' := Repointed(Stored(m, m[elem].pprev, m[elem].next), m[elem].next, m[elem].pprev);
    m'[elem := m'[elem].(next := NULL)]
  }

  /** A slot that lies in memory and not in any of the given tasks. */
  ghost predicate SlotApart(s: Slot, nodes: set<Ptr>, m: Memory) {
    && SlotInMemory(s, m)
    && (s.NextOf? ==> s.prev !in nodes)
    && (s.ChildrenOf? ==> s.parent !in nodes)
  }

  /** The part r hangs off the slot s in m' as it hung off its slot in m, when only its top's pprev
      was adjusted. */
  lemma Reattached(r: Shape, s: Slot, m: Memory, m': Memory)
    requires r.Heap? && Distinct(r) && Nodes(r) <= m.Keys && Body(r, m)
    requires r.elem in m' && m'[r.elem] == m[r.elem].(pprev := s)
    requires forall n :: n in Nodes(r) && n != r.elem ==> Same(n, m, m')
    ensures Spells(r, r.elem, s, m')
  {
    OnlyOwnLinksMatter(r.kids, m[r.elem].children, ChildrenOf(r.elem), m, m');
    OnlyOwnLinksMatter(r.rest, m[r.elem].next, NextOf(r.elem), m, m');
  }

  lemma LinkedElsewhere(m: Memory, s: Slot, elem: Ptr, head: Ptr, n: Ptr)
    requires SlotInMemory(s, m) && elem in m && (head != NULL ==> head in m)
    requires n in m && n != elem && (head != NULL ==> n != head)
    ensures OnlySlot(n, s, elem, m, Linked(m, s, elem, head))
  {
  }

  ghost predicate SameData(m: Memory, m': Memory) {
    m'.Keys == m.Keys && forall n :: n in m ==> m'[n].due == m[n].due && m'[n].running == m[n].running
  }

  lemma LinkedData(m: Memory, s: Slot, elem: Ptr, head: Ptr)
    requires SlotInMemory(s, m) && elem in m && (head != NULL ==> head in m)
    ensures SameData(m, Linked(m, s, elem, head))
  {
  }

  /** Linking puts elem, a heap with the children k, in front of the siblings r that s leads to. */
  lemma LinkedSpells(m: Memory, s: Slot, elem: Ptr, head: Ptr, k: Shape, r: Shape)
    requires Distinct(Heap(elem, k, r)) && Nodes(Heap(elem, k, r)) <= m.Keys
    requires SlotApart(s, Nodes(Heap(elem, k, r)), m)
    requires Spells(r, head, s, m) && Body(Heap(elem, k, Nil), m)
    ensures Spells(Heap(elem, k, r), elem, s, Linked(m, s, elem, head))
  {
    var m' := Linked(m, s, elem, head);
    forall n | n in Nodes(k) || (n in Nodes(r) && n != head) ensures Same(n, m, m') {
      LinkedElsewhere(m, s, elem, head, n);
    }
    OnlyOwnLinksMatter(k, m[elem].children, ChildrenOf(elem), m, m');
    if r.Heap? { Reattached(r, NextOf(elem), m, m'); }
  }

  lemma UnlinkedElsewhere(m: Memory, elem: Ptr, n: Ptr)
    requires elem in m && SlotInMemory(m[elem].pprev, m) && (m[elem].next != NULL ==> m[elem].next in m)
    requires n in m && n != elem && (m[elem].next != NULL ==> n != m[elem].next)
    ensures OnlySlot(n, m[elem].pprev, m[elem].next, m, Unlinked(m, elem))
  {
  }

  lemma UnlinkedData(m: Memory, elem: Ptr)
    requires elem in m && SlotInMemory(m[elem].pprev, m) && (m[elem].next != NULL ==> m[elem].next in m)
    ensures SameData(m, Unlinked(m, elem)) && Unlinked(m, elem)[elem].next == NULL
  {
  }

  /** Unlinking takes elem, which keeps its children, out of the slot that holds it. */
  lemma UnlinkedSpells(m: Memory, elem: Ptr, k: Shape, r: Shape)
    requires Distinct(Heap(elem, k, r)) && Nodes(Heap(elem, k, r)) <= m.Keys
    requires SlotApart(m[elem].pprev, Nodes(Heap(elem, k, r)), m)
    requires Spells(k, m[elem].children, ChildrenOf(elem), m) && Spells(r, m[elem].next, NextOf(elem), m)
    ensures Spells(r, m[elem].next, m[elem].pprev, Unlinked(m, elem))
    ensures Body(Heap(elem, k, Nil), Unlinked(m, elem))
  {
    var m' := Unlinked(m, elem);
    forall n | n in Nodes(k) || (n in Nodes(r) && n != m[elem].next) ensures Same(n, m, m') {
      UnlinkedElsewhere(m, elem, n);
    }
    OnlyOwnLinksMatter(k, m[elem].children, ChildrenOf(elem), m, m');
    if r.Heap? { Reattached(r, m[elem].pprev, m, m'); }
  }

  // ----- What a heap operation may touch

  /** Between m and m' at most the links of the tasks in s changed. */
  ghost predicate OnlyLinks(m: Memory, m': Memory, s: set<Ptr>) {
    && m'.Keys == m.Keys
    && forall n :: n in m ==> m'[n].due == m[n].due && m'[n].running == m[n].running && (n !in s ==> m'[n] == m[n])
  }

  /** What removal starts from: the queue is in order, save that elem's due time is arbitrary. */
  ghost predicate Removable(m: Memory, queue: Ptr, h: Shape, elem: Ptr) {
    && Nodes(h) <= m.Keys && Distinct(h) && Spells(h, queue, Root, m) && (h.Heap? ==> h.rest.Nil?)
    && OrderedBut(h, elem, m)
  }

  lemma SlotOfRemovable(m: Memory, queue: Ptr, h: Shape, elem: Ptr)
    requires Removable(m, queue, h, elem) && elem in Nodes(h)
    ensures var sub, slot := At(h, elem), m[elem].pprev;
      && slot == SlotIn(h, Root, elem) && (slot == Root <==> h.elem == elem)
      && SlotApart(slot, Nodes(sub), m) && Leads(slot, elem, m) && (slot == Root ==> queue == elem)
      && (slot.NextOf? ==> slot.prev in Nodes(h)) && (slot.ChildrenOf? ==> slot.parent in Nodes(h))
      && Distinct(sub) && Body(sub, m) && sub.elem == elem && Nodes(sub) <= Nodes(h)
      && Spells(sub.rest, m[elem].next, NextOf(elem), m)
      && (m[elem].next != NULL ==> m[elem].next in Nodes(sub.rest))
  {
    PprevHoldsNode(h, queue, Root, elem, m);
    SlotOutside(h, Root, elem);
    assert Body(At(h, elem), m);
  }

  /** Once elem is unlinked its children are a list of their own, and its slot leads to what
      followed it. */
  lemma Detaching(m: Memory, queue: Ptr, h: Shape, elem: Ptr)
    requires Removable(m, queue, h, elem) && elem in Nodes(h)
    requires SlotInMemory(m[elem].pprev, m) && (m[elem].next != NULL ==> m[elem].next in m)
    ensures var sub, m' := At(h, elem), Unlinked(m, elem);
      && Forest(sub.kids, m') && Spells(sub.kids, m'[elem].children, ChildrenOf(elem), m')
      && Spells(sub.rest, m[elem].next, m[elem].pprev, m')
      && SameData(m, m')
  {
    var sub, m' := At(h, elem), Unlinked(m, elem);
    SlotOfRemovable(m, queue, h, elem);
    assert sub == Heap(elem, sub.kids, sub.rest);
    UnlinkedSpells(m, elem, sub.kids, sub.rest);
    UnlinkedData(m, elem);
    OrderedParts(h, elem, m);
    OnlyDueMatters(sub.kids, NULL, m, m');
  }

  /** A single heap t, if any, followed by the list r. */
  ghost function Joined(t: Shape, r: Shape): Shape {
    if t.Nil? then r else Heap(t.elem, t.kids, r)
  }

  /** The value held by a slot other than the root. */
  ghost predicate Leads(s: Slot, p: Ptr, m: Memory) {
    && SlotInMemory(s, m)
    && (s.NextOf? ==> m[s.prev].next == p)
    && (s.ChildrenOf? ==> m[s.parent].children == p)
  }

  /** The memory after the merged children, if any, were linked where elem used to be. */
  function Relinked(m: Memory, s: Slot, merged: Ptr, next: Ptr): Memory
    requires SlotInMemory(s, m) && (merged != NULL ==> merged in m) && (next != NULL ==> next in m)
  {
    if merged == NULL then m else Linked(m, s, merged, next)
  }

  /** The steps of a removal up to the point where the children of elem are one heap t again. */
  ghost predicate Detached(m0: Memory, m1: Memory, m2: Memory, queue: Ptr, h: Shape, elem: Ptr, t: Shape, merged: Ptr) {
    && Removable(m0, queue, h, elem) && elem in Nodes(h)
    && SlotInMemory(m0[elem].pprev, m0) && (m0[elem].next != NULL ==> m0[elem].next in m0)
    && m1 == Unlinked(m0, elem) && OnlyLinks(m1, m2, Nodes(At(h, elem).kids))
    && Tree(t, merged, m2) && Nodes(t) == Nodes(At(h, elem).kids)
  }

  /** Outside the part that starts at elem, unlinking elem and merging its children changed only the
      slot that held elem. */
  lemma DetachedElsewhere(m0: Memory, m1: Memory, m2: Memory, queue: Ptr, h: Shape, elem: Ptr, t: Shape,
                          merged: Ptr, n: Ptr)
    requires Detached(m0, m1, m2, queue, h, elem, t, merged) && n in m0 && n !in Nodes(At(h, elem))
    ensures OnlySlot(n, m0[elem].pprev, m0[elem].next, m0, m2)
  {
    SlotOfRemovable(m0, queue, h, elem);
    UnlinkedElsewhere(m0, elem, n);
  }

  /** The slot of elem leads on, and the merged children can be linked there. */
  lemma Linkable(m0: Memory, m1: Memory, m2: Memory, queue: Ptr, h: Shape, elem: Ptr, t: Shape, merged: Ptr)
    requires Detached(m0, m1, m2, queue, h, elem, t, merged)
    ensures var slot, next := m0[elem].pprev, m0[elem].next;
      && Leads(slot, next, m2) && (next != NULL ==> next in m2)
      && (merged != NULL ==> merged in m2 && m2[merged].next == NULL && slot != NextOf(merged))
  {
    var slot := m0[elem].pprev;
    SlotOfRemovable(m0, queue, h, elem);
    if slot.NextOf? { DetachedElsewhere(m0, m1, m2, queue, h, elem, t, merged, slot.prev); }
    if slot.ChildrenOf? { DetachedElsewhere(m0, m1, m2, queue, h, elem, t, merged, slot.parent); }
    if merged != NULL { TopOfTree(t, merged, m2); }
  }

  /** Linking the merged children there leads from the slot through them to what followed elem. */
  lemma Reattaching(m0: Memory, m1: Memory, m2: Memory, queue: Ptr, h: Shape, elem: Ptr, t: Shape, merged: Ptr)
    requires Detached(m0, m1, m2, queue, h, elem, t, merged)
    requires SlotInMemory(m0[elem].pprev, m2) && (m0[elem].next != NULL ==> m0[elem].next in m2)
    requires merged != NULL ==> merged in m2
    ensures var slot, next, sub := m0[elem].pprev, m0[elem].next, At(h, elem);
      var m3, part := Relinked(m2, slot, merged, next), Joined(t, sub.rest);
      && Spells(part, if merged == NULL then next else merged, slot, m3)
      && Distinct(part) && Nodes(part) == Nodes(sub) - {elem}
  {
    var slot, next, sub := m0[elem].pprev, m0[elem].next, At(h, elem);
    SlotOfRemovable(m0, queue, h, elem);
    Detaching(m0, queue, h, elem);
    Untouched(sub.rest, m1, m2, Nodes(sub.kids));
    OnlyOwnLinksMatter(sub.rest, next, slot, m1, m2);
    if merged != NULL {
      TopOfTree(t, merged, m2);
      LinkedSpells(m2, slot, merged, next, t.kids, sub.rest);
    }
  }

  lemma ReattachedOrder(m0: Memory, m1: Memory, m2: Memory, queue: Ptr, h: Shape, elem: Ptr, t: Shape, merged: Ptr)
    requires Detached(m0, m1, m2, queue, h, elem, t, merged)
    ensures Nodes(Joined(t, At(h, elem).rest)) <= m0.Keys && Ordered(Joined(t, At(h, elem).rest), m0)
  {
    SlotOfRemovable(m0, queue, h, elem);
    Detaching(m0, queue, h, elem);
    OrderedParts(h, elem, m0);
    OnlyDueMatters(t, NULL, m0, m2);
  }

  /** Over the whole removal, tasks outside the part that started at elem saw at most one link of
      theirs change, and tasks outside the queue none. */
  lemma ReattachedElsewhere(m0: Memory, m1: Memory, m2: Memory, queue: Ptr, h: Shape, elem: Ptr, t: Shape,
                            merged: Ptr, n: Ptr)
    requires Detached(m0, m1, m2, queue, h, elem, t, merged) && n in m0 && n !in Nodes(At(h, elem))
    requires SlotInMemory(m0[elem].pprev, m2) && (m0[elem].next != NULL ==> m0[elem].next in m2)
    requires merged != NULL ==> merged in m2
    ensures var slot, top := m0[elem].pprev, if merged == NULL then m0[elem].next else merged;
      var m3 := Relinked(m2, slot, merged, m0[elem].next);
      && OnlySlot(n, slot, top, m0, m3) && (n !in Nodes(h) ==> m3[n] == m0[n])
  {
    SlotOfRemovable(m0, queue, h, elem);
    DetachedElsewhere(m0, m1, m2, queue, h, elem, t, merged, n);
    if merged != NULL {
      assert merged in Nodes(t) && Nodes(t) <= Nodes(At(h, elem));
      LinkedElsewhere(m2, m0[elem].pprev, merged, m0[elem].next, n);
    }
  }

  lemma ReattachedData(m0: Memory, m1: Memory, m2: Memory, queue: Ptr, h: Shape, elem: Ptr, t: Shape, merged: Ptr)
    requires Detached(m0, m1, m2, queue, h, elem, t, merged)
    requires SlotInMemory(m0[elem].pprev, m2) && (m0[elem].next != NULL ==> m0[elem].next in m2)
    requires merged != NULL ==> merged in m2
    ensures var m3 := Relinked(m2, m0[elem].pprev, merged, m0[elem].next);
      && SameData(m0, m3) && OnlyLinks(m0, m3, Nodes(h)) && m3[elem].next == NULL
      && forall n :: n in m0 && n !in Nodes(At(h, elem)) ==>
           OnlySlot(n, m0[elem].pprev, if merged == NULL then m0[elem].next else merged, m0, m3)
  {
    SlotOfRemovable(m0, queue, h, elem);
    UnlinkedData(m0, elem);
    if merged != NULL { LinkedData(m2, m0[elem].pprev, merged, m0[elem].next); }
    forall n | n in m0 && n !in Nodes(At(h, elem)) {
      ReattachedElsewhere(m0, m1, m2, queue, h, elem, t, merged, n);
    }
  }

  lemma WipedLinks(m: Memory, m': Memory, elem: Ptr, s: set<Ptr>)
    requires OnlyLinks(m, m', s) && elem in s && elem in m'
    ensures OnlyLinks(m, m'[elem := m'[elem].(pprev := NoSlot, children := NULL)], s)
  {
  }

  /** The whole removal. */
  lemma Removed(m0: Memory, m1: Memory, m2: Memory, queue: Ptr, h: Shape, elem: Ptr, t: Shape, merged: Ptr)
    requires Detached(m0, m1, m2, queue, h, elem, t, merged)
    requires SlotInMemory(m0[elem].pprev, m2) && (m0[elem].next != NULL ==> m0[elem].next in m2)
    requires merged != NULL ==> merged in m2
    ensures var m3 := Relinked(m2, m0[elem].pprev, merged, m0[elem].next);
      && elem in m3 && m3[elem].next == NULL
      && var m4 := m3[elem := m3[elem].(pprev := NoSlot, children := NULL)];
      var g := Put(h, elem, Joined(t, At(h, elem).rest));
      var queue' := if m0[elem].pprev != Root then queue else if merged == NULL then m0[elem].next else merged;
      && Tree(g, queue', m4) && Spells(g, queue', Root, m4) && Nodes(g) == Nodes(h) - {elem}
      && OnlyLinks(m0, m4, Nodes(h))
  {
    SlotOfRemovable(m0, queue, h, elem);
    Reattaching(m0, m1, m2, queue, h, elem, t, merged);
    ReattachedOrder(m0, m1, m2, queue, h, elem, t, merged);
    ReattachedData(m0, m1, m2, queue, h, elem, t, merged);
    var m3 := Relinked(m2, m0[elem].pprev, merged, m0[elem].next);
    var top := if merged == NULL then m0[elem].next else merged;
    var part := Joined(t, At(h, elem).rest);
    assert h.elem == elem ==> part.Nil? || part.rest.Nil?;
    Replaced(m0, queue, h, elem, m0[elem].pprev, part, top, m3);
    WipedLinks(m0, m3, elem, Nodes(h));
  }

  /** Wiping elem's own links completes its removal: what is left is h with the part that started at
      elem replaced. */
  lemma Replaced(m0: Memory, queue: Ptr, h: Shape, elem: Ptr, slot: Slot, part: Shape, top: Ptr, m3: Memory)
    requires Removable(m0, queue, h, elem) && elem in Nodes(h) && SameData(m0, m3)
    requires Distinct(part) && Nodes(part) == Nodes(At(h, elem)) - {elem} && Ordered(part, m0)
    requires h.elem == elem ==> part.Nil? || part.rest.Nil?
    requires slot == SlotIn(h, Root, elem) && Spells(part, top, slot, m3)
    requires forall n :: n in m0 && n !in Nodes(At(h, elem)) ==> OnlySlot(n, slot, top, m0, m3)
    ensures var m4 := m3[elem := m3[elem].(pprev := NoSlot, children := NULL)];
      var g, queue' := Put(h, elem, part), if h.elem == elem then top else queue;
      && Tree(g, queue', m4) && Spells(g, queue', Root, m4) && Nodes(g) == Nodes(h) - {elem}
  {
    var m4 := m3[elem := m3[elem].(pprev := NoSlot, children := NULL)];
    OnlyOwnLinksMatter(part, top, slot, m3, m4);
    PutSpells(h, queue, Root, elem, part, top, m0, m4);
    PutNodes(h, elem, part);
    PutOrdered(h, elem, part, m0);
    OnlyDueMatters(Put(h, elem, part), NULL, m0, m4);
  }

  lemma Crowned(m: Memory, g: Shape, top: Ptr)
    requires top != NULL && Tree(g, top, m)
    ensures var m' := m[top := m[top].(pprev := Root)]; Tree(g, top, m') && Spells(g, top, Root, m')
  {
    TopOfTree(g, top, m);
    var m' := m[top := m[top].(pprev := Root)];
    OnlyOwnLinksMatter(g.kids, m[top].children, ChildrenOf(top), m, m');
    OnlyDueMatters(g, NULL, m, m');
  }

  lemma UnlinkedIsOutside(h: Shape, queue: Ptr, m: Memory, elem: Ptr)
    requires Spells(h, queue, Root, m) && Distinct(h) && elem in m && m[elem].pprev == NoSlot
    ensures elem !in Nodes(h)
  {
    if elem in Nodes(h) {
      PprevHoldsNode(h, queue, Root, elem, m);
      SlotOutside(h, Root, elem);
    }
  }

  lemma OnlyLinksChain(m: Memory, m': Memory, m'': Memory, part: set<Ptr>, whole: set<Ptr>)
    requires OnlyLinks(m, m', whole) && OnlyLinks(m', m'', part) && part <= whole
    ensures OnlyLinks(m, m'', whole)
  {
  }

  /** Hanging hi under lo, where lo is not due later, gives one heap of both. */
  lemma MergedTree(m: Memory, lo: Ptr, hi: Ptr, l: Shape, g: Shape)
    requires lo != NULL && hi != NULL && Tree(l, lo, m) && Tree(g, hi, m) && Nodes(l) !! Nodes(g)
    requires Cmp(m[lo].due, m[hi].due) <= 0 && (m[lo].children != NULL ==> m[lo].children in m)
    ensures var m' := Linked(m, ChildrenOf(lo), hi, m[lo].children); var h := Heap(lo, Heap(hi, g.kids, l.kids), Nil);
      Tree(h, lo, m') && Nodes(h) == Nodes(l) + Nodes(g) && OnlyLinks(m, m', Nodes(l) + Nodes(g))
  {
    var m' := Linked(m, ChildrenOf(lo), hi, m[lo].children);
    var h := Heap(lo, Heap(hi, g.kids, l.kids), Nil);
    TopOfTree(l, lo, m);
    TopOfTree(g, hi, m);
    LinkedSpells(m, ChildrenOf(lo), hi, m[lo].children, g.kids, l.kids);
    forall n | n in m ensures m'[n].due == m[n].due && m'[n].running == m[n].running {
    }
    MergedOrder(m, l, g);
    OnlyDueMatters(h, NULL, m, m');
  }

  lemma MergedOrder(m: Memory, l: Shape, g: Shape)
    requires Nodes(l) <= m.Keys && Nodes(g) <= m.Keys && Ordered(l, m) && Ordered(g, m)
    requires Distinct(l) && Distinct(g)
    requires l.Heap? && l.rest.Nil? && g.Heap? && g.rest.Nil? && Cmp(m[l.elem].due, m[g.elem].due) <= 0
    ensures Ordered(Heap(l.elem, Heap(g.elem, g.kids, l.kids), Nil), m)
  {
    BelowTop(g, m[l.elem].due, m);
    RootIsMinimum(l, m);
  }

  /** Clearing the sibling link of the first heap of a list separates it from the others. */
  lemma Cut(m: Memory, h: Shape)
    requires Forest(h, m) && h.Heap?
    ensures var m' := m[h.elem := m[h.elem].(next := NULL)];
      && Tree(Heap(h.elem, h.kids, Nil), h.elem, m') && Forest(h.rest, m')
      && Spells(h.rest, m[h.elem].next, NextOf(h.elem), m')
      && OnlyLinks(m, m', {h.elem})
  {
    var m' := m[h.elem := m[h.elem].(next := NULL)];
    OnlyOwnLinksMatter(h.kids, m[h.elem].children, ChildrenOf(h.elem), m, m');
    OnlyOwnLinksMatter(h.rest, m[h.elem].next, NextOf(h.elem), m, m');
    OnlyDueMatters(h, NULL, m, m');
  }

  lemma PairPieces(h: Shape)
    requires h.Heap? && h.rest.Heap? && Distinct(h)
    ensures var h0, h1, h2 := Heap(h.elem, h.kids, Nil), Heap(h.rest.elem, h.rest.kids, Nil), h.rest.rest;
      && Nodes(h) == Nodes(h0) + Nodes(h1) + Nodes(h2)
      && Nodes(h0) !! Nodes(h1) && Nodes(h2) !! (Nodes(h0) + Nodes(h1))
  {
    assert Nodes(h.rest) == {h.rest.elem} + Nodes(h.rest.kids) + Nodes(h.rest.rest);
  }

  lemma CutPair(m: Memory, h: Shape)
    requires Forest(h, m) && h.Heap? && h.rest.Heap?
    ensures var m' := m[h.elem := m[h.elem].(next := NULL)][h.rest.elem := m[h.rest.elem].(next := NULL)];
      && Tree(Heap(h.elem, h.kids, Nil), h.elem, m')
      && Tree(Heap(h.rest.elem, h.rest.kids, Nil), h.rest.elem, m')
      && Forest(h.rest.rest, m') && OnlyLinks(m, m', Nodes(h))
      && Spells(h.rest.rest, m[h.rest.elem].next, NextOf(h.rest.elem), m')
  {
    Cut(m, h);
    var m0 := m[h.elem := m[h.elem].(next := NULL)];
    Cut(m0, h.rest);
    var m' := m0[h.rest.elem := m[h.rest.elem].(next := NULL)];
    Untouched(Heap(h.elem, h.kids, Nil), m0, m', {h.rest.elem});
    OnlyLinksChain(m, m0, m', {h.rest.elem}, {h.elem, h.rest.elem});
  }

  /** What happens elsewhere leaves a structure alone. */
  lemma Untouched(h: Shape, m: Memory, m': Memory, s: set<Ptr>)
    requires OnlyLinks(m, m', s) && Nodes(h) !! s && Nodes(h) <= m.Keys
    ensures Body(h, m) <==> Body(h, m')
    ensures Ordered(h, m) <==> Ordered(h, m')
    ensures forall n :: n in Nodes(h) ==> Same(n, m, m')
  {
    OnlyOwnLinksMatter(h, NULL, NoSlot, m, m');
    OnlyDueMatters(h, NULL, m, m');
  }

  /** Only the tasks in the queue matter to the queue. */
  lemma Kept(queue: Ptr, m: Memory, m': Memory, h: Shape)
    requires Holds(queue, m, h) && forall n :: n in Nodes(h) ==> Same(n, m, m')
    ensures Holds(queue, m', h)
  {
    OnlyOwnLinksMatter(h, queue, Root, m, m');
    forall n | n in Nodes(h) ensures n in m' {
      assert Same(n, m, m');
    }
    OnlyDueMatters(h, NULL, m, m');
  }

  /** A task of the queue stays removable when its due time is changed under the queue's feet. */
  lemma StaysRemovable(queue: Ptr, m: Memory, h: Shape, elem: Ptr, due: Timespec)
    requires Holds(queue, m, h) && elem in m
    ensures Removable(m[elem := m[elem].(due := due)], queue, h, elem)
  {
    var m' := m[elem := m[elem].(due := due)];
    NullIsNoNode(h);
    OrderedExempt(h, elem, m);
    OnlyLinksMatter(h, queue, Root, m, m');
    OnlyDueMatters(h, elem, m, m');
  }
}
