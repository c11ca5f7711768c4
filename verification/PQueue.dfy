/** The receive buffer (src/pqueue.c): a binary heap in an array.  Entries sink along the children
    2i+1 and 2i+2, but rise along the parent i/2, which is a different tree. */
module PQueue {
  import opened Chunk

  function Swapped(s: seq<Entry>, i: nat, j: nat): seq<Entry>
    requires i < |s| && j < |s|
  {
    s[i := s[j]][j := s[i]]
  }

  /** Raises the entry at i while it plays before the one at i/2. */
  function SiftUp(s: seq<Entry>, i: nat): (r: seq<Entry>)
    requires i < |s|
    ensures |r| == |s|
    decreases i
  {
    if i > 0 && ReceivebufferCmp(s[i], s[i / 2]) > 0 then SiftUp(Swapped(s, i, i / 2), i / 2) else s
  }

  /** A full buffer turns the entry away. */
  function Enqueue(s: seq<Entry>, x: Entry, capacity: nat): seq<Entry> {
    if |s| >= capacity then s else SiftUp(s + [x], |s|)
  }

  function Largest(s: seq<Entry>, i: nat): (g: nat)
    requires i < |s|
    ensures i <= g < |s| && (g != i ==> g == 2 * i + 1 || g == 2 * i + 2)
  {
    var l, r := 2 * i + 1, 2 * i + 2;
    var g := if l < |s| && ReceivebufferCmp(s[l], s[i]) > 0 then l else i;
    if r < |s| && ReceivebufferCmp(s[r], s[g]) > 0 then r else g
  }

  function Heapify(s: seq<Entry>, i: nat): (r: seq<Entry>)
    requires i < |s|
    ensures |r| == |s|
    decreases |s| - i
  {
    var g := Largest(s, i);
    if g != i then Heapify(Swapped(s, g, i), g) else s
  }

  /** What is left after the root was taken. */
  function Dequeue(s: seq<Entry>): (r: seq<Entry>)
    requires |s| > 0
    ensures |r| == |s| - 1
  {
    var rest := s[0 := s[|s| - 1]][..|s| - 1];
    if rest == [] then [] else Heapify(rest, 0)
  }

  class PQueue {
    var data: array<Entry>
    var size: nat
    const capacity: nat

    ghost predicate Valid()
      reads this
    {
      data.Length == capacity && size <= capacity
    }

    ghost function Contents(): seq<Entry>
      requires Valid()
      reads this, data
    {
      data[..size]
    }

    constructor (capacity: nat)
      ensures Valid() && fresh(data) && this.capacity == capacity && Contents() == []
    {
      this.capacity := capacity;
      data := new Entry[capacity](_ => Entry(0, PcmChunk(0, 0, 0, 0, 0, 0, []), false));
      size := 0;
    }

    method EnqueueEntry(x: Entry)
      requires Valid()
      modifies this`size, data
      ensures Valid() && Contents() == Enqueue(old(Contents()), x, capacity)
    {
      if size >= capacity { return; }
      data[size] := x;
      var i := size;
      size := size + 1;
      assert data[..size] == old(data[..size]) + [x];
      while 0 < i && ReceivebufferCmp(data[i], data[i / 2]) > 0
        invariant 0 <= i < size <= data.Length
        invariant SiftUp(data[..size], i) == SiftUp(old(data[..size]) + [x], old(size))
      {
        ghost var s := data[..size];
        data[i], data[i / 2] := data[i / 2], data[i];
        assert data[..size] == Swapped(s, i, i / 2);
        i := i / 2;
      }
    }

    method Peek() returns (x: Entry, found: bool)
      requires Valid()
      ensures found == (Contents() != []) && (found ==> x == Contents()[0])
    {
      if size < 1 { return Entry(0, PcmChunk(0, 0, 0, 0, 0, 0, []), false), false; }
      return data[0], true;
    }

    method DequeueEntry() returns (x: Entry, found: bool)
      requires Valid()
      modifies this`size, data
      ensures Valid() && found == (old(Contents()) != [])
      ensures if found then x == old(Contents())[0] && Contents() == Dequeue(old(Contents()))
              else Contents() == old(Contents())
    {
      x, found := Peek();
      if found {
        ghost var s := data[..size];
        data[0] := data[size - 1];
        size := size - 1;
        assert data[..size] == s[0 := s[|s| - 1]][..|s| - 1];
        if size > 0 { HeapifyAt(0); }
      }
    }

    method HeapifyAt(idx: nat)
      requires Valid() && idx < size
      modifies data
      ensures data[..size] == Heapify(old(data[..size]), idx)
      decreases size - idx
    {
      hide ReceivebufferCmp;
      ghost var s := data[..size];
      var l, r := 2 * idx + 1, 2 * idx + 2;
      var largest := idx;
      if l < size && ReceivebufferCmp(data[l], data[idx]) > 0 { largest := l; }
      if r < size && ReceivebufferCmp(data[r], data[largest]) > 0 { largest := r; }
      assert largest == Largest(s, idx);
      if largest != idx {
        data[largest], data[idx] := data[idx], data[largest];
        assert data[..size] == Swapped(s, largest, idx);
        HeapifyAt(largest);
      }
    }
  }

  // ----- Nothing is lost and nothing is made up

  lemma SwapConserves(s: seq<Entry>, i: nat, j: nat)
    requires i < |s| && j < |s|
    ensures multiset(Swapped(s, i, j)) == multiset(s)
  {
  }

  lemma {:induction false} SiftUpConserves(s: seq<Entry>, i: nat)
    requires i < |s|
    ensures multiset(SiftUp(s, i)) == multiset(s)
    decreases i
  {
    if i > 0 && ReceivebufferCmp(s[i], s[i / 2]) > 0 {
      SwapConserves(s, i, i / 2);
      SiftUpConserves(Swapped(s, i, i / 2), i / 2);
    }
  }

  lemma {:induction false} HeapifyConserves(s: seq<Entry>, i: nat)
    requires i < |s|
    ensures multiset(Heapify(s, i)) == multiset(s)
    decreases |s| - i
  {
    var g := Largest(s, i);
    if g != i {
      SwapConserves(s, g, i);
      HeapifyConserves(Swapped(s, g, i), g);
    }
  }

  lemma EnqueueConserves(s: seq<Entry>, x: Entry, capacity: nat)
    ensures multiset(Enqueue(s, x, capacity)) == multiset(s) + (if |s| >= capacity then multiset{} else multiset{x})
    ensures |s| <= capacity ==> |Enqueue(s, x, capacity)| <= capacity
  {
    if |s| < capacity { SiftUpConserves(s + [x], |s|); }
  }

  lemma DequeueConserves(s: seq<Entry>)
    requires |s| > 0
    ensures multiset(Dequeue(s)) + multiset{s[0]} == multiset(s)
  {
    hide Heapify;
    var moved := s[0 := s[|s| - 1]];
    var rest := moved[..|s| - 1];
    assert s == s[..|s| - 1] + [s[|s| - 1]];
    if rest != [] {
      HeapifyConserves(rest, 0);
      assert rest == [s[|s| - 1]] + s[1..|s| - 1];
      assert s == [s[0]] + s[1..|s| - 1] + [s[|s| - 1]];
    } else {
      assert s == [s[0]];
    }
  }

  // ----- Runs of arrivals and departures

  datatype Op = Arrive(x: Entry) | Depart

  /** The buffer after one operation on it. */
  function Next(s: seq<Entry>, op: Op, capacity: nat): seq<Entry> {
    match op
    case Arrive(x) => Enqueue(s, x, capacity)
    case Depart => if s == [] then [] else Dequeue(s)
  }

  function Accepted(s: seq<Entry>, op: Op, capacity: nat): seq<Entry> {
    if op.Arrive? && |s| < capacity then [op.x] else []
  }

  function Taken(s: seq<Entry>, op: Op): seq<Entry> {
    if op.Depart? && s != [] then [s[0]] else []
  }

  /** The buffer after the first k operations of a run that starts with s. */
  function After(s: seq<Entry>, ops: seq<Op>, capacity: nat, k: nat): seq<Entry>
    requires k <= |ops|
  {
    if k == 0 then s else Next(After(s, ops, capacity, k - 1), ops[k - 1], capacity)
  }

  /** What these operations let into the buffer, in order. */
  function LetIn(s: seq<Entry>, ops: seq<Op>, capacity: nat, k: nat): seq<Entry>
    requires k <= |ops|
  {
    if k == 0 then []
    else LetIn(s, ops, capacity, k - 1) + Accepted(After(s, ops, capacity, k - 1), ops[k - 1], capacity)
  }

  /** What they took out of it, in order. */
  function GivenOut(s: seq<Entry>, ops: seq<Op>, capacity: nat, k: nat): seq<Entry>
    requires k <= |ops|
  {
    if k == 0 then []
    else GivenOut(s, ops, capacity, k - 1) + Taken(After(s, ops, capacity, k - 1), ops[k - 1])
  }

  lemma NextConserves(s: seq<Entry>, op: Op, capacity: nat)
    requires |s| <= capacity
    ensures |Next(s, op, capacity)| <= capacity
    ensures multiset(Next(s, op, capacity)) + multiset(Taken(s, op))
         == multiset(s) + multiset(Accepted(s, op, capacity))
  {
    match op
    case Arrive(x) => EnqueueConserves(s, x, capacity);
    case Depart => if s != [] { DequeueConserves(s); }
  }

  /** Two steps that each balance what goes in and out balance together. */
  lemma Chain<T>(s0: multiset<T>, s1: multiset<T>, s2: multiset<T>, out1: multiset<T>, out2: multiset<T>,
                 in1: multiset<T>, in2: multiset<T>)
    requires s1 + out1 == s0 + in1 && s2 + out2 == s1 + in2
    ensures s2 + (out1 + out2) == s0 + (in1 + in2)
  {
    calc {
      s2 + (out1 + out2);
      (s2 + out2) + out1;
      (s1 + in2) + out1;
      (s1 + out1) + in2;
      (s0 + in1) + in2;
      s0 + (in1 + in2);
    }
  }

  /** At any point of any run, what is buffered and what was taken is what was there and what was let
      in; the capacity is never exceeded. */
  lemma {:induction false} RunConserves(s: seq<Entry>, ops: seq<Op>, capacity: nat, k: nat)
    requires |s| <= capacity && k <= |ops|
    ensures |After(s, ops, capacity, k)| <= capacity
    ensures multiset(After(s, ops, capacity, k)) + multiset(GivenOut(s, ops, capacity, k))
         == multiset(s) + multiset(LetIn(s, ops, capacity, k))
  {
    if k > 0 {
      RunConserves(s, ops, capacity, k - 1);
      var s1, op := After(s, ops, capacity, k - 1), ops[k - 1];
      var out1, in1 := GivenOut(s, ops, capacity, k - 1), LetIn(s, ops, capacity, k - 1);
      NextConserves(s1, op, capacity);
      assert multiset(out1 + Taken(s1, op)) == multiset(out1) + multiset(Taken(s1, op));
      assert multiset(in1 + Accepted(s1, op, capacity)) == multiset(in1) + multiset(Accepted(s1, op, capacity));
      Chain(multiset(s), multiset(s1), multiset(Next(s1, op, capacity)), multiset(out1), multiset(Taken(s1, op)),
            multiset(in1), multiset(Accepted(s1, op, capacity)));
    }
  }

  // ----- Order

  /** e plays no later than anything in s. */
  ghost predicate Earliest(e: Entry, s: seq<Entry>) {
    forall x :: x in s ==> Key(e) <= Key(x)
  }

  /** The order the rising entries keep. */
  ghost predicate HalfHeap(s: seq<Entry>) {
    forall i :: 0 < i < |s| ==> Key(s[i / 2]) <= Key(s[i])
  }

  /** The children of i do not play before key. */
  ghost predicate ChildrenFrom(s: seq<Entry>, i: nat, key: nat) {
    && (2 * i + 1 < |s| ==> key <= Key(s[2 * i + 1]))
    && (2 * i + 2 < |s| ==> key <= Key(s[2 * i + 2]))
  }

  /** The order the sinking entries rely on. */
  ghost predicate TreeHeap(s: seq<Entry>) {
    forall i {:trigger TidyAt(s, i)} :: 0 <= i < |s| ==> TidyAt(s, i)
  }

  ghost predicate TidyAt(s: seq<Entry>, i: nat)
    requires i < |s|
  {
    ChildrenFrom(s, i, Key(s[i]))
  }

  lemma {:induction false} HalfRoot(s: seq<Entry>, i: nat)
    requires HalfHeap(s) && i < |s|
    ensures Key(s[0]) <= Key(s[i])
    decreases i
  {
    if i > 0 { HalfRoot(s, i / 2); }
  }

  lemma {:induction false} TreeRoot(s: seq<Entry>, i: nat)
    requires TreeHeap(s) && i < |s|
    ensures Key(s[0]) <= Key(s[i])
    decreases i
  {
    if i > 0 {
      var p := (i - 1) / 2;
      assert TidyAt(s, p);
      TreeRoot(s, p);
    }
  }

  /** While nothing departs, arrivals keep the i/2 order ... */
  lemma {:induction false} SiftUpHalf(s: seq<Entry>, i: nat)
    requires i < |s|
    requires forall j :: 0 < j < |s| && j != i ==> Key(s[j / 2]) <= Key(s[j])
    requires forall j :: 0 < j < |s| && j / 2 == i && i > 0 ==> Key(s[i / 2]) <= Key(s[j])
    ensures HalfHeap(SiftUp(s, i))
    decreases i
  {
    if i > 0 {
      CmpIsKeyOrder(s[i], s[i / 2]);
      if ReceivebufferCmp(s[i], s[i / 2]) > 0 { SiftUpHalf(Swapped(s, i, i / 2), i / 2); }
    }
  }

  /** ... so that in a run of arrivals alone the first entry always plays earliest. */
  lemma {:induction false} ArrivalsKeepEarliestFirst(s: seq<Entry>, ops: seq<Op>, capacity: nat, k: nat)
    requires HalfHeap(s) && k <= |ops| && forall i :: 0 <= i < |ops| ==> ops[i].Arrive?
    ensures var s' := After(s, ops, capacity, k); HalfHeap(s') && (s' != [] ==> Earliest(s'[0], s'))
  {
    var s' := After(s, ops, capacity, k);
    if k > 0 {
      ArrivalsKeepEarliestFirst(s, ops, capacity, k - 1);
      var s1 := After(s, ops, capacity, k - 1);
      if |s1| < capacity { SiftUpHalf(s1 + [ops[k - 1].x], |s1|); }
    }
    forall i | 0 <= i < |s'| ensures Key(s'[0]) <= Key(s'[i]) { HalfRoot(s', i); }
  }

  lemma SwapTidy(s: seq<Entry>, i: nat, p: nat, g: nat, j: nat)
    requires i < |s| && (i > 0 ==> i == 2 * p + 1 || i == 2 * p + 2) && j < |s| && j != g
    requires g < |s| && (g == 2 * i + 1 || g == 2 * i + 2) && ChildrenFrom(s, i, Key(s[g])) && Key(s[g]) < Key(s[i])
    requires j != i ==> TidyAt(s, j)
    requires i > 0 ==> ChildrenFrom(s, i, Key(s[p]))
    ensures TidyAt(Swapped(s, g, i), j)
  {
  }

  /** Sinking repairs the tree order at i, a child of p, when everything else is in order. */
  lemma {:induction false} HeapifyTree(s: seq<Entry>, i: nat, p: nat)
    requires i < |s| && (i > 0 ==> i == 2 * p + 1 || i == 2 * p + 2)
    requires forall j {:trigger TidyAt(s, j)} :: 0 <= j < |s| && j != i ==> TidyAt(s, j)
    requires i > 0 ==> ChildrenFrom(s, i, Key(s[p]))
    ensures TreeHeap(Heapify(s, i))
    decreases |s| - i
  {
    var l, r, g := 2 * i + 1, 2 * i + 2, Largest(s, i);
    var g0 := if l < |s| && ReceivebufferCmp(s[l], s[i]) > 0 then l else i;
    if l < |s| { CmpIsKeyOrder(s[l], s[i]); }
    if r < |s| { CmpIsKeyOrder(s[r], s[g0]); }
    if g == i {
      assert TidyAt(s, i);
    } else {
      var s' := Swapped(s, g, i);
      forall j | 0 <= j < |s| && j != g ensures TidyAt(s', j) {
        SwapTidy(s, i, p, g, j);
      }
      assert TidyAt(s, g);
      HeapifyTree(s', g, i);
    }
  }

  lemma DequeueKeepsTree(s: seq<Entry>)
    requires |s| > 0 && TreeHeap(s)
    ensures TreeHeap(Dequeue(s)) && Earliest(s[0], s)
  {
    var rest := s[0 := s[|s| - 1]][..|s| - 1];
    if rest != [] {
      forall j | 0 < j < |rest| ensures TidyAt(rest, j) {
        assert TidyAt(s, j);
      }
      HeapifyTree(rest, 0, 0);
    }
    forall i | 0 <= i < |s| ensures Key(s[0]) <= Key(s[i]) { TreeRoot(s, i); }
  }

  /** In a run, every arrival plays no earlier than all that is buffered at that moment. */
  ghost predicate InPlayOrder(s: seq<Entry>, ops: seq<Op>, capacity: nat) {
    forall k, y :: 0 <= k < |ops| && ops[k].Arrive? && y in After(s, ops, capacity, k) ==> Key(y) <= Key(ops[k].x)
  }

  /** In a run, every departure takes what plays earliest. */
  ghost predicate EarliestTaken(s: seq<Entry>, ops: seq<Op>, capacity: nat) {
    forall k :: 0 <= k < |ops| && ops[k].Depart? ==> EarliestFirst(After(s, ops, capacity, k))
  }

  ghost predicate EarliestFirst(s: seq<Entry>) {
    s != [] ==> Earliest(s[0], s)
  }

  /** With arrivals in play order, any mix of arrivals and departures takes the entries in play order. */
  lemma PlayOrderIsKept(s: seq<Entry>, ops: seq<Op>, capacity: nat)
    requires TreeHeap(s) && InPlayOrder(s, ops, capacity)
    ensures EarliestTaken(s, ops, capacity)
  {
    forall k | 0 <= k < |ops| && ops[k].Depart? ensures EarliestFirst(After(s, ops, capacity, k)) {
      TreeOrderIsKept(s, ops, capacity, k);
      var s' := After(s, ops, capacity, k);
      forall i | 0 <= i < |s'| ensures Key(s'[0]) <= Key(s'[i]) { TreeRoot(s', i); }
    }
  }

  lemma {:induction false} TreeOrderIsKept(s: seq<Entry>, ops: seq<Op>, capacity: nat, k: nat)
    requires TreeHeap(s) && InPlayOrder(s, ops, capacity) && k <= |ops|
    ensures TreeHeap(After(s, ops, capacity, k))
  {
    if k > 0 {
      TreeOrderIsKept(s, ops, capacity, k - 1);
      var s' := After(s, ops, capacity, k - 1);
      match ops[k - 1]
      case Arrive(x) => if |s'| < capacity { LastPlayedArrives(s', x); }
      case Depart => if s' != [] { DequeueKeepsTree(s'); }
    }
  }

  lemma LastPlayedArrives(s: seq<Entry>, x: Entry)
    requires TreeHeap(s) && forall y :: y in s ==> Key(y) <= Key(x)
    ensures SiftUp(s + [x], |s|) == s + [x] && TreeHeap(s + [x])
  {
    if s != [] { CmpIsKeyOrder(x, (s + [x])[|s| / 2]); }
    forall i | 0 <= i < |s + [x]| ensures TidyAt(s + [x], i) {
      if i < |s| { assert TidyAt(s, i); }
    }
  }
}
