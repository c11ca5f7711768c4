/** Exactly when the two parent computations of the receive buffer (src/pqueue.c) agree well enough,
    and what happens when they do not. */
module PQueueExact {
  import opened Chunk
  import opened PQueue

  /** All positions an entry that rises from i can pass are odd, so that i/2 is the tree parent. */
  predicate OddPath(i: nat) {
    i == 0 || (i % 2 == 1 && OddPath(i / 2))
  }

  /** The buffer sizes at which no arrival can disturb the tree order: 0, 1, 2, 3, 7, 15, ... */
  predicate SafeSize(n: nat) {
    n == 2 || OddPath(n)
  }

  /** One step up leaves only the link above it open. */
  lemma RiseIsTidy(s: seq<Entry>, i: nat)
    requires 0 < i < |s| && OddPath(i) && Key(s[i]) < Key(s[i / 2])
    requires forall j {:trigger TidyAt(s, j)} :: 0 <= j < |s| && j != i / 2 ==> TidyAt(s, j)
    requires (i + 1 < |s| ==> Key(s[i / 2]) <= Key(s[i + 1])) && ChildrenFrom(s, i, Key(s[i / 2]))
    ensures var s', q := Swapped(s, i, i / 2), i / 2;
      && (forall j {:trigger TidyAt(s', j)} :: 0 <= j < |s| && (q == 0 || j != q / 2) ==> TidyAt(s', j))
      && (q > 0 ==> (q + 1 < |s| ==> Key(s'[q / 2]) <= Key(s'[q + 1])) && ChildrenFrom(s', q, Key(s'[q / 2])))
  {
    hide Key;
    var s', q := Swapped(s, i, i / 2), i / 2;
    forall j | 0 <= j < |s| && (q == 0 || j != q / 2) ensures TidyAt(s', j) {
      if j != q { assert TidyAt(s, j); }
    }
    if q > 0 { assert TidyAt(s, q / 2); }
  }

  /** Rising along an odd path repairs the one link that may be out of order, from i to its parent. */
  lemma {:induction false} SiftUpTree(s: seq<Entry>, i: nat)
    requires i < |s| && OddPath(i)
    requires forall j {:trigger TidyAt(s, j)} :: 0 <= j < |s| && (i == 0 || j != i / 2) ==> TidyAt(s, j)
    requires i > 0 ==> (i + 1 < |s| ==> Key(s[i / 2]) <= Key(s[i + 1])) && ChildrenFrom(s, i, Key(s[i / 2]))
    ensures TreeHeap(SiftUp(s, i))
    decreases i
  {
    if i == 0 {
      return;
    }
    hide Key, ReceivebufferCmp;
    var q := i / 2;
    CmpIsKeyOrder(s[i], s[q]);
    if ReceivebufferCmp(s[i], s[q]) > 0 {
      var s' := Swapped(s, i, q);
      RiseIsTidy(s, i);
      SiftUpTree(s', q);
    } else {
      assert TidyAt(s, q);
    }
  }

  lemma SafeArrival(s: seq<Entry>, x: Entry)
    requires TreeHeap(s) && SafeSize(|s|)
    ensures TreeHeap(SiftUp(s + [x], |s|))
  {
    var n, t := |s|, s + [x];
    forall j | 0 <= j < |t| && (n == 0 || j != n / 2) ensures n != 2 ==> TidyAt(t, j) {
      if j < n { assert TidyAt(s, j); }
    }
    if n == 2 {
      assert TidyAt(s, 0);
      CmpIsKeyOrder(t[2], t[1]);
      var t' := Swapped(t, 2, 1);
      CmpIsKeyOrder(t'[1], t'[0]);
      var r := SiftUp(t, 2);
      assert r == t || r == t' || r == Swapped(t', 1, 0);
      assert TidyAt(r, 0) && TidyAt(r, 1) && TidyAt(r, 2);
    } else {
      if n > 0 { assert TidyAt(s, n / 2); }
      SiftUpTree(t, n);
    }
  }

  // ----- At every other size some arrival does disturb it

  function At(k: u32): Entry {
    Entry(0, PcmChunk(k, 0, 0, 0, 0, 0, []), false)
  }

  /** The first even position on the way up. */
  function FirstEven(i: nat): (e: nat)
    requires !OddPath(i)
    ensures 0 < e <= i && e % 2 == 0
  {
    if i % 2 == 0 then i else FirstEven(i / 2)
  }

  /** j lies in the subtree of p. */
  predicate Under(j: nat, p: nat) {
    j == p || (j > p && Under((j - 1) / 2, p))
  }

  lemma UnderChildren(i: nat, p: nat)
    ensures Under(i, p) ==> Under(2 * i + 1, p) && Under(2 * i + 2, p)
  {
    assert (2 * i + 1 - 1) / 2 == i && (2 * i + 2 - 1) / 2 == i;
    if Under(i, p) {
      assert p <= i;
    }
  }

  lemma PathIsUnder(i: nat, p: nat)
    requires !OddPath(i) && FirstEven(i) == 2 * p + 2
    ensures Under(i, p) && p < i
  {
    if i % 2 == 1 {
      PathIsUnder(i / 2, p);
    } else {
      assert Under((i - 1) / 2, p);
    }
  }

  /** A tree-ordered buffer: late below p and in p, early everywhere else. */
  function Late(n: nat, p: nat): (s: seq<Entry>)
    ensures |s| == n && forall j {:trigger s[j]} :: 0 <= j < n ==> s[j] == if Under(j, p) then At(2) else At(0)
  {
    seq(n, j requires 0 <= j < n => if Under(j, p) then At(2) else At(0))
  }

  lemma LateIsTree(n: nat, p: nat)
    ensures TreeHeap(Late(n, p))
  {
    var s := Late(n, p);
    forall i | 0 <= i < n ensures TidyAt(s, i) {
      UnderChildren(i, p);
    }
  }

  /** An entry in between rises to e, the first even position, and stops there, short of its tree
      parent p: it is compared with p + 1 instead. */
  lemma {:induction false} StopsTooSoon(t: seq<Entry>, i: nat, p: nat)
    requires i < |t| && !OddPath(i) && FirstEven(i) == 2 * p + 2 && p > 0
    requires t[i] == At(1) && (forall j :: 0 <= j < i && Under(j, p) ==> t[j] == At(2)) && t[p + 1] == At(0)
    requires t[p] == At(2)
    ensures !TreeHeap(SiftUp(t, i))
    decreases i
  {
    if i % 2 == 0 {
      assert !TidyAt(t, p);
    } else {
      PathIsUnder(i / 2, p);
      var t' := Swapped(t, i, i / 2);
      StopsTooSoon(t', i / 2, p);
    }
  }

  /** Three layers: 5 below and in 1, 3 below and in 2, 0 at the root. */
  function Layers(n: nat): (s: seq<Entry>)
    ensures |s| == n
    ensures forall j {:trigger s[j]} :: 0 <= j < n ==>
      s[j] == if Under(j, 1) then At(5) else if Under(j, 2) then At(3) else At(0)
  {
    seq(n, j requires 0 <= j < n => if Under(j, 1) then At(5) else if Under(j, 2) then At(3) else At(0))
  }

  lemma {:induction false} SubtreesApart(j: nat)
    ensures !(Under(j, 1) && Under(j, 2))
    ensures j > 0 ==> Under(j, 1) || Under(j, 2)
    decreases j
  {
    if j > 2 { SubtreesApart((j - 1) / 2); }
  }

  lemma LayersIsTree(n: nat)
    ensures TreeHeap(Layers(n))
  {
    var s := Layers(n);
    forall i | 0 <= i < n ensures TidyAt(s, i) {
      SubtreesApart(2 * i + 1);
      SubtreesApart(2 * i + 2);
      UnderChildren(i, 1);
      UnderChildren(i, 2);
    }
  }

  /** An early entry that rises through 2 trades places with 1 and leaves 1's later entry in 2, above
      the one it displaced before. */
  lemma {:induction false} CrossesOver(t: seq<Entry>, i: nat)
    requires 2 < i < |t| && !OddPath(i) && FirstEven(i) == 2
    requires t[i] == At(1) && (forall j :: 0 <= j < i && Under(j, 2) ==> t[j] == At(3))
    requires t[0] == At(0) && t[1] == At(5)
    ensures !TreeHeap(SiftUp(t, i))
    decreases i
  {
    assert i % 2 == 1;
    PathIsUnder2(i / 2);
    var t' := Swapped(t, i, i / 2);
    if i / 2 > 2 {
      CrossesOver(t', i / 2);
    } else {
      assert i == 5;
      var t'' := Swapped(t', 2, 1);
      assert SiftUp(t'', 1) == t'';
      assert SiftUp(t', 2) == t'';
      assert !TidyAt(t'', 2);
    }
  }

  lemma PathIsUnder2(i: nat)
    requires !OddPath(i) && FirstEven(i) == 2
    ensures Under(i, 2)
  {
    if i % 2 == 1 { PathIsUnder2(i / 2); }
  }

  lemma UnsafeArrival(n: nat) returns (s: seq<Entry>)
    requires !SafeSize(n)
    ensures |s| == n && TreeHeap(s) && !TreeHeap(SiftUp(s + [At(1)], n))
  {
    var e := FirstEven(n);
    if e > 2 {
      var p := e / 2 - 1;
      PathIsUnder(n, p);
      LateIsTree(n, p);
      s := Late(n, p);
      assert p / 2 < p && !Under(p / 2, p);
      StopsTooSoon(s + [At(1)], n, p);
    } else {
      LayersIsTree(n);
      s := Layers(n);
      SubtreesApart(0);
      forall j | 0 <= j < n && Under(j, 2) ensures s[j] == At(3) { SubtreesApart(j); }
      CrossesOver(s + [At(1)], n);
    }
  }

  /** An arrival into n buffered entries keeps the tree order whatever they are and whenever it plays,
      if and only if n is one of the safe sizes. */
  lemma ArrivalsKeepTreeExactly(n: nat)
    ensures (forall s, x :: |s| == n && TreeHeap(s) ==> TreeHeap(SiftUp(s + [x], n))) <==> SafeSize(n)
  {
    if SafeSize(n) {
      forall s, x | |s| == n && TreeHeap(s) ensures TreeHeap(SiftUp(s + [x], n)) { SafeArrival(s, x); }
    } else {
      var s := UnsafeArrival(n);
      assert |s| == n && TreeHeap(s) && !TreeHeap(SiftUp(s + [At(1)], n));
    }
  }

  // ----- What follows: departures out of play order

  lemma {:induction false} HeapifyKeepsAbove(s: seq<Entry>, i: nat, j: nat)
    requires j < i < |s|
    ensures Heapify(s, i)[j] == s[j]
    decreases |s| - i
  {
    var g := Largest(s, i);
    if g != i { HeapifyKeepsAbove(Swapped(s, g, i), g, j); }
  }

  lemma HeadAndTail(s: seq<Entry>)
    requires s != []
    ensures multiset(s) == multiset{s[0]} + multiset(s[1..])
  {
    assert s == [s[0]] + s[1..];
  }

  /** What is left after a departure is what was behind the root. */
  lemma DepartureLeavesRest(s: seq<Entry>, e: Entry)
    requires s != []
    ensures Earliest(e, Dequeue(s)) <==> Earliest(e, s[1..])
  {
    var r := Dequeue(s);
    DequeueConserves(s);
    HeadAndTail(s);
    assert multiset(r) == multiset(s) - multiset{s[0]} == multiset(s[1..]);
    assert forall x :: x in r <==> x in multiset(r);
    assert forall x :: x in s[1..] <==> x in multiset(s[1..]);
  }

  /** The new root is the earliest of the last entry and the old root's children. */
  lemma DepartureRoot(s: seq<Entry>) returns (k: nat)
    requires |s| >= 2
    ensures 0 < k < |s| && Dequeue(s)[0] == s[k] && (k == 1 || k == 2 || k == |s| - 1)
    ensures Key(s[k]) <= Key(s[1]) && (|s| > 2 ==> Key(s[k]) <= Key(s[2])) && Key(s[k]) <= Key(s[|s| - 1])
  {
    var rest := s[0 := s[|s| - 1]][..|s| - 1];
    var g := Largest(rest, 0);
    if g != 0 { HeapifyKeepsAbove(Swapped(rest, g, 0), g, 0); }
    if |rest| > 1 { CmpIsKeyOrder(rest[1], rest[0]); }
    var g0 := if |rest| > 1 && ReceivebufferCmp(rest[1], rest[0]) > 0 then 1 else 0;
    if |rest| > 2 { CmpIsKeyOrder(rest[2], rest[g0]); }
    k := if g == 0 then |s| - 1 else g;
  }

  /** A departure puts the earliest remaining entry first if and only if that entry is one of the old
      root's two children or the last one of the array. */
  lemma DepartureExactly(s: seq<Entry>)
    requires |s| >= 2
    ensures EarliestFirst(Dequeue(s)) <==>
      Earliest(s[1], s[1..]) || (|s| > 2 && Earliest(s[2], s[1..])) || Earliest(s[|s| - 1], s[1..])
  {
    var k := DepartureRoot(s);
    DepartureLeavesRest(s, s[k]);
    assert s[1..][k - 1] == s[k];
  }

  // ----- Exactly when every run takes the earliest entry each time

  ghost predicate NoLater(s: seq<Entry>, i: nat, j: nat) {
    i < |s| && j < |s| ==> Key(s[i]) <= Key(s[j])
  }

  /** With up to five entries the root is the earliest, and the one tree edge that matters is kept. */
  ghost predicate SmallHeap(s: seq<Entry>) {
    |s| <= 5 && NoLater(s, 0, 1) && NoLater(s, 0, 2) && NoLater(s, 0, 3) && NoLater(s, 0, 4) && NoLater(s, 1, 3)
  }

  /** A rise by one step, in terms of keys. */
  lemma Rises(t: seq<Entry>, i: nat)
    requires i < |t|
    ensures i > 0 && Key(t[i]) < Key(t[i / 2]) ==> SiftUp(t, i) == SiftUp(Swapped(t, i, i / 2), i / 2)
    ensures i == 0 || Key(t[i / 2]) <= Key(t[i]) ==> SiftUp(t, i) == t
  {
    CmpIsKeyOrder(t[i], t[i / 2]);
  }

  /** The entry at i rises; where it still is, it may be too early. */
  lemma {:induction false} SmallRise(t: seq<Entry>, i: nat)
    requires i < |t| <= 5
    requires i != 1 ==> NoLater(t, 0, 1)
    requires i != 2 ==> NoLater(t, 0, 2)
    requires i != 3 ==> NoLater(t, 0, 3) && NoLater(t, 1, 3)
    requires i != 4 ==> NoLater(t, 0, 4)
    ensures SmallHeap(SiftUp(t, i))
    decreases i
  {
    hide Key, SiftUp;
    Rises(t, i);
    if i > 0 && Key(t[i]) < Key(t[i / 2]) { SmallRise(Swapped(t, i, i / 2), i / 2); }
  }

  lemma SmallArrival(s: seq<Entry>, x: Entry)
    requires SmallHeap(s) && |s| < 5
    ensures SmallHeap(SiftUp(s + [x], |s|))
  {
    hide Key, SiftUp;
    SmallRise(s + [x], |s|);
  }

  /** Which of an entry and its children plays first, in terms of keys. */
  lemma LargestIs(t: seq<Entry>, i: nat)
    requires i < |t|
    ensures var g, l, r := Largest(t, i), 2 * i + 1, 2 * i + 2;
      && Key(t[g]) <= Key(t[i])
      && (l < |t| ==> Key(t[g]) <= Key(t[l])) && (r < |t| ==> Key(t[g]) <= Key(t[r]))
      && (g != i ==> Key(t[g]) < Key(t[i]))
  {
    var l, r := 2 * i + 1, 2 * i + 2;
    if l < |t| { CmpIsKeyOrder(t[l], t[i]); }
    var g := if l < |t| && ReceivebufferCmp(t[l], t[i]) > 0 then l else i;
    if r < |t| { CmpIsKeyOrder(t[r], t[g]); }
  }

  /** Sinking at the root of at most four entries, of which the one at 1 is no later than the one at 3. */
  lemma SmallSink(t: seq<Entry>)
    requires 0 < |t| <= 4 && NoLater(t, 1, 3)
    ensures SmallHeap(Heapify(t, 0))
  {
    hide Key, Largest;
    LargestIs(t, 0);
    var g := Largest(t, 0);
    if g == 1 {
      SmallSinkOn(Swapped(t, 1, 0));
    } else if g == 2 {
      LastStays(Swapped(t, 2, 0), 2);
    }
  }

  lemma SmallSinkOn(t: seq<Entry>)
    requires 1 < |t| <= 4 && NoLater(t, 0, 1) && NoLater(t, 0, 2) && NoLater(t, 0, 3)
    ensures SmallHeap(Heapify(t, 1))
  {
    hide Key, Largest;
    LargestIs(t, 1);
    if Largest(t, 1) == 3 { LastStays(Swapped(t, 3, 1), 3); }
  }

  /** An entry without children does not sink. */
  lemma LastStays(t: seq<Entry>, i: nat)
    requires i < |t| <= 2 * i + 1
    ensures Heapify(t, i) == t
  {
  }

  lemma SmallDeparture(s: seq<Entry>)
    requires SmallHeap(s) && s != []
    ensures SmallHeap(Dequeue(s))
  {
    var rest := s[0 := s[|s| - 1]][..|s| - 1];
    if rest != [] { SmallSink(rest); }
  }

  lemma {:induction false} StaysSmall(ops: seq<Op>, capacity: nat, k: nat)
    requires capacity <= 5 && k <= |ops|
    ensures SmallHeap(After([], ops, capacity, k))
  {
    hide Dequeue, SiftUp, SmallHeap;
    if k > 0 {
      StaysSmall(ops, capacity, k - 1);
      var s := After([], ops, capacity, k - 1);
      match ops[k - 1]
      case Arrive(x) => if |s| < capacity { SmallArrival(s, x); }
      case Depart => if s != [] { SmallDeparture(s); }
    } else {
      NoneIsSmall();
    }
  }

  lemma SmallIsEarliestFirst(s: seq<Entry>)
    requires SmallHeap(s)
    ensures EarliestFirst(s)
  {
    hide Key;
  }

  lemma NoneIsSmall()
    ensures SmallHeap([])
  {
  }

  const E0 := At(0)
  const E1 := At(1)

  lemma Departures(capacity: nat)
    ensures Next([E0, E0, E0, E1, E1], Depart, capacity) == [E0, E1, E0, E1]
    ensures Next([E0, E1, E0, E1, E0, E1], Depart, capacity) == [E0, E1, E1, E1, E0]
    ensures Next([E0, E1, E1, E1, E0, E1], Depart, capacity) == [E1, E1, E1, E1, E0]
  {
    var s := [E1, E0, E0, E1];
    assert [E0, E0, E0, E1, E1][0 := E1][..4] == s;
    assert Swapped(s, 1, 0) == [E0, E1, E0, E1];
    assert Heapify(s, 0) == [E0, E1, E0, E1];
    s := [E1, E1, E0, E1, E0];
    assert [E0, E1, E0, E1, E0, E1][0 := E1][..5] == s;
    assert Swapped(s, 2, 0) == [E0, E1, E1, E1, E0];
    assert Heapify(s, 0) == [E0, E1, E1, E1, E0];
    s := [E1, E1, E1, E1, E0];
    assert [E0, E1, E1, E1, E0, E1][0 := E1][..5] == s;
    assert Heapify(s, 0) == s;
  }

  /** Eight arrivals, never more than six held: the fourth departure takes an entry with key 1 and leaves
      one with key 0 behind. */
  function Disorder(): seq<Op> {
    [Arrive(E0), Arrive(E0), Arrive(E0), Arrive(E1), Arrive(E1), Depart,
     Arrive(E0), Arrive(E1), Depart, Arrive(E1), Depart, Depart]
  }

  lemma Step(capacity: nat, k: nat, s: seq<Entry>, s': seq<Entry>)
    requires k < |Disorder()| && After([], Disorder(), capacity, k) == s && Next(s, Disorder()[k], capacity) == s'
    ensures After([], Disorder(), capacity, k + 1) == s'
  {
  }

  lemma Opening(capacity: nat)
    requires capacity >= 6
    ensures After([], Disorder(), capacity, 5) == [E0, E0, E0, E1, E1]
  {
    Step(capacity, 0, [], [E0]);
    Step(capacity, 1, [E0], [E0, E0]);
    Step(capacity, 2, [E0, E0], [E0, E0, E0]);
    Step(capacity, 3, [E0, E0, E0], [E0, E0, E0, E1]);
    Step(capacity, 4, [E0, E0, E0, E1], [E0, E0, E0, E1, E1]);
  }

  lemma Middle(capacity: nat)
    requires capacity >= 6
    ensures After([], Disorder(), capacity, 8) == [E0, E1, E0, E1, E0, E1]
  {
    hide After, Heapify, EarliestTaken;
    Opening(capacity);
    Departures(capacity);
    Step(capacity, 5, [E0, E0, E0, E1, E1], [E0, E1, E0, E1]);
    Step(capacity, 6, [E0, E1, E0, E1], [E0, E1, E0, E1, E0]);
    Step(capacity, 7, [E0, E1, E0, E1, E0], [E0, E1, E0, E1, E0, E1]);
  }

  lemma DeparturesOutOfOrder(capacity: nat)
    requires capacity >= 6
    ensures !EarliestTaken([], Disorder(), capacity)
  {
    hide After, Heapify;
    Middle(capacity);
    Departures(capacity);
    Step(capacity, 8, [E0, E1, E0, E1, E0, E1], [E0, E1, E1, E1, E0]);
    Step(capacity, 9, [E0, E1, E1, E1, E0], [E0, E1, E1, E1, E0, E1]);
    Step(capacity, 10, [E0, E1, E1, E1, E0, E1], [E1, E1, E1, E1, E0]);
    var s := [E1, E1, E1, E1, E0];
    assert Key(s[4]) < Key(s[0]) && !EarliestFirst(s);
    assert After([], Disorder(), capacity, 11) == s && Disorder()[11].Depart?;
  }

  /** Every departure of every run takes the earliest entry, if and only if the buffer has room for five
      at most. */
  lemma EarliestTakenExactly(capacity: nat)
    ensures (forall ops :: EarliestTaken([], ops, capacity)) <==> capacity <= 5
  {
    if capacity <= 5 {
      forall ops: seq<Op> ensures EarliestTaken([], ops, capacity) {
        forall k | 0 <= k < |ops| && ops[k].Depart? ensures EarliestFirst(After([], ops, capacity, k)) {
          StaysSmall(ops, capacity, k);
          SmallIsEarliestFirst(After([], ops, capacity, k));
        }
      }
    } else {
      DeparturesOutOfOrder(capacity);
    }
  }
}
