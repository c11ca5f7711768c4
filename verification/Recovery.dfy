/** What the receiver's operations preserve and achieve (src/intercom_client.c): the list of missing
    packets, the ledger of all sequence numbers, and the retry chains. */
module Recovery {
  import opened Time
  import opened Chunk
  import opened Wire
  import opened Client

  /** Numbers stay below this: beyond it the receiver's `int` arithmetic overflows. */
  const LIMIT := 0x7FFF_FFFF

  // ----- The list of missing packets

  ghost predicate Ascending(s: seq<nat>) {
    forall i, j :: 0 <= i < j < |s| ==> s[i] < s[j]
  }

  /** The retries left to the pending tasks for n, each counted with a surcharge. */
  ghost function Weigh(tasks: seq<Request>, n: nat, surcharge: nat): nat {
    if tasks == [] then 0
    else (if tasks[0].nonce == n then tasks[0].retriesLeft + surcharge else 0) + Weigh(tasks[1..], n, surcharge)
  }

  /** How many more times the pending tasks for n can fire, at most. */
  ghost function Weight(tasks: seq<Request>, n: nat): nat {
    Weigh(tasks, n, 1)
  }

  /** How many more times they can ask for n, at most. */
  ghost function Credit(tasks: seq<Request>, n: nat): nat {
    Weigh(tasks, n, 0)
  }

  /** The missing packets are strictly ascending, below the newest number, no more than fit the
      buffer, and each of them has a request task pending. */
  ghost predicate ClientInv(c: Client) {
    && Ascending(c.missing) && |c.missing| <= c.capacity <= 0x1_0000
    && (forall n :: n in c.missing ==> 0 < n < c.last && Weight(c.tasks, n) > 0)
    && c.last < LIMIT
  }

  lemma {:induction false} WeighConcat(a: seq<Request>, b: seq<Request>, n: nat, surcharge: nat)
    ensures Weigh(a + b, n, surcharge) == Weigh(a, n, surcharge) + Weigh(b, n, surcharge)
  {
    if a == [] {
      assert a + b == b;
    } else {
      assert (a + b)[1..] == a[1..] + b;
      WeighConcat(a[1..], b, n, surcharge);
    }
  }

  lemma WeighWithout(tasks: seq<Request>, i: nat, n: nat, surcharge: nat)
    requires i < |tasks|
    ensures Weigh(tasks[..i] + tasks[i + 1..], n, surcharge)
         == Weigh(tasks, n, surcharge) - (if tasks[i].nonce == n then tasks[i].retriesLeft + surcharge else 0)
  {
    assert tasks == tasks[..i] + ([tasks[i]] + tasks[i + 1..]);
    WeighConcat(tasks[..i], tasks[i + 1..], n, surcharge);
    WeighConcat(tasks[..i], [tasks[i]] + tasks[i + 1..], n, surcharge);
    WeighConcat([tasks[i]], tasks[i + 1..], n, surcharge);
  }

  lemma AscendingConcat(a: seq<nat>, b: seq<nat>)
    requires Ascending(a) && Ascending(b) && forall x, y :: x in a && y in b ==> x < y
    ensures Ascending(a + b)
  {
    forall i, j | 0 <= i < j < |a + b| ensures (a + b)[i] < (a + b)[j] {
      assert (a + b)[i] in a || (i >= |a| && (a + b)[i] == b[i - |a|]);
      assert (a + b)[j] in b || (j < |a| && (a + b)[j] == a[j]);
    }
  }

  lemma LimitKeepsNewest(s: seq<nat>, max: nat)
    requires Ascending(s)
    ensures var r := Limit(s, max); Ascending(r) && |r| <= max && forall n :: n in r ==> n in s
  {
  }

  lemma {:induction false} RemoveRequestExactly(missing: seq<nat>, nonce: nat)
    requires Ascending(missing)
    ensures var r := RemoveRequest(missing, nonce);
      Ascending(r) && |r| <= |missing| && forall n :: n in r <==> n in missing && n != nonce
  {
    if missing != [] && missing[0] != nonce {
      RemoveRequestExactly(missing[1..], nonce);
      AscendingConcat([missing[0]], RemoveRequest(missing[1..], nonce));
      assert missing == [missing[0]] + missing[1..];
    } else if missing != [] {
      assert missing == [missing[0]] + missing[1..];
    }
  }

  lemma {:induction false} PruneExactly(missing: seq<nat>, oldest: nat)
    requires Ascending(missing)
    ensures var r := Prune(missing, oldest);
      Ascending(r) && |r| <= |missing| && forall n :: n in r <==> n in missing && n > oldest
  {
    if missing != [] {
      var front := missing[..|missing| - 1];
      PruneExactly(front, oldest);
      var n := missing[|missing| - 1];
      assert forall x :: x in front ==> x < n;
      AscendingConcat(Prune(front, oldest), [n]);
      assert forall x :: x in Prune(front, oldest) + [n] <==> x in Prune(front, oldest) || x == n;
      assert missing == front + [missing[|missing| - 1]];
    }
  }

  /** The loop over a gap starts right behind the newest number: the clamp to the buffer's capacity
      never takes effect, although it is computed in wrapping and truncating arithmetic. */
  lemma GapStartsBehindNewest(last: nat, seqno: nat, capacity: nat)
    requires last <= seqno < LIMIT && seqno - last < capacity <= 0x1_0000
    ensures GapStart(last, seqno, capacity) == last + 1
  {
    hide ToInt, ToSize;
    Converted(last);
    Converted(seqno - capacity);
    Converted(last + 1);
  }

  /** In this range the conversions lose nothing. */
  lemma Converted(x: int)
    requires -0x1_0000 <= x <= LIMIT
    ensures ToInt(ToSize(x)) == x
    ensures x >= 0 ==> ToSize(x) == x && ToInt(x) == x
  {
    if x < 0 {
      assert x % 0x1_0000_0000_0000_0000 == x + 0x1_0000_0000_0000_0000;
      assert (x + 0x1_0000_0000_0000_0000) % 0x1_0000_0000 == x + 0x1_0000_0000;
    }
  }

  function Range(i: nat, j: nat): (s: seq<nat>)
    ensures |s| == (if i < j then j - i else 0) && forall k {:trigger s[k]} :: 0 <= k < |s| ==> s[k] == i + k
    decreases j - i
  {
    if i >= j then [] else [i] + Range(i + 1, j)
  }

  function RequestsFor(i: nat, j: nat, retries: nat): seq<Request>
    decreases j - i
  {
    if i >= j then [] else [Request(i, retries)] + RequestsFor(i + 1, j, retries)
  }

  lemma LimitTwice(a: seq<nat>, b: seq<nat>, max: nat)
    ensures Limit(Limit(a, max) + b, max) == Limit(a + b, max)
  {
  }

  /** The loop over a gap never finds one of its numbers already registered; it appends exactly the
      gap, and only entries older than the gap can be evicted. */
  lemma {:induction false} GapClosedForm(missing: seq<nat>, tasks: seq<Request>, i: nat, seqno: nat,
                                       capacity: nat, retries: nat)
    requires Ascending(missing) && (forall n :: n in missing ==> n < i) && |missing| <= capacity
    ensures RequestGap(missing, tasks, i, seqno, capacity, retries)
         == (Limit(missing + Range(i, seqno), capacity), tasks + RequestsFor(i, seqno, retries))
    decreases seqno - i
  {
    if i < seqno {
      var m, t := Limit(missing + [i], capacity), tasks + [Request(i, retries)];
      NextInGap(missing, i, capacity);
      GapClosedForm(m, t, i + 1, seqno, capacity, retries);
      GapMissing(missing, i, seqno, capacity);
      GapTasks(tasks, i, seqno, retries);
    } else {
      assert missing + [] == missing && tasks + [] == tasks;
    }
  }

  lemma NextInGap(missing: seq<nat>, i: nat, capacity: nat)
    requires Ascending(missing) && forall n :: n in missing ==> n < i
    ensures var m := Limit(missing + [i], capacity);
      i !in missing && Ascending(m) && |m| <= capacity && forall n :: n in m ==> n < i + 1
  {
    AscendingConcat(missing, [i]);
    LimitKeepsNewest(missing + [i], capacity);
  }

  lemma GapMissing(missing: seq<nat>, i: nat, seqno: nat, capacity: nat)
    requires i < seqno
    ensures Limit(Limit(missing + [i], capacity) + Range(i + 1, seqno), capacity)
         == Limit(missing + Range(i, seqno), capacity)
  {
    LimitTwice(missing + [i], Range(i + 1, seqno), capacity);
    assert missing + Range(i, seqno) == (missing + [i]) + Range(i + 1, seqno);
  }

  lemma GapTasks(tasks: seq<Request>, i: nat, seqno: nat, retries: nat)
    requires i < seqno
    ensures (tasks + [Request(i, retries)]) + RequestsFor(i + 1, seqno, retries)
         == tasks + RequestsFor(i, seqno, retries)
  {
  }

  lemma {:induction false} RequestsWeigh(i: nat, j: nat, retries: nat, n: nat, surcharge: nat)
    ensures Weigh(RequestsFor(i, j, retries), n, surcharge) == if i <= n < j then retries + surcharge else 0
    decreases j - i
  {
    if i < j {
      RequestsWeigh(i + 1, j, retries, n, surcharge);
      assert RequestsFor(i, j, retries)[1..] == RequestsFor(i + 1, j, retries);
    }
  }

  /** What a gap does to the list: it appends the numbers of the gap, all of which stay, and evicts
      the oldest entries beyond the capacity. */
  lemma NoteGapExactly(c: Client, seqno: u32)
    requires ClientInv(c) && c.capacity > 0 && c.last <= seqno < LIMIT
    requires !IsNextChunk(c.last, seqno) && !FarAhead(c, seqno)
    ensures var all := c.missing + Range(c.last + 1, seqno);
      && NoteGap(c, seqno) == c.(missing := Limit(all, c.capacity),
                                 tasks := c.tasks + RequestsFor(c.last + 1, seqno, Retries(c.bufferms)))
      && Ascending(all) && (forall n :: n in all <==> n in c.missing || c.last < n < seqno)
      && (forall n :: c.last < n < seqno ==> n in Limit(all, c.capacity))
  {
    hide GapStart, RequestGap, Limit, Range, RequestsFor;
    GapMembers(c.missing, c.last, seqno, c.capacity);
    GapStartsBehindNewest(c.last, seqno, c.capacity);
    GapClosedForm(c.missing, c.tasks, c.last + 1, seqno, c.capacity, Retries(c.bufferms));
  }

  lemma GapMembers(missing: seq<nat>, last: nat, seqno: nat, capacity: nat)
    requires Ascending(missing) && (forall n :: n in missing ==> n < last) && seqno < last + capacity
    ensures var all := missing + Range(last + 1, seqno);
      && Ascending(all) && (forall n :: n in all <==> n in missing || last < n < seqno)
      && (forall n :: last < n < seqno ==> n in Limit(all, capacity))
  {
    var gap := Range(last + 1, seqno);
    RangeMembers(last + 1, seqno);
    AscendingConcat(missing, gap);
    forall n | last < n < seqno ensures n in Limit(missing + gap, capacity) {
      var m := Limit(missing + gap, capacity);
      assert m[|m| - (seqno - n)] == gap[n - last - 1];
    }
  }

  lemma RangeMembers(i: nat, j: nat)
    ensures Ascending(Range(i, j)) && forall n :: n in Range(i, j) <==> i <= n < j
  {
    forall n | i <= n < j ensures n in Range(i, j) {
      assert Range(i, j)[n - i] == n;
    }
  }

  // ----- The ledger: what became of every sequence number up to the newest

  datatype Fate = Received | Missing | GivenUp | Evicted | Late | Skipped

  type Ledger = map<nat, Fate>

  function Mark(f: Ledger, s: set<nat>, fate: Fate): Ledger {
    map n | n in f.Keys + s :: if n in s then fate else f[n]
  }

  function Between(i: nat, j: nat): (s: set<nat>)
    ensures forall n :: n in s <==> i < n < j
  {
    RangeMembers(i + 1, j);
    set n {:trigger n in Range(i + 1, j)} | n in Range(i + 1, j)
  }

  /** The numbers that the limit throws out. */
  function Evictions(all: seq<nat>, max: nat): (s: set<nat>)
    ensures forall n: nat :: n in s <==> n in all && n !in Limit(all, max)
  {
    set n | n in all && n !in Limit(all, max)
  }

  /** The entries a packet in time makes: a gap is missing, and the oldest missing numbers beyond the
      capacity are evicted; a huge gap is skipped. */
  function AccountOnTime(f: Ledger, c: Client, seqno: u32): Ledger {
    var gap := Between(c.last, seqno);
    if seqno < c.last || IsNextChunk(c.last, seqno) then f[seqno := Received]
    else if FarAhead(c, seqno) then Mark(f, gap, Skipped)[seqno := Received]
    else
      var all := c.missing + Range(c.last + 1, seqno);
      Mark(Mark(f, gap, Missing), Evictions(all, c.capacity), Evicted)[seqno := Received]
  }

  /** A packet that comes too late writes off everything up to it that has not been received. */
  function AccountLate(f: Ledger, c: Client, seqno: u32): Ledger {
    Mark(f, Between(c.last, seqno) + (set n | n in c.missing && n <= seqno), Late)[seqno := Late]
  }

  function AccountAudio(f: Ledger, c: Client, a: Audio, ctime: Timespec, d: Decoder): Ledger
    requires Ready(c, a, d)
  {
    var c' := SetUp(c.(missing := RemoveRequest(c.missing, a.header.nonce)), a, d);
    if OnTime(a, ctime) then AccountOnTime(f, c', a.header.nonce) else AccountLate(f, c', a.header.nonce)
  }

  function AccountFiring(f: Ledger, c: Client, i: nat): Ledger
    requires i < |c.tasks|
  {
    var t := c.tasks[i];
    if t.retriesLeft == 0 && t.nonce in c.missing then f[t.nonce := GivenUp] else f
  }

  /** The ledger covers every number up to the newest, and the missing ones are those in the list. */
  ghost predicate Books(c: Client, f: Ledger) {
    && (forall n :: 0 < n <= c.last ==> n in f)
    && (forall n :: n in f ==> n <= c.last)
    && (forall n :: n in c.missing <==> n in f && f[n].Missing?)
  }

  // ----- What an arriving packet preserves

  lemma ListWithout(c: Client, seqno: nat)
    requires ClientInv(c)
    ensures ClientInv(c.(missing := RemoveRequest(c.missing, seqno)))
    ensures forall n :: n in RemoveRequest(c.missing, seqno) <==> n in c.missing && n != seqno
  {
    RemoveRequestExactly(c.missing, seqno);
  }

  /** Setting up the buffer gives it room for at least one chunk. */
  lemma SetUpKeepsInv(c: Client, a: Audio, d: Decoder)
    requires ClientInv(c) && Ready(c, a, d)
    ensures var c' := SetUp(c, a, d);
      ClientInv(c') && c'.capacity > 0 && c'.missing == c.missing && c'.last == c.last && c'.tasks == c.tasks
  {
  }

  lemma GapWeighs(c: Client, seqno: u32)
    requires ClientInv(c) && c.last <= seqno
    ensures var tasks := c.tasks + RequestsFor(c.last + 1, seqno, Retries(c.bufferms));
      forall n: nat :: n in c.missing || c.last < n < seqno ==> Weight(tasks, n) > 0
  {
    forall n: nat | n in c.missing || c.last < n < seqno
      ensures Weight(c.tasks + RequestsFor(c.last + 1, seqno, Retries(c.bufferms)), n) > 0
    {
      WeighConcat(c.tasks, RequestsFor(c.last + 1, seqno, Retries(c.bufferms)), n, 1);
      RequestsWeigh(c.last + 1, seqno, Retries(c.bufferms), n, 1);
    }
  }

  predicate IsGap(c: Client, seqno: u32) {
    seqno >= c.last && !IsNextChunk(c.last, seqno) && !FarAhead(c, seqno)
  }

  lemma NoteGapKeepsInv(c: Client, seqno: u32)
    requires ClientInv(c) && c.capacity > 0 && seqno < LIMIT
    ensures var g := NoteGap(c, seqno); ClientInv(g.(last := Max(g.last, seqno)))
    ensures NoteGap(c, seqno).capacity == c.capacity
  {
    if IsGap(c, seqno) {
      NoteGapExactly(c, seqno);
      GapWeighs(c, seqno);
      LimitKeepsNewest(c.missing + Range(c.last + 1, seqno), c.capacity);
    }
  }

  /** The invariant does not depend on the buffer's contents. */
  lemma AudioKeepsInv(c: Client, a: Audio, ctime: Timespec, d: Decoder)
    requires ClientInv(c) && a.header.nonce < LIMIT && Ready(c, a, d)
    ensures ClientInv(HandleAudio(c, a, ctime, d))
  {
    hide SetUp, NoteGap, PutChunk;
    var seqno := a.header.nonce;
    ListWithout(c, seqno);
    SetUpKeepsInv(c.(missing := RemoveRequest(c.missing, seqno)), a, d);
    var c1 := SetUp(c.(missing := RemoveRequest(c.missing, seqno)), a, d);
    NoteGapKeepsInv(c1, seqno);
    PruneExactly(c1.missing, seqno);
  }

  /** The books without the number that is just being received. */
  ghost predicate BooksBut(c: Client, f: Ledger, seqno: nat) {
    && (forall n :: 0 < n <= c.last ==> n in f)
    && (forall n :: n in f ==> n <= c.last)
    && (forall n :: n in c.missing <==> n in f && f[n].Missing? && n != seqno)
  }

  lemma GapKeepsBooks(c: Client, f: Ledger, seqno: u32, all: seq<nat>, kept: seq<nat>, gap: set<nat>, evicted: set<nat>,
                      c': Client)
    requires c'.missing == kept && c'.last == seqno
    requires BooksBut(c, f, seqno) && c.last <= seqno && seqno !in c.missing
    requires forall n: nat :: n in gap <==> c.last < n < seqno
    requires forall n: nat :: n in all <==> n in c.missing || n in gap
    requires forall n: nat :: n in kept ==> n in all
    requires forall n: nat :: n in evicted <==> n in all && n !in kept
    ensures Books(c', Mark(Mark(f, gap, Missing), evicted, Evicted)[seqno := Received])
  {
  }

  lemma NotedGapKeepsBooks(c: Client, f: Ledger, seqno: u32)
    requires ClientInv(c) && c.capacity > 0 && seqno < LIMIT && BooksBut(c, f, seqno) && IsGap(c, seqno)
    ensures Books(NoteGap(c, seqno).(last := seqno), AccountOnTime(f, c, seqno))
  {
    hide Limit, Range, Mark, Books, NoteGap, RequestGap, GapStart, RequestsFor;
    NoteGapExactly(c, seqno);
    var all := c.missing + Range(c.last + 1, seqno);
    LimitKeepsNewest(all, c.capacity);
    GapKeepsBooks(c, f, seqno, all, Limit(all, c.capacity), Between(c.last, seqno), Evictions(all, c.capacity),
                  NoteGap(c, seqno).(last := seqno));
  }

  lemma NoteGapKeepsBooks(c: Client, f: Ledger, seqno: u32)
    requires ClientInv(c) && c.capacity > 0 && seqno < LIMIT && BooksBut(c, f, seqno)
    ensures var g := NoteGap(c, seqno); Books(g.(last := Max(g.last, seqno)), AccountOnTime(f, c, seqno))
  {
    if IsGap(c, seqno) {
      hide *;
      NotedGapKeepsBooks(c, f, seqno);
      NoteGapLast(c, seqno);
    }
  }

  lemma NoteGapLast(c: Client, seqno: u32)
    ensures IsGap(c, seqno) ==> NoteGap(c, seqno).last == c.last <= seqno && Max(c.last, seqno) == seqno
  {
  }

  lemma LateKeepsBooks(c: Client, f: Ledger, seqno: u32)
    requires ClientInv(c) && seqno < LIMIT && BooksBut(c, f, seqno)
    ensures Books(c.(missing := Prune(c.missing, seqno), last := Max(c.last, seqno)), AccountLate(f, c, seqno))
  {
    PruneExactly(c.missing, seqno);
  }

  lemma AudioKeepsBooks(c: Client, f: Ledger, a: Audio, ctime: Timespec, d: Decoder)
    requires ClientInv(c) && Books(c, f) && a.header.nonce < LIMIT && Ready(c, a, d)
    ensures Books(HandleAudio(c, a, ctime, d), AccountAudio(f, c, a, ctime, d))
  {
    hide SetUp, NoteGap, PutChunk, AccountOnTime, AccountLate;
    var seqno := a.header.nonce;
    ListWithout(c, seqno);
    SetUpKeepsInv(c.(missing := RemoveRequest(c.missing, seqno)), a, d);
    var c1 := SetUp(c.(missing := RemoveRequest(c.missing, seqno)), a, d);
    assert BooksBut(c1, f, seqno);
    if OnTime(a, ctime) { NoteGapKeepsBooks(c1, f, seqno); } else { LateKeepsBooks(c1, f, seqno); }
  }

  // ----- Retry chains

  /** Every firing of a task for n brings the chains for n closer to their end; one that asks uses up
      one retry; and one that does not ask leaves n no longer missing. */
  lemma FireWeighs(c: Client, i: nat, n: nat)
    requires ClientInv(c) && i < |c.tasks|
    ensures var (c', sent) := FireRequest(c, i);
      if n != c.tasks[i].nonce then
        Weight(c'.tasks, n) == Weight(c.tasks, n) && Credit(c'.tasks, n) == Credit(c.tasks, n)
      else
        && Weight(c'.tasks, n) < Weight(c.tasks, n)
        && Credit(c'.tasks, n) <= Credit(c.tasks, n) - (if sent then 1 else 0)
        && (!sent ==> n !in c'.missing)
  {
    var t := c.tasks[i];
    var others := c.tasks[..i] + c.tasks[i + 1..];
    var again := [Request(t.nonce, if t.retriesLeft > 0 then t.retriesLeft - 1 else 0)];
    WeighWithout(c.tasks, i, n, 0);
    WeighWithout(c.tasks, i, n, 1);
    WeighConcat(others, again, n, 0);
    WeighConcat(others, again, n, 1);
    RemoveRequestExactly(c.missing, t.nonce);
  }

  lemma FireKeepsInv(c: Client, i: nat)
    requires ClientInv(c) && i < |c.tasks|
    ensures ClientInv(FireRequest(c, i).0)
  {
    var (c', sent) := FireRequest(c, i);
    RemoveRequestExactly(c.missing, c.tasks[i].nonce);
    forall n | n in c'.missing ensures Weight(c'.tasks, n) > 0 {
      FireWeighs(c, i, n);
      if n == c.tasks[i].nonce {
        var t := c.tasks[i];
        WeighConcat(c.tasks[..i] + c.tasks[i + 1..], [Request(t.nonce, t.retriesLeft - 1)], n, 1);
      }
    }
  }

  lemma FireKeepsBooks(c: Client, f: Ledger, i: nat)
    requires ClientInv(c) && Books(c, f) && i < |c.tasks|
    ensures Books(FireRequest(c, i).0, AccountFiring(f, c, i))
  {
    RemoveRequestExactly(c.missing, c.tasks[i].nonce);
  }

  /** An arriving packet starts a chain for every number of a gap it opens, with the full number of
      retries, and leaves the chains of all other numbers alone. */
  lemma AudioWeighs(c: Client, a: Audio, ctime: Timespec, d: Decoder, n: nat, surcharge: nat)
    requires ClientInv(c) && a.header.nonce < LIMIT && Ready(c, a, d)
    ensures var c' := HandleAudio(c, a, ctime, d);
      Weigh(c'.tasks, n, surcharge)
      == Weigh(c.tasks, n, surcharge) + if n > c.last && n in c'.missing then Retries(c'.bufferms) + surcharge else 0
  {
    hide SetUp, NoteGap, PutChunk;
    var seqno := a.header.nonce;
    ListWithout(c, seqno);
    SetUpKeepsInv(c.(missing := RemoveRequest(c.missing, seqno)), a, d);
    var c1 := SetUp(c.(missing := RemoveRequest(c.missing, seqno)), a, d);
    if IsGap(c1, seqno) { NotedGapWeighs(c1, seqno, n, surcharge); } else { NoGapNoted(c1, seqno); }
    PruneExactly(c1.missing, seqno);
  }

  lemma NoGapNoted(c: Client, seqno: u32)
    requires !IsGap(c, seqno)
    ensures var g := NoteGap(c, seqno); g.tasks == c.tasks && g.missing == c.missing && g.bufferms == c.bufferms
  {
  }

  lemma NotedGapWeighs(c: Client, seqno: u32, n: nat, surcharge: nat)
    requires ClientInv(c) && c.capacity > 0 && seqno < LIMIT && IsGap(c, seqno)
    ensures NoteGap(c, seqno).bufferms == c.bufferms
    ensures var g := NoteGap(c, seqno);
      Weigh(g.tasks, n, surcharge)
      == Weigh(c.tasks, n, surcharge) + if n > c.last && n in g.missing then Retries(g.bufferms) + surcharge else 0
  {
    hide NoteGap, RequestGap, GapStart, Limit, Range, RequestsFor;
    NoteGapExactly(c, seqno);
    LimitKeepsNewest(c.missing + Range(c.last + 1, seqno), c.capacity);
    WeighConcat(c.tasks, RequestsFor(c.last + 1, seqno, Retries(c.bufferms)), n, surcharge);
    RequestsWeigh(c.last + 1, seqno, Retries(c.bufferms), n, surcharge);
  }

  /** An arriving packet is no longer missing and makes nothing missing but the numbers of its gap. */
  lemma AudioSettles(c: Client, a: Audio, ctime: Timespec, d: Decoder, n: nat)
    requires ClientInv(c) && a.header.nonce < LIMIT && Ready(c, a, d)
    ensures var c' := HandleAudio(c, a, ctime, d);
      && c'.last == Max(c.last, a.header.nonce) && a.header.nonce !in c'.missing
      && (n in c'.missing ==> n in c.missing || c.last < n < a.header.nonce)
  {
    hide SetUp, NoteGap, PutChunk;
    var seqno := a.header.nonce;
    ListWithout(c, seqno);
    SetUpKeepsInv(c.(missing := RemoveRequest(c.missing, seqno)), a, d);
    var c1 := SetUp(c.(missing := RemoveRequest(c.missing, seqno)), a, d);
    NoteGapSettles(c1, seqno, n);
    NoteGapSettles(c1, seqno, seqno);
    PruneExactly(c1.missing, seqno);
  }

  lemma NoteGapSettles(c: Client, seqno: u32, n: nat)
    requires ClientInv(c) && c.capacity > 0 && seqno < LIMIT
    ensures var g := NoteGap(c, seqno);
      && Max(g.last, seqno) == Max(c.last, seqno)
      && (n in g.missing ==> n in c.missing || c.last < n < seqno)
  {
    if IsGap(c, seqno) {
      NoteGapExactly(c, seqno);
      LimitKeepsNewest(c.missing + Range(c.last + 1, seqno), c.capacity);
    }
  }

  lemma AudioKeepsRecent(c: Client, a: Audio, ctime: Timespec, d: Decoder)
    requires Ready(c, a, d)
    ensures HandleAudio(c, a, ctime, d).recent == c.recent
  {
    hide PutChunk, RequestGap, GapStart, RemoveRequest, Prune;
  }

  /** The number of retries is one per interval of the buffer, exactly when that fits eight bits. */
  lemma RetriesExactly(bufferms: u16)
    ensures Retries(bufferms) == bufferms / 100 <==> bufferms < 25600
    ensures Retries(25600) == 0
  {
  }
}
