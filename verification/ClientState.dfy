/** The receiver's operations on its own fields (src/intercom_client.c). */
module ClientState {
  import opened Arith
  import opened Time
  import opened Chunk
  import opened Wire
  import opened Client
  import PQ = PQueue

  class IntercomClient {
    var lastReceivedSeqno: nat
    var missingPackets: seq<nat>
    var receiveBuffer: seq<Entry>
    var capacity: nat
    var bufferms: u16
    var tasks: seq<Request>
    var recentPackets: seq<Header>

    constructor ()
      ensures State() == INIT
    {
      lastReceivedSeqno, missingPackets, receiveBuffer, capacity := 0, [], [], 0;
      bufferms, tasks, recentPackets := 0, [], [];
    }

    function State(): Client
      reads this
    {
      Client(lastReceivedSeqno, missingPackets, receiveBuffer, capacity, bufferms, tasks, recentPackets)
    }

    method LimitMissingPackets(maxsize: nat)
      modifies this`missingPackets
      ensures missingPackets == Limit(old(missingPackets), maxsize)
    {
      while |missingPackets| > maxsize
        invariant Limit(missingPackets, maxsize) == Limit(old(missingPackets), maxsize)
      {
        missingPackets := missingPackets[1..];
      }
    }

    method PruneMissingPackets(oldest: nat)
      modifies this`missingPackets
      ensures missingPackets == Prune(old(missingPackets), oldest)
    {
      var i := |missingPackets| - 1;
      ghost var all := missingPackets;
      while i >= 0
        invariant -1 <= i < |all|
        invariant missingPackets == all[..i + 1] + Pruned(all, i + 1, oldest)
        decreases i
      {
        PrunedStep(all, i, oldest);
        if missingPackets[i] <= oldest {
          missingPackets := missingPackets[..i] + missingPackets[i + 1..];
        }
        i := i - 1;
      }
      assert all[..0] + Pruned(all, 0, oldest) == Pruned(all, 0, oldest);
      PrunedAll(all, oldest);
    }

    method RemoveOneRequest(nonce: nat) returns (found: bool)
      modifies this`missingPackets
      ensures missingPackets == RemoveRequest(old(missingPackets), nonce) && found == (nonce in old(missingPackets))
    {
      var i := 0;
      while i < |missingPackets|
        invariant 0 <= i <= |missingPackets| && missingPackets == old(missingPackets)
        invariant nonce !in missingPackets[..i]
      {
        if missingPackets[i] == nonce {
          RemoveAt(missingPackets, i, nonce);
          missingPackets := missingPackets[..i] + missingPackets[i + 1..];
          return true;
        }
        i := i + 1;
      }
      RemoveAbsent(missingPackets, nonce);
      found := false;
    }

    method RemoveOldData(ctime: Timespec)
      modifies this`receiveBuffer
      ensures receiveBuffer == DropOld(old(receiveBuffer), ctime)
    {
      while receiveBuffer != [] && Outdated(receiveBuffer[0], ctime)
        invariant DropOld(receiveBuffer, ctime) == DropOld(old(receiveBuffer), ctime)
        decreases |receiveBuffer|
      {
        receiveBuffer := PQ.Dequeue(receiveBuffer);
      }
    }

    method RequestMissing(seqno: nat)
      modifies this`missingPackets, this`tasks
      ensures (missingPackets, tasks) == RequestGap(old(missingPackets), old(tasks),
        GapStart(lastReceivedSeqno, seqno, capacity), seqno, capacity, Retries(bufferms))
    {
      var i := GapStart(lastReceivedSeqno, seqno, capacity);
      while i < seqno
        invariant RequestGap(missingPackets, tasks, i, seqno, capacity, Retries(bufferms))
          == RequestGap(old(missingPackets), old(tasks),
              GapStart(lastReceivedSeqno, seqno, capacity), seqno, capacity, Retries(bufferms))
      {
        if i !in missingPackets {
          missingPackets := missingPackets + [i];
          LimitMissingPackets(capacity);
          tasks := tasks + [Request(i, Retries(bufferms))];
        }
        i := i + 1;
      }
    }

    method Handle(a: Audio, ctime: Timespec, d: Decoder) returns (stored: bool)
      requires Ready(State(), a, d)
      modifies this
      ensures State() == HandleAudio(old(State()), a, ctime, d) && stored == OnTime(a, ctime)
    {
      hide RequestGap, GapStart, Prune, DropOld, RemoveRequest, IsNextChunk, DurationMs;
      var seqno := a.header.nonce;
      var e := EntryOf(State(), a, d);
      var _ := RemoveOneRequest(seqno);
      if capacity == 0 {
        var chunkMs := DurationMs(Decoded(d, a.chunk));
        receiveBuffer, capacity, bufferms := [], Quotient(a.bufferms, chunkMs) + 1, a.bufferms;
      }
      if Cmp(a.chunk.PlayAt(), ctime) > 0 {
        if !IsNextChunk(lastReceivedSeqno, seqno) {
          var isRetransmit := seqno < lastReceivedSeqno;
          var isFarInFuture := !isRetransmit && seqno - lastReceivedSeqno >= capacity;
          if !isRetransmit {
            if isFarInFuture {
              lastReceivedSeqno := seqno;
              receiveBuffer := [];
            } else {
              RequestMissing(seqno);
            }
          }
        }
        RemoveOldData(ctime);
        receiveBuffer := PQ.Enqueue(receiveBuffer, e, capacity);
        if seqno > lastReceivedSeqno { lastReceivedSeqno := seqno; }
        stored := true;
      } else {
        if seqno > lastReceivedSeqno { lastReceivedSeqno := seqno; }
        PruneMissingPackets(seqno);
        stored := false;
      }
    }

    method HandleNew(a: Audio, ctime: Timespec, d: Decoder)
      requires Ready(State(), a, d)
      modifies this
      ensures State() == HandlePacket(old(State()), a, ctime, d)
    {
      if RecentlySeen(recentPackets, a.header) { return; }
      RecentlySeenAdd(a.header);
      var _ := Handle(a, ctime, d);
    }

    method RecentlySeenAdd(h: Header)
      modifies this`recentPackets
      ensures recentPackets == Remember(old(recentPackets), h)
    {
      while |recentPackets| > INTERCOM_MAX_RECENT
        invariant Remember(recentPackets, h) == Remember(old(recentPackets), h)
      {
        recentPackets := recentPackets[1..];
      }
      recentPackets := recentPackets + [h];
    }

    method HandleServerOperation(stop: bool)
      modifies this
      ensures State() == HandleOrder(old(State()), stop)
    {
      if RecentlySeen(recentPackets, ORDER) { return; }
      RecentlySeenAdd(ORDER);
      if stop { HandleStop(); }
    }

    method DecodeFirstInput(d: Decoder)
      modifies this`receiveBuffer
      ensures State() == DecodeFirst(old(State()), d)
    {
      if receiveBuffer != [] {
        var e := receiveBuffer[0];
        receiveBuffer := receiveBuffer[0 := Entry(e.seqno, Decoded(d, e.chunk), true)];
      }
    }

    method RequestTask(i: nat) returns (sent: bool)
      requires i < |tasks|
      modifies this`tasks, this`missingPackets
      ensures (State(), sent) == FireRequest(old(State()), i)
    {
      var t := tasks[i];
      tasks := tasks[..i] + tasks[i + 1..];
      sent := false;
      if t.retriesLeft > 0 {
        if t.nonce in missingPackets {
          sent := true;
          tasks := tasks + [Request(t.nonce, t.retriesLeft - 1)];
        }
      } else {
        var _ := RemoveOneRequest(t.nonce);
      }
    }

    method HandleStop()
      modifies this
      ensures State() == Stop(old(State()))
    {
      while |missingPackets| > 0
        invariant State().(missing := []) == old(State()).(missing := [])
      {
        missingPackets := missingPackets[1..];
      }
      receiveBuffer, capacity, lastReceivedSeqno := [], 0, 0;
    }
  }

  // ----- The loops above, one step at a time

  /** What pruning leaves of the entries from position i on. */
  ghost function Pruned(missing: seq<nat>, i: nat, oldest: nat): seq<nat>
    requires i <= |missing|
    decreases |missing| - i
  {
    if i == |missing| then []
    else (if missing[i] <= oldest then [] else [missing[i]]) + Pruned(missing, i + 1, oldest)
  }

  lemma PrunedStep(missing: seq<nat>, i: nat, oldest: nat)
    requires i < |missing|
    ensures missing[..i + 1] == missing[..i] + [missing[i]]
  {
  }

  lemma {:induction false} PrunedLast(missing: seq<nat>, i: nat, n: nat, oldest: nat)
    requires i <= |missing|
    ensures Pruned(missing + [n], i, oldest) == Pruned(missing, i, oldest) + (if n <= oldest then [] else [n])
    decreases |missing| - i
  {
    if i == |missing| {
      assert Pruned(missing + [n], i + 1, oldest) == [];
    } else {
      PrunedLast(missing, i + 1, n, oldest);
    }
  }

  lemma {:induction false} PrunedAll(missing: seq<nat>, oldest: nat)
    ensures Pruned(missing, 0, oldest) == Prune(missing, oldest)
  {
    if missing != [] {
      var front, n := missing[..|missing| - 1], missing[|missing| - 1];
      assert missing == front + [n];
      PrunedLast(front, 0, n, oldest);
      PrunedAll(front, oldest);
    }
  }

  lemma {:induction false} RemoveAt(missing: seq<nat>, i: nat, nonce: nat)
    requires i < |missing| && missing[i] == nonce && nonce !in missing[..i]
    ensures RemoveRequest(missing, nonce) == missing[..i] + missing[i + 1..]
  {
    if i > 0 {
      assert missing[0] == missing[..i][0];
      assert missing[1..][..i - 1] == missing[..i][1..];
      RemoveAt(missing[1..], i - 1, nonce);
      assert missing[1..][i..] == missing[i + 1..];
    }
  }

  lemma {:induction false} RemoveAbsent(missing: seq<nat>, nonce: nat)
    requires nonce !in missing
    ensures RemoveRequest(missing, nonce) == missing
  {
    if missing != [] { RemoveAbsent(missing[1..], nonce); }
  }
}
