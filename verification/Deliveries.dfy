/** What becomes of what is delivered, over whole runs: which packets and orders are taken for duplicates,
    and which chunks enter the buffer (src/intercom.c, src/intercom_client.c). */
module Deliveries {
  import opened Arith
  import opened Time
  import opened Chunk
  import opened Wire
  import opened Server
  import opened Client
  import opened Recovery
  import opened System
  import opened Runs
  import opened Labels
  import PQ = PQueue

  // ----- Duplicates

  /** What the network can deliver to the client. */
  datatype Delivery = Order | Packet(bytes: Bytes)

  /** The last thing delivered within the first k events. */
  function LastDelivery(cfg: Config, es: seq<Event>, k: nat): Option<Delivery>
    requires k <= |es|
  {
    if k == 0 then None
    else
      match es[k - 1]
      case DeliverOrder(_) => Some(Order)
      case DeliverAudio(p, _) =>
        if Enabled(cfg, After(cfg, es, k - 1), es[k - 1]) then Some(Packet(p)) else LastDelivery(cfg, es, k - 1)
      case _ => LastDelivery(cfg, es, k - 1)
  }

  ghost predicate Newest(recent: seq<Header>, h: Header) {
    recent != [] && recent[|recent| - 1] == h
  }

  /** The newest header that the client remembers is that of the last delivery. */
  ghost predicate Remembers(cfg: Config, s: State, last: Option<Delivery>) {
    match last
    case None => s.client.recent == []
    case Some(Order) => Newest(s.client.recent, ORDER)
    case Some(Packet(p)) =>
      p in s.toClient && ParseAudio(p).Some? && Newest(s.client.recent, ParseAudio(p).value.header)
  }

  /** The header of a packet is that of an audio packet of its number. */
  lemma GenuineHeader(cfg: Config, s: State, p: Bytes)
    requires Inv(cfg, s) && p in s.toClient
    ensures ParseAudio(p).Some?
    ensures var h := ParseAudio(p).value.header; h == Header(PACKET_FORMAT_VERSION, AUDIO_DATA, 0, h.nonce)
  {
    var a := DeliveredIsGenuine(cfg, s, p);
  }

  /** Packets of the same number are the same packet. */
  lemma SameNumberSamePacket(cfg: Config, s: State, p: Bytes, q: Bytes)
    requires Inv(cfg, s) && p in s.toClient && q in s.toClient
    ensures ParseAudio(p).Some? && ParseAudio(q).Some?
    ensures ParseAudio(p).value.header.nonce == ParseAudio(q).value.header.nonce ==> p == q
  {
    hide ParseAudio, AssembleAudio;
    var a := DeliveredIsGenuine(cfg, s, p);
    var b := DeliveredIsGenuine(cfg, s, q);
  }

  lemma DeliveryIsRemembered(cfg: Config, s: State, p: Bytes, ctime: Timespec, last: Option<Delivery>)
    requires Inv(cfg, s) && Remembers(cfg, s, last)
    ensures Enabled(cfg, s, DeliverAudio(p, ctime)) ==>
      Remembers(cfg, Delivered(cfg.decoder, s, p, ctime), Some(Packet(p)))
  {
    hide HandleAudio, AccountAudio, ParseAudio, Inv;
    if Enabled(cfg, s, DeliverAudio(p, ctime)) {
      GenuineHeader(cfg, s, p);
      var a := ParseAudio(p).value;
      if RecentlySeen(s.client.recent, a.header) {
        if last.value.Packet? { GenuineHeader(cfg, s, last.value.bytes); }
      } else {
        AudioKeepsRecent(s.client.(recent := Remember(s.client.recent, a.header)), a, ctime, cfg.decoder);
      }
    }
  }

  lemma OrderIsRemembered(cfg: Config, s: State, stop: bool, last: Option<Delivery>)
    requires Inv(cfg, s) && Remembers(cfg, s, last)
    ensures Newest(HandleOrder(s.client, stop).recent, ORDER)
  {
    hide ParseAudio;
    if last.Some? && last.value.Packet? { GenuineHeader(cfg, s, last.value.bytes); }
  }

  lemma StepIsRemembered(cfg: Config, s: State, e: Event, last: Option<Delivery>)
    requires Inv(cfg, s) && Remembers(cfg, s, last)
    ensures var now :=
      match e
      case DeliverOrder(_) => Some(Order)
      case DeliverAudio(p, _) => if Enabled(cfg, s, e) then Some(Packet(p)) else last
      case _ => last;
      Remembers(cfg, Next(cfg, s, e), now)
  {
    hide Inv, Delivered, HandleOrder, AccountFiring, Expire, RequestsFrom, ParseAudio;
    if Enabled(cfg, s, e) {
      match e
      case DeliverAudio(p, ctime) => DeliveryIsRemembered(cfg, s, p, ctime, last);
      case DeliverOrder(stop) => OrderIsRemembered(cfg, s, stop, last);
      case _ =>
    }
  }

  /** In every reachable state the newest header remembered is that of the last delivery, whether that was
      handled or not. */
  lemma {:induction false} LastDeliveryIsRemembered(cfg: Config, es: seq<Event>, k: nat)
    requires k <= |es|
    ensures Remembers(cfg, After(cfg, es, k), LastDelivery(cfg, es, k))
  {
    hide Next, Enabled, Inv, Remembers;
    if k > 0 {
      LastDeliveryIsRemembered(cfg, es, k - 1);
      InvHolds(cfg, es, k - 1);
      StepIsRemembered(cfg, After(cfg, es, k - 1), es[k - 1], LastDelivery(cfg, es, k - 1));
    } else {
      NothingIsRemembered(cfg);
    }
  }

  lemma NothingIsRemembered(cfg: Config)
    ensures Remembers(cfg, START, None)
  {
  }

  /** In every run, a stop order is obeyed if and only if the delivery before it was not an order, whatever
      else happened in between. */
  lemma StopIsObeyedExactly(cfg: Config, es: seq<Event>, k: nat)
    requires k < |es| && es[k] == DeliverOrder(true)
    ensures Resets(After(cfg, es, k), es[k]) <==> LastDelivery(cfg, es, k) != Some(Order)
  {
    hide ParseAudio, After, LastDelivery, Inv;
    var s, last := After(cfg, es, k), LastDelivery(cfg, es, k);
    LastDeliveryIsRemembered(cfg, es, k);
    InvHolds(cfg, es, k);
    if last.Some? && last.value.Packet? { GenuineHeader(cfg, s, last.value.bytes); }
  }

  /** In every run, a packet is taken for a duplicate if and only if the delivery before it was the same
      packet. */
  lemma PacketIsIgnoredExactly(cfg: Config, es: seq<Event>, k: nat, p: Bytes)
    requires k <= |es| && p in After(cfg, es, k).toClient
    ensures Arrival(After(cfg, es, k), p) == None <==> LastDelivery(cfg, es, k) == Some(Packet(p))
  {
    hide ParseAudio, After, LastDelivery, Inv;
    var s, last := After(cfg, es, k), LastDelivery(cfg, es, k);
    LastDeliveryIsRemembered(cfg, es, k);
    InvHolds(cfg, es, k);
    GenuineHeader(cfg, s, p);
    if last.Some? && last.value.Packet? {
      GenuineHeader(cfg, s, last.value.bytes);
      SameNumberSamePacket(cfg, s, p, last.value.bytes);
    }
  }

  // ----- What enters the buffer

  /** How many chunks of number n are buffered. */
  function Copies(buffer: seq<Entry>, n: nat): nat {
    if buffer == [] then 0 else (if buffer[0].seqno == n then 1 else 0) + Copies(buffer[1..], n)
  }

  /** The audio packet that the client handles in this event, in time. */
  function InTime(cfg: Config, s: State, e: Event): (a: Option<Audio>)
    ensures a.Some? ==> e.DeliverAudio?
  {
    if e.DeliverAudio? && Enabled(cfg, s, e) then
      match Arrival(s, e.packet)
      case None => None
      case Some(a) => if OnTime(a, e.ctime) then Some(a) else None
    else None
  }

  /** What a delivery leaves of the buffer, before the new chunk is put in: a packet in time throws away
      what is too old, and everything if there is a huge gap before it. */
  function Remaining(cfg: Config, s: State, e: Event): seq<Entry> {
    match InTime(cfg, s, e)
    case None => s.client.buffer
    case Some(a) =>
      var huge := HugeGap(s.client, a.header.nonce, Next(cfg, s, e).client.capacity);
      DropOld(if huge then [] else s.client.buffer, e.ctime)
  }

  /** The event delivers packet n, not taken for a duplicate, in time, and there is room for it. */
  predicate Admits(cfg: Config, s: State, e: Event, n: nat) {
    var a := InTime(cfg, s, e);
    a.Some? && a.value.header.nonce == n && |Remaining(cfg, s, e)| < Next(cfg, s, e).client.capacity
  }

  /** What a packet enters into the buffer: the chunk as it came, or decoded if it sets up the buffer. */
  function Entered(cfg: Config, c: Client, a: Audio): Entry {
    var first := c.capacity == 0;
    Entry(a.header.nonce, if first then Decoded(cfg.decoder, a.chunk) else a.chunk, first)
  }

  /** In a state with the invariant and a buffer within its capacity, a delivery adds its chunk to what
      remains if it is admitted, and nothing otherwise. */
  lemma DeliveryBuffers(cfg: Config, s: State, e: Event)
    requires Inv(cfg, s) && |s.client.buffer| <= s.client.capacity && e.DeliverAudio?
    ensures var a, b' := InTime(cfg, s, e), Next(cfg, s, e).client.buffer;
      multiset(b') == multiset(Remaining(cfg, s, e)) +
        if a.Some? && Admits(cfg, s, e, a.value.header.nonce) then multiset{Entered(cfg, s.client, a.value)}
        else multiset{}
  {
    hide HandleAudio, AccountAudio, ParseAudio, DropOld, Inv, Remember;
    ClientOf(cfg, s);
    if Enabled(cfg, s, e) {
      var a := DeliveredIsGenuine(cfg, s, e.packet);
      if !RecentlySeen(s.client.recent, a.header) {
        var c := s.client.(recent := Remember(s.client.recent, a.header));
        assert Next(cfg, s, e).client == HandleAudio(c, a, e.ctime, cfg.decoder);
        ArrivalBuffersExactly(c, a, e.ctime, cfg.decoder);
      }
    }
  }

  lemma {:induction false} CopiesConcat(a: seq<Entry>, b: seq<Entry>, n: nat)
    ensures Copies(a + b, n) == Copies(a, n) + Copies(b, n)
  {
    if a == [] {
      assert a + b == b;
    } else {
      assert (a + b)[1..] == a[1..] + b;
      CopiesConcat(a[1..], b, n);
    }
  }

  function Without(b: seq<Entry>, j: nat): seq<Entry>
    requires j < |b|
  {
    b[..j] + b[j + 1..]
  }

  lemma WithoutOne(b: seq<Entry>, j: nat, n: nat)
    requires j < |b|
    ensures multiset(b) == multiset(Without(b, j)) + multiset{b[j]}
    ensures Copies(b, n) == Copies(Without(b, j), n) + if b[j].seqno == n then 1 else 0
  {
    var tail := [b[j]] + b[j + 1..];
    assert b == b[..j] + tail;
    CopiesConcat(b[..j], b[j + 1..], n);
    CopiesConcat(b[..j], tail, n);
    CopiesConcat([b[j]], b[j + 1..], n);
  }

  /** The number of copies does not depend on the order. */
  lemma {:induction false} CopiesOfBag(a: seq<Entry>, b: seq<Entry>, n: nat)
    requires multiset(a) == multiset(b)
    ensures Copies(a, n) == Copies(b, n)
    decreases |a|
  {
    if a == [] {
      assert |b| == |multiset(b)| == 0;
    } else {
      hide Without, Copies;
      assert a[0] in multiset(b);
      var j :| 0 <= j < |b| && b[j] == a[0];
      WithoutOne(a, 0, n);
      WithoutOne(b, j, n);
      Shorter(a);
      assert multiset(Without(a, 0)) == multiset(a) - multiset{a[0]};
      assert multiset(Without(b, j)) == multiset(b) - multiset{a[0]};
      CopiesOfBag(Without(a, 0), Without(b, j), n);
    }
  }

  lemma Shorter(a: seq<Entry>)
    requires a != []
    ensures |Without(a, 0)| < |a|
  {
  }

  /** In every run, a delivery of packet n adds a copy of n to what remains of the buffer if and only if it
      is not taken for a duplicate, is in time, and there is room; it adds no copy of another number. */
  lemma DeliveryCopiesExactly(cfg: Config, es: seq<Event>, k: nat, n: nat)
    requires k < |es| && es[k].DeliverAudio?
    ensures var s := After(cfg, es, k);
      Copies(Next(cfg, s, es[k]).client.buffer, n)
      == Copies(Remaining(cfg, s, es[k]), n) + if Admits(cfg, s, es[k], n) then 1 else 0
  {
    hide After, Inv, Next, InTime, Remaining;
    InvHolds(cfg, es, k);
    BufferFits(cfg, es, k);
    DeliveryCopies(cfg, After(cfg, es, k), es[k], n);
  }

  lemma DeliveryCopies(cfg: Config, s: State, e: Event, n: nat)
    requires Inv(cfg, s) && |s.client.buffer| <= s.client.capacity && e.DeliverAudio?
    ensures Copies(Next(cfg, s, e).client.buffer, n)
         == Copies(Remaining(cfg, s, e), n) + if Admits(cfg, s, e, n) then 1 else 0
  {
    hide Inv, Next, InTime, Remaining;
    var a, b := InTime(cfg, s, e), Next(cfg, s, e).client.buffer;
    DeliveryBuffers(cfg, s, e);
    if a.Some? && Admits(cfg, s, e, a.value.header.nonce) {
      var x := Entered(cfg, s.client, a.value);
      CopiesOfBag(b, Remaining(cfg, s, e) + [x], n);
      CopiesConcat(Remaining(cfg, s, e), [x], n);
    } else {
      CopiesOfBag(b, Remaining(cfg, s, e), n);
    }
  }

  /** Fewer entries, fewer copies. */
  lemma {:induction false} FewerCopies(a: seq<Entry>, b: seq<Entry>, n: nat)
    requires multiset(a) <= multiset(b)
    ensures Copies(a, n) <= Copies(b, n)
    decreases |b| - |a|
  {
    if multiset(a) == multiset(b) {
      CopiesOfBag(a, b, n);
    } else {
      var x :| x in b && multiset(a)[x] < multiset(b)[x];
      assert multiset(a + [x]) <= multiset(b);
      assert |multiset(b) - multiset(a)| == |b| - |a|;
      FewerCopies(a + [x], b, n);
      CopiesConcat(a, [x], n);
    }
  }

  lemma RemainingCopies(cfg: Config, s: State, e: Event, n: nat)
    ensures Copies(Remaining(cfg, s, e), n) <= Copies(s.client.buffer, n)
  {
    hide Next, InTime;
    if InTime(cfg, s, e).Some? {
      DropOldExactly(s.client.buffer, e.ctime);
      DropOldExactly([], e.ctime);
      FewerCopies(DropOld(s.client.buffer, e.ctime), s.client.buffer, n);
    }
  }

  lemma DecodingKeepsCopies(c: Client, d: Decoder, n: nat)
    ensures Copies(DecodeFirst(c, d).buffer, n) == Copies(c.buffer, n)
  {
  }

  /** Only a delivery can add a copy. */
  lemma OtherEventsAddNoCopy(cfg: Config, s: State, e: Event, n: nat)
    requires !e.DeliverAudio?
    ensures Copies(Next(cfg, s, e).client.buffer, n) <= Copies(s.client.buffer, n)
  {
    hide Expire, RequestsFrom, AccountFiring, DecodeFirst, Copies, PQ.Dequeue;
    DecodingKeepsCopies(s.client, cfg.decoder, n);
    if s.client.buffer != [] {
      PQ.DequeueConserves(s.client.buffer);
      FewerCopies(PQ.Dequeue(s.client.buffer), s.client.buffer, n);
    }
    FewerCopies([], s.client.buffer, n);
  }

  /** Event k admits packet n although a copy of it remains in the buffer. */
  predicate Repeats(cfg: Config, es: seq<Event>, k: nat, n: nat)
    requires k < |es|
  {
    var s := After(cfg, es, k);
    Admits(cfg, s, es[k], n) && Copies(Remaining(cfg, s, es[k]), n) > 0
  }

  lemma StepCopies(cfg: Config, es: seq<Event>, k: nat, n: nat)
    requires k < |es| && Copies(After(cfg, es, k).client.buffer, n) <= 1
    ensures Copies(After(cfg, es, k + 1).client.buffer, n) <= 1 <==> !Repeats(cfg, es, k, n)
  {
    hide Copies, Next, Remaining, InTime;
    var s := After(cfg, es, k);
    RemainingCopies(cfg, s, es[k], n);
    if es[k].DeliverAudio? {
      DeliveryCopiesExactly(cfg, es, k, n);
    } else {
      OtherEventsAddNoCopy(cfg, s, es[k], n);
      NotAdmitted(cfg, s, es[k], n);
    }
  }

  lemma NotAdmitted(cfg: Config, s: State, e: Event, n: nat)
    requires !e.DeliverAudio?
    ensures !Admits(cfg, s, e, n)
  {
  }

  /** A number is buffered at most once throughout a run if and only if no delivery of its packet is
      admitted while a copy remains in the buffer. */
  lemma {:induction false} BufferedOnceExactly(cfg: Config, es: seq<Event>, k: nat, n: nat)
    requires k <= |es|
    ensures (forall j: nat :: j <= k ==> Copies(After(cfg, es, j).client.buffer, n) <= 1)
       <==> (forall j: nat :: j < k ==> !Repeats(cfg, es, j, n))
  {
    hide Repeats, Copies, Next;
    if k > 0 {
      var i := k - 1;
      BufferedOnceExactly(cfg, es, i, n);
      if Copies(After(cfg, es, i).client.buffer, n) <= 1 { StepCopies(cfg, es, i, n); }
      assert (forall j: nat :: j < k ==> !Repeats(cfg, es, j, n))
        <==> (forall j: nat :: j < i ==> !Repeats(cfg, es, j, n)) && !Repeats(cfg, es, i, n);
    } else {
      NothingBuffered(n);
    }
  }

  lemma NothingBuffered(n: nat)
    ensures Copies(START.client.buffer, n) == 0
  {
  }

  /** A huge gap throws away all that was buffered, however soon it was to be played. */
  lemma HugeGapClearsBuffer(cfg: Config, es: seq<Event>, k: nat)
    requires k < |es|
    ensures var s, s' := After(cfg, es, k), Next(cfg, After(cfg, es, k), es[k]);
      var a := InTime(cfg, s, es[k]);
      a.Some? && HugeGap(s.client, a.value.header.nonce, s'.client.capacity) ==>
        s'.client.buffer == [Entered(cfg, s.client, a.value)]
  {
    hide After, Inv, Next, InTime;
    var s, e := After(cfg, es, k), es[k];
    var a, s' := InTime(cfg, s, e), Next(cfg, s, e);
    if a.Some? && HugeGap(s.client, a.value.header.nonce, s'.client.capacity) {
      InvHolds(cfg, es, k);
      BufferFits(cfg, es, k);
      InTimeIsDelivered(cfg, s, e);
      DeliveryBuffers(cfg, s, e);
      var b := s'.client.buffer;
      assert multiset(b) == multiset{Entered(cfg, s.client, a.value)};
      assert |b| == |multiset(b)| == 1 && b[0] in multiset(b);
    }
  }

  lemma InTimeIsDelivered(cfg: Config, s: State, e: Event)
    requires InTime(cfg, s, e).Some?
    ensures e.DeliverAudio? && Next(cfg, s, e).client.capacity > 0
  {
    hide PutChunk, RequestGap, GapStart, RemoveRequest, Prune, AccountAudio, ParseAudio;
  }

  // ----- How large the buffer is

  /** No packet has been handled since the start or the last stop that was obeyed. */
  ghost predicate NoneHeard(cfg: Config, es: seq<Event>, k: nat)
    requires k <= |es|
  {
    forall i: nat :: i < k && Undisturbed(cfg, es, i, k) ==> Heard(cfg, After(cfg, es, i), es[i]).None?
  }

  /** Event i brings the first packet since then. */
  ghost predicate FirstHeard(cfg: Config, es: seq<Event>, i: nat, k: nat)
    requires k <= |es|
  {
    i < k && Undisturbed(cfg, es, i, k) && NoneHeard(cfg, es, i) && Heard(cfg, After(cfg, es, i), es[i]).Some?
  }

  /** The buffer has room for the chunks of its length, and one more. */
  ghost predicate RoomFor(cfg: Config, capacity: nat, a: Audio) {
    var ms := DurationMs(Decoded(cfg.decoder, a.chunk));
    capacity > 0 && ms > 0 && (capacity - 1) * ms <= cfg.bufferms < capacity * ms
  }

  /** The capacity goes by the first packet heard. */
  ghost predicate SetUpBy(cfg: Config, es: seq<Event>, i: nat, k: nat, capacity: nat)
    requires k <= |es|
  {
    FirstHeard(cfg, es, i, k) && RoomFor(cfg, capacity, Heard(cfg, After(cfg, es, i), es[i]).value)
  }

  lemma AudioSetsCapacity(c: Client, a: Audio, ctime: Timespec, d: Decoder)
    requires Ready(c, a, d)
    ensures HandleAudio(c, a, ctime, d).capacity
         == if c.capacity == 0 then Quotient(a.bufferms, DurationMs(Decoded(d, a.chunk))) + 1 else c.capacity
  {
    hide PutChunk, RequestGap, GapStart, RemoveRequest, Prune, DurationMs;
  }

  lemma RoomIs(bufferms: nat, ms: nat)
    requires ms > 0
    ensures var capacity := Quotient(bufferms, ms) + 1; (capacity - 1) * ms <= bufferms < capacity * ms
  {
    Distribute(ms, Quotient(bufferms, ms), 1);
    Swap(Quotient(bufferms, ms), ms);
    Swap(Quotient(bufferms, ms) + 1, ms);
  }

  lemma StepCapacity(cfg: Config, s: State, e: Event)
    requires Inv(cfg, s)
    ensures var a, c, c' := Heard(cfg, s, e), s.client, Next(cfg, s, e).client;
      && (Resets(s, e) ==> c'.capacity == 0)
      && (a.None? && !Resets(s, e) ==> c'.capacity == c.capacity)
      && (a.Some? ==> c'.capacity > 0)
      && (a.Some? && c.capacity > 0 ==> c'.capacity == c.capacity)
      && (a.Some? && c.capacity == 0 ==> RoomFor(cfg, c'.capacity, a.value))
  {
    hide HandleAudio, AccountAudio, ParseAudio, Inv, Expire, RequestsFrom, AccountFiring, Remember;
    var a := Heard(cfg, s, e);
    if a.Some? {
      var g := DeliveredIsGenuine(cfg, s, e.packet);
      var c := s.client.(recent := Remember(s.client.recent, g.header));
      AudioSetsCapacity(c, g, e.ctime, cfg.decoder);
      if c.capacity == 0 { RoomIs(g.bufferms, DurationMs(Decoded(cfg.decoder, g.chunk))); }
    }
  }

  lemma NoneHeardOn(cfg: Config, es: seq<Event>, j: nat)
    requires j < |es|
    ensures NoneHeard(cfg, es, j + 1)
       <==> Resets(After(cfg, es, j), es[j]) || (NoneHeard(cfg, es, j) && Heard(cfg, After(cfg, es, j), es[j]).None?)
  {
    hide Resets, After, Heard, Undisturbed;
    UndisturbedOn(cfg, es, j);
    NothingDisturbs(cfg, es, j);
    var k := j + 1;
    if NoneHeard(cfg, es, k) && !Resets(After(cfg, es, j), es[j]) {
      forall i: nat | i < j && Undisturbed(cfg, es, i, j) ensures Heard(cfg, After(cfg, es, i), es[i]).None? {
        assert Undisturbed(cfg, es, i, k);
      }
      assert Undisturbed(cfg, es, j, k);
    }
    forall i: nat | i < k && Undisturbed(cfg, es, i, k) ensures i < j ==> Undisturbed(cfg, es, i, j) {}
  }

  lemma NothingDisturbs(cfg: Config, es: seq<Event>, j: nat)
    requires j <= |es|
    ensures Undisturbed(cfg, es, j, j)
  {
  }

  lemma FirstHeardOn(cfg: Config, es: seq<Event>, i: nat, j: nat)
    requires j < |es| && !Resets(After(cfg, es, j), es[j])
    ensures FirstHeard(cfg, es, i, j) ==> FirstHeard(cfg, es, i, j + 1)
    ensures NoneHeard(cfg, es, j) && Heard(cfg, After(cfg, es, j), es[j]).Some? ==> FirstHeard(cfg, es, j, j + 1)
  {
    hide Resets, After, Heard, NoneHeard, Undisturbed;
    UndisturbedOn(cfg, es, j);
    NothingDisturbs(cfg, es, j);
  }

  /** In every run the buffer is set up exactly if a packet has been handled since the last stop, and then
      its capacity goes by the first of these: with ms the duration of that chunk, decoded, it is the one
      for which (capacity - 1) * ms <= bufferms < capacity * ms. */
  lemma {:induction false} CapacityExactly(cfg: Config, es: seq<Event>, k: nat)
    requires k <= |es|
    ensures After(cfg, es, k).client.capacity == 0 <==> NoneHeard(cfg, es, k)
    ensures After(cfg, es, k).client.capacity > 0 ==>
      exists i: nat :: SetUpBy(cfg, es, i, k, After(cfg, es, k).client.capacity)
  {
    hide Next, Resets, Inv, NoneHeard, Heard, SetUpBy;
    if k > 0 {
      var j := k - 1;
      CapacityExactly(cfg, es, j);
      InvHolds(cfg, es, j);
      var s, e := After(cfg, es, j), es[j];
      StepCapacity(cfg, s, e);
      NoneHeardOn(cfg, es, j);
      HeardIsNoReset(cfg, s, e);
      if !Resets(s, e) {
        if s.client.capacity > 0 {
          var i: nat :| SetUpBy(cfg, es, i, j, s.client.capacity);
          SetUpOn(cfg, es, i, j, s.client.capacity);
        } else if Heard(cfg, s, e).Some? {
          SetUpNow(cfg, es, j, Next(cfg, s, e).client.capacity);
        }
      }
    } else {
      NoBuffer(cfg, es);
    }
  }

  lemma SetUpOn(cfg: Config, es: seq<Event>, i: nat, j: nat, capacity: nat)
    requires j < |es| && !Resets(After(cfg, es, j), es[j]) && SetUpBy(cfg, es, i, j, capacity)
    ensures SetUpBy(cfg, es, i, j + 1, capacity)
  {
    hide Resets, After, Heard, NoneHeard, Undisturbed, RoomFor;
    FirstHeardOn(cfg, es, i, j);
  }

  lemma SetUpNow(cfg: Config, es: seq<Event>, j: nat, capacity: nat)
    requires j < |es| && !Resets(After(cfg, es, j), es[j]) && NoneHeard(cfg, es, j)
    requires Heard(cfg, After(cfg, es, j), es[j]).Some?
    requires RoomFor(cfg, capacity, Heard(cfg, After(cfg, es, j), es[j]).value)
    ensures SetUpBy(cfg, es, j, j + 1, capacity)
  {
    hide Resets, After, Heard, NoneHeard, Undisturbed, RoomFor;
    FirstHeardOn(cfg, es, 0, j);
  }

  lemma NoBuffer(cfg: Config, es: seq<Event>)
    ensures START.client.capacity == 0 && NoneHeard(cfg, es, 0)
  {
  }

  lemma HeardIsNoReset(cfg: Config, s: State, e: Event)
    ensures Heard(cfg, s, e).Some? ==> !Resets(s, e)
  {
  }

  lemma UndisturbedOn(cfg: Config, es: seq<Event>, j: nat)
    requires j < |es|
    ensures forall i: nat :: i <= j ==>
      (Undisturbed(cfg, es, i, j + 1) <==> Undisturbed(cfg, es, i, j) && !Resets(After(cfg, es, j), es[j]))
  {
    hide Resets, After;
  }

  // ----- What is too old

  /** The chunk was to be played before the time. */
  predicate TooOld(e: Entry, ctime: Timespec) {
    e.chunk.playSec > 0 && Ns(e.chunk.PlayAt()) < Ns(ctime)
  }

  /** The buffer after so many departures. */
  function Departed(b: seq<Entry>, j: nat): seq<Entry>
    decreases j
  {
    if j == 0 || b == [] then b else Departed(PQ.Dequeue(b), j - 1)
  }

  ghost predicate Stamped(b: seq<Entry>) {
    forall x :: x in b ==> x.chunk.playNsec < BILLION
  }

  /** kept is what is left of b when chunks depart from the front for as long as the first is too old.  No
      chunk is lost that is to be played at ctime or later, or that has no play time. */
  ghost predicate Thinned(b: seq<Entry>, kept: seq<Entry>, ctime: Timespec) {
    && (exists j: nat :: kept == Departed(b, j)
          && forall i: nat :: i < j ==> Departed(b, i) != [] && TooOld(Departed(b, i)[0], ctime))
    && (kept != [] ==> !TooOld(kept[0], ctime))
    && multiset(kept) <= multiset(b)
    && forall x :: multiset(kept)[x] < multiset(b)[x] ==> TooOld(x, ctime)
  }

  lemma OldExactly(e: Entry, ctime: Timespec)
    requires e.chunk.playNsec < BILLION && Normal(ctime)
    ensures Outdated(e, ctime) <==> TooOld(e, ctime)
  {
    CmpIsIntegerOrder(ctime, e.chunk.PlayAt());
  }

  lemma StampedOn(b: seq<Entry>)
    requires Stamped(b) && b != []
    ensures Stamped(PQ.Dequeue(b))
  {
    forall x | x in PQ.Dequeue(b) ensures x.chunk.playNsec < BILLION { DequeueKeeps(b, x); }
  }

  lemma {:induction false} OldGo(b: seq<Entry>, ctime: Timespec) returns (j: nat)
    requires Stamped(b) && Normal(ctime)
    ensures DropOld(b, ctime) == Departed(b, j)
    ensures forall i: nat :: i < j ==> Departed(b, i) != [] && TooOld(Departed(b, i)[0], ctime)
    ensures Departed(b, j) != [] ==> !TooOld(Departed(b, j)[0], ctime)
    decreases |b|
  {
    hide TooOld, Outdated;
    if b == [] { return 0; }
    OldExactly(b[0], ctime);
    if Outdated(b[0], ctime) {
      StampedOn(b);
      var n := OldGo(PQ.Dequeue(b), ctime);
      j := n + 1;
      forall i: nat | i < j ensures Departed(b, i) != [] && TooOld(Departed(b, i)[0], ctime) {
        if i > 0 { assert Departed(b, i) == Departed(PQ.Dequeue(b), i - 1); }
      }
    } else {
      j := 0;
    }
  }

  lemma OldGoExactly(b: seq<Entry>, ctime: Timespec)
    requires Stamped(b) && Normal(ctime)
    ensures Thinned(b, DropOld(b, ctime), ctime)
  {
    hide TooOld, Outdated, DropOld, Departed;
    var kept := DropOld(b, ctime);
    var j := OldGo(b, ctime);
    DropOldExactly(b, ctime);
    forall x | multiset(kept)[x] < multiset(b)[x] ensures TooOld(x, ctime) {
      assert x in multiset(b);
      OldExactly(x, ctime);
    }
  }

  lemma BufferIsStamped(cfg: Config, s: State)
    requires Inv(cfg, s) && Normalised(s.sent)
    ensures Stamped(s.client.buffer)
  {
    forall x | x in s.client.buffer ensures x.chunk.playNsec < BILLION {
      BufferedAgrees(cfg, s, x);
      DecodedOnce(cfg.decoder, s.sent[x.seqno]);
    }
  }

  /** In every run, a packet in time first throws away exactly the chunks at the front that are too old, or
      all if there is a huge gap before it, and then adds its own chunk if there is room. */
  lemma ArrivalThinsExactly(cfg: Config, es: seq<Event>, k: nat)
    requires k < |es| && InTime(cfg, After(cfg, es, k), es[k]).Some?
    requires Normal(es[k].ctime) && Normalised(After(cfg, es, k).sent)
    ensures var s, c' := After(cfg, es, k), After(cfg, es, k + 1).client;
      var a := InTime(cfg, s, es[k]).value;
      exists kept ::
        && (if HugeGap(s.client, a.header.nonce, c'.capacity) then kept == []
            else Thinned(s.client.buffer, kept, es[k].ctime))
        && multiset(c'.buffer)
           == multiset(kept) + if |kept| < c'.capacity then multiset{Entered(cfg, s.client, a)} else multiset{}
  {
    hide Inv, Next, InTime, Thinned, Normalised, DropOld;
    var s, e := After(cfg, es, k), es[k];
    InvHolds(cfg, es, k);
    BufferFits(cfg, es, k);
    DeliveryBuffers(cfg, s, e);
    BufferIsStamped(cfg, s);
    OldGoExactly(s.client.buffer, e.ctime);
    NothingOld(e.ctime);
    assert After(cfg, es, k + 1) == Next(cfg, s, e);
    var kept := Remaining(cfg, s, e);
    assert multiset(Next(cfg, s, e).client.buffer) == multiset(kept) +
      if |kept| < Next(cfg, s, e).client.capacity then multiset{Entered(cfg, s.client, InTime(cfg, s, e).value)}
      else multiset{};
  }

  lemma NothingOld(ctime: Timespec)
    ensures DropOld([], ctime) == []
  {
  }

  // ----- In time, or too late

  /** A packet is in time exactly if its chunk is to be played after the clock, to the nanosecond. */
  lemma InTimeExactly(a: Audio, ctime: Timespec)
    requires a.chunk.playNsec < BILLION && Normal(ctime)
    ensures OnTime(a, ctime) <==> Ns(a.chunk.PlayAt()) > Ns(ctime)
  {
    CmpIsIntegerOrder(a.chunk.PlayAt(), ctime);
  }

  // ----- Orders, decoding and playback

  /** A change of volume leaves everything but the remembered headers alone; a stop that is obeyed leaves
      the tasks and nothing of what was received. */
  lemma OrdersExactly(cfg: Config, s: State, stop: bool)
    ensures var s' := Next(cfg, s, DeliverOrder(stop)); var c, c' := s.client, s'.client;
      && s' == s.(client := c', ledger := s'.ledger)
      && c'.tasks == c.tasks && c'.bufferms == c.bufferms
      && (Resets(s, DeliverOrder(stop)) ==>
            c'.missing == [] && c'.buffer == [] && c'.capacity == 0 && c'.last == 0 && s'.ledger == map[])
      && (!Resets(s, DeliverOrder(stop)) ==> c' == c.(recent := c'.recent) && s'.ledger == s.ledger)
  {
  }

  /** Decoding ahead of time replaces the first chunk, if it is encoded, by what the decoder makes of it, and
      touches no other and nothing else. */
  lemma HeadIsDecoded(cfg: Config, s: State)
    requires s.client.buffer != []
    ensures var b, s' := s.client.buffer, Next(cfg, s, DecodeHead); var b' := s'.client.buffer;
      && s' == s.(client := s.client.(buffer := b'))
      && |b'| == |b| && b'[1..] == b[1..] && b'[0].seqno == b[0].seqno
      && b'[0].chunk == (if b[0].chunk.codec == CODEC_OPUS then
                           b[0].chunk.(data := cfg.decoder(b[0].chunk), codec := CODEC_PCM)
                         else b[0].chunk)
  {
  }

  /** Playback takes the first chunk out of the buffer and leaves all others and everything else. */
  lemma PlaybackTakesFirst(cfg: Config, s: State)
    ensures var b, s' := s.client.buffer, Next(cfg, s, Event.Play); var b' := s'.client.buffer;
      && s' == s.(client := s.client.(buffer := b'))
      && (if b == [] then b' == [] else multiset(b') + multiset{b[0]} == multiset(b))
  {
    hide PQ.Dequeue;
    if s.client.buffer != [] { PQ.DequeueConserves(s.client.buffer); }
  }
}
