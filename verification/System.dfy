/** Server, client and a network that loses, reorders and duplicates packets, as one state machine
    (src/intercom_srv.c, src/intercom_client.c). */
module System {
  import opened Time
  import opened Chunk
  import opened Wire
  import opened Server
  import S = Server
  import opened Client
  import C = Client
  import opened Recovery
  import PQ = PQueue

  /** The length of the buffer that the server announces, and the decoder of the client. */
  datatype Config = Config(bufferms: u16, decoder: Decoder)

  /** The network is the set of packets ever sent: a packet in it may be delivered at any time, in any
      order, any number of times, or never. */
  datatype State = State(server: Stream, sent: History, client: Client, toClient: set<Bytes>, toServer: set<Bytes>,
                         ledger: Ledger)

  const START := State(Stream(0, []), [], INIT, {}, {}, map[])

  datatype Event =
    | SendAudio(chunk: PcmChunk)
    | ExpireWindow(clients: nat, ctime: Timespec)
    | ServeRequest(packet: Bytes)
    | DeliverAudio(packet: Bytes, ctime: Timespec)
    | DeliverOrder(stop: bool)
    | FireTask(i: nat, clientid: u16, own: u32)
    | DecodeHead
    | Play

  /** What can happen: numbers stay below LIMIT, only what was sent is delivered, and the first chunk has
      a duration. */
  predicate Enabled(cfg: Config, s: State, e: Event) {
    match e
    case SendAudio(c) => c.Sized() && |s.sent| + 1 < LIMIT
    case ExpireWindow(_, ctime) => Normal(ctime)
    case ServeRequest(p) => p in s.toServer
    case DeliverAudio(p, _) =>
      p in s.toClient && (ParseAudio(p).Some? ==> Ready(s.client, ParseAudio(p).value, cfg.decoder))
    case FireTask(i, _, _) => i < |s.client.tasks| && s.client.tasks[i].nonce < LIMIT
    case _ => true
  }

  function Resent(w: seq<AudioPacket>, wanted: seq<u32>): set<Bytes> {
    if wanted == [] then {}
    else (match Find(w, wanted[0]) case None => {} case Some(p) => {p}) + Resent(w, wanted[1..])
  }

  /** The audio packet that the client handles, if it does not take it for a duplicate. */
  function Arrival(s: State, p: Bytes): Option<Audio> {
    match ParseAudio(p)
    case None => None
    case Some(a) => if RecentlySeen(s.client.recent, a.header) then None else Some(a)
  }

  function Delivered(d: Decoder, s: State, p: Bytes, ctime: Timespec): State
    requires ParseAudio(p).Some? ==> Ready(s.client, ParseAudio(p).value, d)
  {
    match Arrival(s, p)
    case None => s
    case Some(a) =>
      var c := s.client.(recent := Remember(s.client.recent, a.header));
      s.(client := HandlePacket(s.client, a, ctime, d), ledger := AccountAudio(s.ledger, c, a, ctime, d))
  }

  /** A stop order that is not taken for a duplicate. */
  predicate Resets(s: State, e: Event) {
    e == DeliverOrder(true) && !RecentlySeen(s.client.recent, ORDER)
  }

  /** One event; an event that cannot happen changes nothing. */
  function Next(cfg: Config, s: State, e: Event): State {
    if !Enabled(cfg, s, e) then s
    else
      match e
      case SendAudio(c) =>
        var (server, p) := S.SendAudio(s.server, cfg.bufferms, c);
        s.(server := server, sent := s.sent + [c], toClient := s.toClient + {p})
      case ExpireWindow(clients, ctime) => s.(server := Expire(s.server, clients, ctime, cfg.bufferms))
      case ServeRequest(p) =>
        if |p| < HDR_SIZE then s
        else s.(toClient := s.toClient + Resent(s.server.window, RequestsFrom(p, HDR_SIZE)))
      case DeliverAudio(p, ctime) => Delivered(cfg.decoder, s, p, ctime)
      case DeliverOrder(stop) =>
        s.(client := HandleOrder(s.client, stop), ledger := if Resets(s, e) then map[] else s.ledger)
      case FireTask(i, clientid, own) =>
        var (client, asks) := FireRequest(s.client, i);
        var request := AssembleRequest(clientid, own, s.client.tasks[i].nonce);
        s.(client := client, ledger := AccountFiring(s.ledger, s.client, i),
           toServer := s.toServer + if asks then {request} else {})
      case DecodeHead => s.(client := DecodeFirst(s.client, cfg.decoder))
      case Play => s.(client := C.Play(s.client))
  }

  /** The state after the first k events of a run. */
  function After(cfg: Config, es: seq<Event>, k: nat): State
    requires k <= |es|
  {
    if k == 0 then START else Next(cfg, After(cfg, es, k - 1), es[k - 1])
  }

  // ----- The invariant

  /** p is the n-th audio packet of the server. */
  ghost predicate IsAudio(p: Bytes, n: u32, bufferms: u16, sent: History) {
    n < |sent| < LIMIT && sent[n].Sized() && p == AssembleAudio(n, bufferms, sent[n])
  }

  ghost predicate Genuine(p: Bytes, bufferms: u16, sent: History) {
    exists n: u32 :: IsAudio(p, n, bufferms, sent)
  }

  ghost predicate NetworkInv(toClient: set<Bytes>, bufferms: u16, sent: History) {
    forall p :: p in toClient ==> Genuine(p, bufferms, sent)
  }

  /** What is buffered under a number is exactly what the server sent under it, or that chunk decoded. */
  ghost predicate Agrees(e: Entry, sent: History, d: Decoder) {
    e.seqno < |sent| && e.chunk == if e.decoded then Decoded(d, sent[e.seqno]) else sent[e.seqno]
  }

  ghost predicate Agreement(buffer: seq<Entry>, sent: History, d: Decoder) {
    forall e :: e in buffer ==> Agrees(e, sent, d)
  }

  ghost predicate Inv(cfg: Config, s: State) {
    && |s.sent| < LIMIT && WindowInv(s.server, cfg.bufferms, s.sent)
    && NetworkInv(s.toClient, cfg.bufferms, s.sent)
    && Agreement(s.client.buffer, s.sent, cfg.decoder)
    && ClientInv(s.client) && Books(s.client, s.ledger)
  }

  // ----- The receive buffer neither alters nor invents chunks

  lemma {:induction false} DropOldKeeps(buffer: seq<Entry>, ctime: Timespec, e: Entry)
    requires e in DropOld(buffer, ctime)
    ensures e in buffer
    decreases |buffer|
  {
    if buffer != [] && Outdated(buffer[0], ctime) {
      DropOldKeeps(PQ.Dequeue(buffer), ctime, e);
      DequeueKeeps(buffer, e);
    }
  }

  /** Dropping takes out only what is outdated, and stops at the first that is not. */
  lemma {:induction false} DropOldExactly(buffer: seq<Entry>, ctime: Timespec)
    ensures var r := DropOld(buffer, ctime);
      && (r == [] || !Outdated(r[0], ctime))
      && multiset(r) <= multiset(buffer)
      && forall e :: !Outdated(e, ctime) ==> multiset(r)[e] == multiset(buffer)[e]
    decreases |buffer|
  {
    if buffer != [] && Outdated(buffer[0], ctime) {
      DropOldExactly(PQ.Dequeue(buffer), ctime);
      PQ.DequeueConserves(buffer);
    }
  }

  lemma DequeueKeeps(buffer: seq<Entry>, e: Entry)
    requires buffer != [] && e in PQ.Dequeue(buffer)
    ensures e in buffer
  {
    PQ.DequeueConserves(buffer);
    assert e in multiset(PQ.Dequeue(buffer));
    assert e in multiset(buffer);
  }

  lemma PutChunkKeeps(buffer: seq<Entry>, x: Entry, capacity: nat, ctime: Timespec, e: Entry)
    requires e in PutChunk(buffer, x, capacity, ctime)
    ensures e == x || e in buffer
  {
    var b := DropOld(buffer, ctime);
    PQ.EnqueueConserves(b, x, capacity);
    assert e in multiset(PQ.Enqueue(b, x, capacity));
    if e != x {
      assert e in multiset(b);
      DropOldKeeps(buffer, ctime, e);
    }
  }

  /** Whatever happens on arrival, the buffer then holds old entries and perhaps the new one. */
  lemma HandleAudioBuffer(c: Client, a: Audio, ctime: Timespec, d: Decoder, e: Entry)
    requires Ready(c, a, d) && e in HandleAudio(c, a, ctime, d).buffer
    ensures e in c.buffer
         || (e.seqno == a.header.nonce && e.chunk == if e.decoded then Decoded(d, a.chunk) else a.chunk)
  {
    hide PutChunk;
    var c' := SetUp(c.(missing := RemoveRequest(c.missing, a.header.nonce)), a, d);
    if OnTime(a, ctime) {
      var g := NoteGap(c', a.header.nonce);
      PutChunkKeeps(g.buffer, EntryOf(c, a, d), g.capacity, ctime, e);
    }
  }

  /** The packet is a buffer ahead or more, and not simply the next. */
  predicate HugeGap(c: Client, seqno: nat, capacity: nat) {
    seqno >= c.last + capacity && seqno != c.last + 1
  }

  /** Exactly what an arrival does to the buffer.  One that comes too late leaves it alone.  One in time
      first throws away what is too old to play, or everything if there is a huge gap before it, and then
      enters the buffer if there is room; all else stays. */
  lemma ArrivalBuffersExactly(c: Client, a: Audio, ctime: Timespec, d: Decoder)
    requires Ready(c, a, d) && c.last < LIMIT && a.header.nonce < LIMIT
    ensures var c', was := HandleAudio(c, a, ctime, d), if c.capacity == 0 then [] else c.buffer;
      && (!OnTime(a, ctime) ==> c'.buffer == was)
      && (OnTime(a, ctime) ==>
            var kept := DropOld(if HugeGap(c, a.header.nonce, c'.capacity) then [] else was, ctime);
            multiset(c'.buffer)
            == multiset(kept) + if |kept| >= c'.capacity then multiset{} else multiset{EntryOf(c, a, d)})
  {
    hide DropOld, RequestGap, GapStart, RemoveRequest, Prune, DurationMs;
    var c1 := SetUp(c.(missing := RemoveRequest(c.missing, a.header.nonce)), a, d);
    var g := NoteGap(c1, a.header.nonce);
    PQ.EnqueueConserves(DropOld(g.buffer, ctime), EntryOf(c, a, d), g.capacity);
  }

  // ----- Every step keeps the invariant

  lemma SendKeepsInv(cfg: Config, s: State, c: PcmChunk)
    requires Inv(cfg, s) && c.Sized() && |s.sent| + 1 < LIMIT
    ensures Inv(cfg, Next(cfg, s, Event.SendAudio(c)))
  {
    SendKeepsWindow(s.server, cfg.bufferms, s.sent, c);
    var sent := s.sent + [c];
    forall p | p in s.toClient ensures Genuine(p, cfg.bufferms, sent) {
      var n :| IsAudio(p, n, cfg.bufferms, s.sent);
      assert IsAudio(p, n, cfg.bufferms, sent);
    }
    assert IsAudio(AssembleAudio(|s.sent|, cfg.bufferms, c), |s.sent|, cfg.bufferms, sent);
    forall e | e in s.client.buffer ensures Agrees(e, sent, cfg.decoder) {
      assert Agrees(e, s.sent, cfg.decoder);
    }
  }

  lemma {:induction false} ResentIsGenuine(s: Stream, bufferms: u16, sent: History, wanted: seq<u32>)
    requires |sent| < LIMIT && WindowInv(s, bufferms, sent)
    ensures NetworkInv(Resent(s.window, wanted), bufferms, sent)
  {
    if wanted != [] {
      RequestsServedExactly(s, bufferms, sent, wanted[0]);
      var found := Find(s.window, wanted[0]);
      if found.Some? { assert IsAudio(found.value, wanted[0], bufferms, sent); }
      ResentIsGenuine(s, bufferms, sent, wanted[1..]);
    }
  }

  lemma DeliverKeepsInv(cfg: Config, s: State, p: Bytes, ctime: Timespec)
    requires Inv(cfg, s) && Enabled(cfg, s, DeliverAudio(p, ctime))
    ensures Inv(cfg, Delivered(cfg.decoder, s, p, ctime))
  {
    hide HandleAudio, AccountAudio, AssembleAudio, ParseAudio;
    assert Genuine(p, cfg.bufferms, s.sent);
    var n: u32 :| IsAudio(p, n, cfg.bufferms, s.sent);
    AudioRoundTrip(n, cfg.bufferms, s.sent[n]);
    var a, d := ParseAudio(p).value, cfg.decoder;
    if !RecentlySeen(s.client.recent, a.header) {
      var c := s.client.(recent := Remember(s.client.recent, a.header));
      AudioKeepsInv(c, a, ctime, d);
      AudioKeepsBooks(c, s.ledger, a, ctime, d);
      forall e | e in HandleAudio(c, a, ctime, d).buffer ensures Agrees(e, s.sent, d) {
        HandleAudioBuffer(c, a, ctime, d, e);
      }
    }
  }

  lemma FireKeepsAll(cfg: Config, s: State, e: Event)
    requires Inv(cfg, s) && e.FireTask? && Enabled(cfg, s, e)
    ensures Inv(cfg, Next(cfg, s, e))
  {
    FireKeepsInv(s.client, e.i);
    FireKeepsBooks(s.client, s.ledger, e.i);
  }

  /** Decoding the first chunk in place keeps the agreement. */
  lemma DecodeKeepsAgreement(c: Client, d: Decoder, sent: History)
    requires Agreement(c.buffer, sent, d)
    ensures Agreement(DecodeFirst(c, d).buffer, sent, d)
  {
    forall e | e in DecodeFirst(c, d).buffer ensures Agrees(e, sent, d) {
      var x := c.buffer[0];
      assert Agrees(x, sent, d);
      if e !in c.buffer { DecodedOnce(d, sent[x.seqno]); }
    }
  }

  lemma StepKeepsInv(cfg: Config, s: State, e: Event)
    requires Inv(cfg, s)
    ensures Inv(cfg, Next(cfg, s, e))
  {
    hide Delivered, FireRequest, AccountFiring, Expire, DecodeFirst;
    if Enabled(cfg, s, e) {
      match e
      case SendAudio(c) => SendKeepsInv(cfg, s, c);
      case ExpireWindow(clients, ctime) => ExpireKeepsWindow(s.server, cfg.bufferms, s.sent, clients, ctime);
      case ServeRequest(p) =>
        if |p| >= HDR_SIZE { ResentIsGenuine(s.server, cfg.bufferms, s.sent, RequestsFrom(p, HDR_SIZE)); }
      case DeliverAudio(p, ctime) => DeliverKeepsInv(cfg, s, p, ctime);
      case DeliverOrder(_) =>
      case FireTask(_, _, _) => FireKeepsAll(cfg, s, e);
      case DecodeHead =>
        DecodeKeepsAgreement(s.client, cfg.decoder, s.sent);
        DecodeKeepsRest(s.client, cfg.decoder);
      case Play =>
        if s.client.buffer != [] {
          forall x | x in PQ.Dequeue(s.client.buffer) ensures Agrees(x, s.sent, cfg.decoder) {
            DequeueKeeps(s.client.buffer, x);
          }
        }
    }
  }

  lemma DecodeKeepsRest(c: Client, d: Decoder)
    ensures DecodeFirst(c, d) == c.(buffer := DecodeFirst(c, d).buffer)
  {
  }

  lemma {:induction false} InvHolds(cfg: Config, es: seq<Event>, k: nat)
    requires k <= |es|
    ensures Inv(cfg, After(cfg, es, k))
  {
    if k > 0 {
      InvHolds(cfg, es, k - 1);
      StepKeepsInv(cfg, After(cfg, es, k - 1), es[k - 1]);
    }
  }
}
