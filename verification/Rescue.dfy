/** A lost packet is recovered: the client asks, the server answers, and the chunk is in the buffer
    (src/intercom_client.c, src/intercom_srv.c). */
module Rescue {
  import opened Time
  import opened Chunk
  import opened Wire
  import opened Server
  import opened Client
  import opened Recovery
  import opened System
  import opened Runs
  import PQ = PQueue

  // ----- A packet that is missing is not mistaken for one that has just been seen

  ghost predicate NewestIsNotMissing(c: Client) {
    c.recent != [] && c.recent[|c.recent| - 1].kind == AUDIO_DATA ==> c.recent[|c.recent| - 1].nonce !in c.missing
  }

  ghost predicate TasksBelowLimit(c: Client) {
    forall n: nat :: Weight(c.tasks, n) > 0 ==> n < LIMIT
  }

  lemma DeliveryKeepsNewest(cfg: Config, s: State, p: Bytes, ctime: Timespec)
    requires Inv(cfg, s) && NewestIsNotMissing(s.client) && Enabled(cfg, s, DeliverAudio(p, ctime))
    ensures NewestIsNotMissing(Delivered(cfg.decoder, s, p, ctime).client)
  {
    hide HandleAudio, AccountAudio, Inv, Enabled;
    ClientOf(cfg, s);
    CanBeDelivered(cfg, s, p, ctime);
    var a := DeliveredIsGenuine(cfg, s, p);
    var c := s.client.(recent := Remember(s.client.recent, a.header));
    AudioSettles(c, a, ctime, cfg.decoder, a.header.nonce);
    AudioKeepsRecent(c, a, ctime, cfg.decoder);
  }

  lemma CanBeDelivered(cfg: Config, s: State, p: Bytes, ctime: Timespec)
    requires Enabled(cfg, s, DeliverAudio(p, ctime))
    ensures p in s.toClient && (ParseAudio(p).Some? ==> Ready(s.client, ParseAudio(p).value, cfg.decoder))
  {
  }

  lemma FiringKeepsNewest(c: Client, i: nat)
    requires ClientInv(c) && NewestIsNotMissing(c) && i < |c.tasks|
    ensures NewestIsNotMissing(FireRequest(c, i).0)
  {
    RemoveRequestExactly(c.missing, c.tasks[i].nonce);
  }

  lemma StepKeepsNewest(cfg: Config, s: State, e: Event)
    requires Inv(cfg, s) && NewestIsNotMissing(s.client)
    ensures NewestIsNotMissing(Next(cfg, s, e).client)
  {
    hide Delivered, FireRequest, AccountFiring, Expire, RequestsFrom;
    if Enabled(cfg, s, e) {
      match e
      case DeliverAudio(p, ctime) => DeliveryKeepsNewest(cfg, s, p, ctime);
      case FireTask(i, _, _) => FiringKeepsNewest(s.client, i);
      case _ =>
    }
  }

  /** Tasks exist only for numbers of gaps. */
  lemma StepKeepsTasksBelow(cfg: Config, s: State, e: Event, n: nat)
    requires Inv(cfg, s) && SameBuffertime(cfg.bufferms, s.client)
    requires Weight(Next(cfg, s, e).client.tasks, n) > 0
    ensures Weight(s.client.tasks, n) > 0 || n < LIMIT
  {
    hide HandleAudio, HandlePacket, AccountAudio, AccountFiring, Expire, Weigh;
    if Enabled(cfg, s, e) {
      match e
      case DeliverAudio(p, ctime) =>
        DeliveryWeighs(cfg, s, e, n, 1);
        DeliveredBelow(cfg, s, e, n);
        StepKeepsInv(cfg, s, e);
      case FireTask(i, _, _) => FiringSpends(cfg, s, e, n, 1);
      case _ =>
    }
  }

  lemma {:induction false} ClientHolds(cfg: Config, es: seq<Event>, k: nat)
    requires k <= |es|
    ensures NewestIsNotMissing(After(cfg, es, k).client) && TasksBelowLimit(After(cfg, es, k).client)
  {
    hide Next, Weigh, Inv, SameBuffertime;
    if k > 0 {
      ClientHolds(cfg, es, k - 1);
      InvHolds(cfg, es, k - 1);
      BuffertimeHolds(cfg, es, k - 1);
      var s := After(cfg, es, k - 1);
      StepKeepsNewest(cfg, s, es[k - 1]);
      var tasks := Next(cfg, s, es[k - 1]).client.tasks;
      forall n: nat | Weight(tasks, n) > 0 ensures n < LIMIT {
        StepKeepsTasksBelow(cfg, s, es[k - 1], n);
      }
    } else {
      NoTasks();
    }
  }

  lemma NoTasks()
    ensures NewestIsNotMissing(START.client) && TasksBelowLimit(START.client)
  {
  }

  /** Every pending request task can fire: the number it asks for fits the packet. */
  lemma EveryTaskCanFire(cfg: Config, es: seq<Event>, k: nat, i: nat, clientid: u16, own: u32)
    requires k <= |es| && i < |After(cfg, es, k).client.tasks|
    ensures Enabled(cfg, After(cfg, es, k), FireTask(i, clientid, own))
  {
    hide After, Weigh, TasksBelowLimit;
    ClientHolds(cfg, es, k);
    TaskBelowLimit(After(cfg, es, k).client, i);
  }

  lemma TaskBelowLimit(c: Client, i: nat)
    requires TasksBelowLimit(c) && i < |c.tasks|
    ensures c.tasks[i].nonce < LIMIT
  {
    WeighWithout(c.tasks, i, c.tasks[i].nonce, 1);
    assert Weight(c.tasks, c.tasks[i].nonce) > 0;
  }

  lemma {:induction false} WeightHasTask(tasks: seq<Request>, n: nat) returns (i: nat)
    requires Weight(tasks, n) > 0
    ensures i < |tasks| && tasks[i].nonce == n
  {
    if tasks[0].nonce == n { return 0; }
    i := WeightHasTask(tasks[1..], n);
    i := i + 1;
  }

  /** In every reachable state each missing packet has a request task that can fire. */
  lemma EveryMissingIsPending(cfg: Config, es: seq<Event>, k: nat, n: nat, clientid: u16, own: u32)
    requires k <= |es| && n in After(cfg, es, k).client.missing
    ensures var s := After(cfg, es, k);
      exists i: nat :: i < |s.client.tasks| && s.client.tasks[i].nonce == n
        && Enabled(cfg, s, FireTask(i, clientid, own))
  {
    hide After, Weigh, Inv, Enabled;
    var s := After(cfg, es, k);
    InvHolds(cfg, es, k);
    MissingBelow(cfg, s, n);
    var i := WeightHasTask(s.client.tasks, n);
    EveryTaskCanFire(cfg, es, k, i, clientid, own);
  }

  /** In every run, a firing brings a request onto the network exactly if its number is missing and it has
      retries left, and then the one for this number. */
  lemma RequestIsSentExactly(cfg: Config, es: seq<Event>, k: nat)
    requires k < |es| && es[k].FireTask? && Enabled(cfg, After(cfg, es, k), es[k])
    ensures var s, s', e := After(cfg, es, k), After(cfg, es, k + 1), es[k];
      var t := s.client.tasks[e.i];
      && s' == s.(client := s'.client, ledger := s'.ledger, toServer := s'.toServer)
      && s'.toServer == s.toServer + (if t.retriesLeft > 0 && t.nonce in s.client.missing then
                                        {AssembleRequest(e.clientid, e.own, t.nonce)}
                                      else {})
  {
    hide AssembleRequest;
  }

  // ----- Asking, answering, delivering

  lemma Asking(cfg: Config, s: State, e: Event, n: u32)
    requires e.FireTask? && Enabled(cfg, s, e)
    requires s.client.tasks[e.i].nonce == n && s.client.tasks[e.i].retriesLeft > 0 && n in s.client.missing
    ensures Next(cfg, s, e)
         == s.(toServer := s.toServer + {AssembleRequest(e.clientid, e.own, n)},
               client := s.client.(tasks := Next(cfg, s, e).client.tasks))
  {
  }

  lemma Answering(cfg: Config, s: State, clientid: u16, own: u32, n: u32)
    requires Inv(cfg, s) && |s.sent| - |s.server.window| <= n < |s.sent|
    requires AssembleRequest(clientid, own, n) in s.toServer
    ensures s.sent[n].Sized()
    ensures Next(cfg, s, ServeRequest(AssembleRequest(clientid, own, n)))
         == s.(toClient := s.toClient + {AssembleAudio(n, cfg.bufferms, s.sent[n])})
  {
    hide AssembleRequest, AssembleAudio, RequestsFrom, Find;
    RequestRoundTrip(clientid, own, n);
    RequestsServedExactly(s.server, cfg.bufferms, s.sent, n);
    assert Resent(s.server.window, [n][1..]) == {};
  }

  /** What the delivery of a missing packet achieves. */
  ghost predicate Recovered(s: State, s': State, n: u32, chunk: PcmChunk, ctime: Timespec) {
    var b, b' := DropOld(s.client.buffer, ctime), s'.client.buffer;
    && s'.client.last == s.client.last
    && (forall m: nat :: m in s'.client.missing <==> m in s.client.missing && m != n)
    && s'.ledger == s.ledger[n := Received]
    && multiset(b') == multiset(b) + if |b| >= s.client.capacity then multiset{} else multiset{Entry(n, chunk, false)}
  }

  lemma Delivering(cfg: Config, s: State, n: u32, ctime: Timespec)
    requires Inv(cfg, s) && NewestIsNotMissing(s.client)
    requires n < |s.sent| && s.sent[n].Sized() && AssembleAudio(n, cfg.bufferms, s.sent[n]) in s.toClient
    requires n in s.client.missing && Cmp(s.sent[n].PlayAt(), ctime) > 0
    ensures var e := DeliverAudio(AssembleAudio(n, cfg.bufferms, s.sent[n]), ctime);
      Recovered(s, Next(cfg, s, e), n, s.sent[n], ctime)
  {
    hide HandleAudio, AccountAudio, AssembleAudio, ParseAudio, Recovered;
    AudioRoundTrip(n, cfg.bufferms, s.sent[n]);
    var p := AssembleAudio(n, cfg.bufferms, s.sent[n]);
    var a := ParseAudio(p).value;
    var c := s.client.(recent := Remember(s.client.recent, a.header));
    assert !RecentlySeen(s.client.recent, a.header);
    ArrivesAfterAll(s.ledger, c, a, ctime, cfg.decoder);
    EntersBuffer(s, Next(cfg, s, DeliverAudio(p, ctime)), c, a, ctime);
  }

  lemma EntersBuffer(s: State, s': State, c: Client, a: Audio, ctime: Timespec)
    requires ClientInv(s.client) && c == s.client.(recent := c.recent)
    requires var n := a.header.nonce;
      && n in c.missing
      && s'.client == c.(missing := RemoveRequest(c.missing, n),
                      buffer := PutChunk(c.buffer, Entry(n, a.chunk, false), c.capacity, ctime))
      && s'.ledger == s.ledger[n := Received]
    ensures Recovered(s, s', a.header.nonce, a.chunk, ctime)
  {
    RemoveRequestExactly(c.missing, a.header.nonce);
    PQ.EnqueueConserves(DropOld(c.buffer, ctime), Entry(a.header.nonce, a.chunk, false), c.capacity);
  }

  lemma ArrivesAfterAll(f: Ledger, c: Client, a: Audio, ctime: Timespec, d: Decoder)
    requires ClientInv(c) && a.header.nonce in c.missing && OnTime(a, ctime)
    ensures var n := a.header.nonce;
      && HandleAudio(c, a, ctime, d)
         == c.(missing := RemoveRequest(c.missing, n),
               buffer := PutChunk(c.buffer, Entry(n, a.chunk, false), c.capacity, ctime))
      && AccountAudio(f, c, a, ctime, d) == f[n := Received]
  {
    hide PutChunk, RequestGap, GapStart, RemoveRequest;
  }

  /** The state after a request for the task at position i, its answer, and the delivery of the answer. */
  function Round(cfg: Config, s: State, fire: Event, n: u32, chunk: PcmChunk, ctime: Timespec): State
    requires fire.FireTask? && chunk.Sized()
  {
    var s1 := Next(cfg, s, fire);
    var s2 := Next(cfg, s1, ServeRequest(AssembleRequest(fire.clientid, fire.own, n)));
    Next(cfg, s2, DeliverAudio(AssembleAudio(n, cfg.bufferms, chunk), ctime))
  }

  /** In every reachable state, a missing packet that the server still has and that can still be played
      in time is recovered by one round: it is received, no longer missing, and in the buffer unless
      the buffer is full; nothing else changes but what is too old to play. */
  lemma OneRoundRecovers(cfg: Config, es: seq<Event>, k: nat, fire: Event, n: u32, ctime: Timespec)
    requires k <= |es| && fire.FireTask? && fire.i < |After(cfg, es, k).client.tasks|
    requires var s := After(cfg, es, k); var t := s.client.tasks[fire.i];
      && t.nonce == n && t.retriesLeft > 0 && n in s.client.missing
      && |s.sent| - |s.server.window| <= n < |s.sent|
      && Cmp(s.sent[n].PlayAt(), ctime) > 0
    ensures var s := After(cfg, es, k);
      s.sent[n].Sized() && Recovered(s, Round(cfg, s, fire, n, s.sent[n], ctime), n, s.sent[n], ctime)
  {
    hide After, Inv, NewestIsNotMissing, AssembleRequest, AssembleAudio, RequestsFrom, Weigh,
         Enabled, TasksBelowLimit, Recovered;
    var s := After(cfg, es, k);
    InvHolds(cfg, es, k);
    ClientHolds(cfg, es, k);
    EveryTaskCanFire(cfg, es, k, fire.i, fire.clientid, fire.own);
    WholeRound(cfg, s, fire, n, ctime);
  }

  lemma WholeRound(cfg: Config, s: State, fire: Event, n: u32, ctime: Timespec)
    requires Inv(cfg, s) && NewestIsNotMissing(s.client) && fire.FireTask? && Enabled(cfg, s, fire)
    requires s.client.tasks[fire.i].nonce == n && s.client.tasks[fire.i].retriesLeft > 0 && n in s.client.missing
    requires |s.sent| - |s.server.window| <= n < |s.sent| && Cmp(s.sent[n].PlayAt(), ctime) > 0
    ensures s.sent[n].Sized() && Recovered(s, Round(cfg, s, fire, n, s.sent[n], ctime), n, s.sent[n], ctime)
  {
    hide Next, Inv, DropOld, AssembleRequest, AssembleAudio;
    Asking(cfg, s, fire, n);
    var s1 := Next(cfg, s, fire);
    StepKeepsInv(cfg, s, fire);
    Answering(cfg, s1, fire.clientid, fire.own, n);
    var serve := ServeRequest(AssembleRequest(fire.clientid, fire.own, n));
    StepKeepsInv(cfg, s1, serve);
    Delivering(cfg, Next(cfg, s1, serve), n, ctime);
  }

  // ----- Duplicates

  /** Of all packets handled so far only the newest is recognised: a packet is dropped as a duplicate
      exactly if it repeats the number and kind of the one right before it. */
  lemma OnlyTheNewestIsRecognised(c: Client, a: Audio, ctime: Timespec, d: Decoder, next: Header)
    requires Ready(c, a, d)
    ensures RecentlySeen(HandlePacket(c, a, ctime, d).recent, next)
       <==> next.nonce == a.header.nonce && next.kind == a.header.kind
  {
    hide HandleAudio;
    AudioKeepsRecent(c.(recent := Remember(c.recent, a.header)), a, ctime, d);
  }
}
