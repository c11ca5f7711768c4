/** What holds of every run of server, client and network, whatever the network loses, reorders or
    duplicates (src/intercom_srv.c, src/intercom_client.c). */
module Runs {
  import opened Time
  import opened Chunk
  import opened Wire
  import opened Server
  import opened Client
  import opened Recovery
  import opened System
  import PQ = PQueue

  // ----- End to end

  lemma BufferedAgrees(cfg: Config, s: State, e: Entry)
    requires Inv(cfg, s) && e in s.client.buffer
    ensures e.seqno < |s.sent|
            && e.chunk == if e.decoded then Decoded(cfg.decoder, s.sent[e.seqno]) else s.sent[e.seqno]
  {
    assert Agrees(e, s.sent, cfg.decoder);
  }

  /** Every buffered chunk is the chunk the server sent under that number, or what the decoder makes of
      it, whether it came at once or on request: play time and format are the same in either case, and
      codec and payload are unless it was decoded. */
  lemma EndToEndAgreement(cfg: Config, es: seq<Event>, k: nat, e: Entry)
    requires k <= |es| && e in After(cfg, es, k).client.buffer
    ensures var sent := After(cfg, es, k).sent;
      && e.seqno < |sent|
      && e.chunk == (if e.decoded then Decoded(cfg.decoder, sent[e.seqno]) else sent[e.seqno])
      && e.chunk.(codec := sent[e.seqno].codec, data := sent[e.seqno].data) == sent[e.seqno]
  {
    hide *;
    InvHolds(cfg, es, k);
    BufferedAgrees(cfg, After(cfg, es, k), e);
    DecodedOnce(cfg.decoder, After(cfg, es, k).sent[e.seqno]);
  }

  lemma AudioFitsBuffer(c: Client, a: Audio, ctime: Timespec, d: Decoder)
    requires |c.buffer| <= c.capacity && (Ready(c, a, d))
    ensures var c' := HandleAudio(c, a, ctime, d); |c'.buffer| <= c'.capacity
  {
    hide RequestGap, GapStart, RemoveRequest, Prune, DropOld;
    var g := NoteGap(SetUp(c.(missing := RemoveRequest(c.missing, a.header.nonce)), a, d), a.header.nonce);
    DropOldExactly(g.buffer, ctime);
    FewerEntries(DropOld(g.buffer, ctime), g.buffer);
    PQ.EnqueueConserves(DropOld(g.buffer, ctime), EntryOf(c, a, d), g.capacity);
  }

  lemma FewerEntries(a: seq<Entry>, b: seq<Entry>)
    requires multiset(a) <= multiset(b)
    ensures |a| <= |b|
  {
    assert |multiset(b) - multiset(a)| + |a| == |b|;
  }

  /** The buffer never holds more than its capacity. */
  lemma {:induction false} BufferFits(cfg: Config, es: seq<Event>, k: nat)
    requires k <= |es|
    ensures var c := After(cfg, es, k).client; |c.buffer| <= c.capacity
  {
    hide HandleAudio, AccountAudio, Expire, PQ.Dequeue, ParseAudio, AccountFiring;
    if k > 0 {
      BufferFits(cfg, es, k - 1);
      var s, e := After(cfg, es, k - 1), es[k - 1];
      if Enabled(cfg, s, e) && e.DeliverAudio? && ParseAudio(e.packet).Some? {
        var a := ParseAudio(e.packet).value;
        AudioFitsBuffer(s.client.(recent := Remember(s.client.recent, a.header)), a, e.ctime, cfg.decoder);
      }
      if e.Play? && s.client.buffer != [] {
        PQ.DequeueConserves(s.client.buffer);
        FewerEntries(PQ.Dequeue(s.client.buffer), s.client.buffer);
      }
    }
  }

  /** At any time the server can resend exactly the newest packets, as many as its window holds, and
      it resends the bytes of the first transmission. */
  lemma ResendsExactly(cfg: Config, es: seq<Event>, k: nat, n: u32)
    requires k <= |es|
    ensures var s := After(cfg, es, k);
      && |s.server.window| <= |s.sent|
      && (Find(s.server.window, n).Some? <==> |s.sent| - |s.server.window| <= n < |s.sent|)
      && (Find(s.server.window, n).Some? ==> IsAudio(Find(s.server.window, n).value, n, cfg.bufferms, s.sent))
  {
    hide *;
    InvHolds(cfg, es, k);
    WindowServes(cfg, After(cfg, es, k), n);
  }

  lemma WindowServes(cfg: Config, s: State, n: u32)
    requires Inv(cfg, s)
    ensures |s.server.window| <= |s.sent|
    ensures Find(s.server.window, n).Some? <==> |s.sent| - |s.server.window| <= n < |s.sent|
    ensures Find(s.server.window, n).Some? ==> IsAudio(Find(s.server.window, n).value, n, cfg.bufferms, s.sent)
  {
    RequestsServedExactly(s.server, cfg.bufferms, s.sent, n);
  }

  /** q is one of the wanted packets, and the window holds it. */
  ghost predicate Answers(cfg: Config, s: State, wanted: seq<u32>, q: Bytes) {
    exists n: u32 ::
      n in wanted && |s.sent| - |s.server.window| <= n < |s.sent| && IsAudio(q, n, cfg.bufferms, s.sent)
  }

  lemma {:induction false} ResentExactly(w: seq<AudioPacket>, wanted: seq<u32>, q: Bytes)
    ensures q in Resent(w, wanted) <==> exists n :: n in wanted && Find(w, n) == Some(q)
  {
    if wanted != [] {
      ResentExactly(w, wanted[1..], q);
      assert forall n :: n in wanted <==> n == wanted[0] || n in wanted[1..];
    }
  }

  /** In every run, a client operation brings onto the network exactly the packets that its requests name
      and the window holds, all of them, and changes nothing else. */
  lemma ServesExactly(cfg: Config, es: seq<Event>, k: nat, q: Bytes)
    requires k < |es| && es[k].ServeRequest? && |es[k].packet| >= HDR_SIZE && es[k].packet in After(cfg, es, k).toServer
    ensures var s, s' := After(cfg, es, k), After(cfg, es, k + 1);
      && s' == s.(toClient := s'.toClient)
      && (q in s'.toClient <==> q in s.toClient || Answers(cfg, s, RequestsFrom(es[k].packet, HDR_SIZE), q))
  {
    hide Inv, Find, RequestsFrom, Resent, AssembleAudio;
    var s := After(cfg, es, k);
    var wanted := RequestsFrom(es[k].packet, HDR_SIZE);
    InvHolds(cfg, es, k);
    ResentExactly(s.server.window, wanted, q);
    forall n: u32 | n in wanted
      ensures Find(s.server.window, n) == Some(q)
         <==> |s.sent| - |s.server.window| <= n < |s.sent| && IsAudio(q, n, cfg.bufferms, s.sent)
    {
      WindowServes(cfg, s, n);
    }
  }

  /** In every run, sending a chunk brings onto the network the packet with the next number and this chunk,
      and keeps a copy at the end of the window. */
  lemma SendsExactly(cfg: Config, es: seq<Event>, k: nat)
    requires k < |es| && es[k].SendAudio? && Enabled(cfg, After(cfg, es, k), es[k])
    ensures var s, s' := After(cfg, es, k), After(cfg, es, k + 1);
      var n, c := |s.sent|, es[k].chunk;
      var p := AssembleAudio(n, cfg.bufferms, c);
      s' == s.(sent := s.sent + [c], toClient := s.toClient + {p},
               server := Stream(n + 1, s.server.window + [AudioPacket(n, p)]))
  {
    hide AssembleAudio, Inv, GetNonce;
    InvHolds(cfg, es, k);
    WindowOf(cfg, After(cfg, es, k));
    NextNonce(|After(cfg, es, k).sent|);
  }

  lemma NextNonce(n: u32)
    requires n < LIMIT
    ensures GetNonce(n) == (n, n + 1)
  {
  }

  /** In every run one expiry does this and nothing else.  Without clients, nothing at all.  Otherwise
      packets go from the front of a window that is not empty: all that were to be played longer ago than
      the length of the buffer and come before any other, and then one that was not, if there is one. */
  lemma ExpiresExactly(cfg: Config, es: seq<Event>, k: nat)
    requires k < |es| && es[k].ExpireWindow? && Normal(es[k].ctime) && Normalised(After(cfg, es, k).sent)
    ensures var s, s' := After(cfg, es, k), After(cfg, es, k + 1);
      var w, w', passed := s.server.window, s'.server.window, Abs(Ns(es[k].ctime) - cfg.bufferms * MILLION);
      && s' == s.(server := s.server.(window := w'))
      && (es[k].clients == 0 || w == [] ==> w' == w)
      && (es[k].clients > 0 && w != [] ==>
            var gone, first := |w| - |w'|, |s.sent| - |w|;
            && first >= 0 && gone > 0 && w' == w[gone..]
            && (forall i {:trigger s.sent[i]} :: first <= i < first + gone - 1 ==> Ns(s.sent[i].PlayAt()) < passed)
            && (gone < |w| ==> Ns(s.sent[first + gone - 1].PlayAt()) >= passed))
  {
    hide Expire, Normalised, Inv;
    var s := After(cfg, es, k);
    InvHolds(cfg, es, k);
    WindowOf(cfg, s);
    ExpiryExactly(s.server, cfg.bufferms, s.sent, es[k].clients, es[k].ctime);
  }

  lemma WindowOf(cfg: Config, s: State)
    requires Inv(cfg, s)
    ensures WindowInv(s.server, cfg.bufferms, s.sent)
  {
  }

  /** Every number up to the newest has its entry in the ledger, nothing above has one, and the list
      of missing packets, strictly ascending, below the newest number and no longer than the buffer,
      holds exactly the numbers the ledger calls missing. */
  lemma LedgerIsComplete(cfg: Config, es: seq<Event>, k: nat)
    requires k <= |es|
    ensures var s := After(cfg, es, k); var c := s.client;
      && (forall n :: 0 < n <= c.last ==> n in s.ledger)
      && (forall n :: n in s.ledger ==> n <= c.last)
      && (forall n :: n in c.missing <==> n in s.ledger && s.ledger[n].Missing?)
      && Ascending(c.missing) && |c.missing| <= c.capacity && (forall n :: n in c.missing ==> 0 < n < c.last)
  {
    InvHolds(cfg, es, k);
  }

  // ----- Settled numbers

  /** No stop order is obeyed within the events j, ..., k-1. */
  ghost predicate Undisturbed(cfg: Config, es: seq<Event>, j: nat, k: nat)
    requires j <= k <= |es|
  {
    forall i :: j <= i < k ==> !Resets(After(cfg, es, i), es[i])
  }

  /** What a delivered packet is, if it is not ignored: a genuine packet, handled by the client. */
  lemma DeliveredIsGenuine(cfg: Config, s: State, p: Bytes) returns (a: Audio)
    requires Inv(cfg, s) && p in s.toClient
    ensures ParseAudio(p) == Some(a)
    ensures var n := a.header.nonce;
      n < |s.sent| && s.sent[n].Sized() && p == AssembleAudio(n, cfg.bufferms, s.sent[n]) &&
      a == Audio(Header(PACKET_FORMAT_VERSION, AUDIO_DATA, 0, n), cfg.bufferms, s.sent[n])
    ensures a.header.nonce < LIMIT
  {
    assert Genuine(p, cfg.bufferms, s.sent);
    var n: u32 :| IsAudio(p, n, cfg.bufferms, s.sent);
    AudioRoundTrip(n, cfg.bufferms, s.sent[n]);
    a := ParseAudio(p).value;
  }

  lemma DeliverySettles(cfg: Config, s: State, p: Bytes, ctime: Timespec, n: nat)
    requires Inv(cfg, s) && Enabled(cfg, s, DeliverAudio(p, ctime))
    ensures var s' := Delivered(cfg.decoder, s, p, ctime);
      s.client.last <= s'.client.last && (n <= s.client.last && n in s'.client.missing ==> n in s.client.missing)
  {
    hide HandleAudio, AccountAudio, Inv;
    ClientOf(cfg, s);
    var a := DeliveredIsGenuine(cfg, s, p);
    AudioSettles(s.client.(recent := Remember(s.client.recent, a.header)), a, ctime, cfg.decoder, n);
  }

  lemma ClientOf(cfg: Config, s: State)
    requires Inv(cfg, s)
    ensures ClientInv(s.client) && Books(s.client, s.ledger)
  {
  }

  /** An event that is not an obeyed stop never takes the newest number back and makes no number missing
      that it did not leave behind. */
  lemma StepSettles(cfg: Config, s: State, e: Event, n: nat)
    requires Inv(cfg, s) && !Resets(s, e)
    ensures var s' := Next(cfg, s, e);
      s.client.last <= s'.client.last && (n <= s.client.last && n in s'.client.missing ==> n in s.client.missing)
  {
    hide Inv, Delivered, AccountFiring, Expire, RequestsFrom;
    ClientOf(cfg, s);
    if Enabled(cfg, s, e) {
      match e
      case DeliverAudio(p, ctime) => DeliverySettles(cfg, s, p, ctime, n);
      case FireTask(i, _, _) => RemoveRequestExactly(s.client.missing, s.client.tasks[i].nonce);
      case _ =>
    }
  }

  /** Between two stops the newest number never falls, and a number that has been received, given up,
      evicted, passed over or written off never becomes missing again. */
  lemma {:induction false} SettledStaysSettled(cfg: Config, es: seq<Event>, j: nat, k: nat, n: nat)
    requires j <= k <= |es| && Undisturbed(cfg, es, j, k)
    ensures var c, c' := After(cfg, es, j).client, After(cfg, es, k).client;
      c.last <= c'.last && (n <= c.last && n in c'.missing ==> n in c.missing)
  {
    hide Next, Inv;
    if j < k {
      SettledStaysSettled(cfg, es, j, k - 1, n);
      InvHolds(cfg, es, k - 1);
      StepSettles(cfg, After(cfg, es, k - 1), es[k - 1], n);
    }
  }

  // ----- Retries

  ghost predicate Fires(cfg: Config, s: State, e: Event, n: nat) {
    e.FireTask? && Enabled(cfg, s, e) && s.client.tasks[e.i].nonce == n
  }

  /** A task for n fires in this event and, unless every firing counts, asks for n once more. */
  ghost predicate Spends(cfg: Config, s: State, e: Event, n: nat, surcharge: nat) {
    Fires(cfg, s, e, n) && (surcharge > 0 || FireRequest(s.client, e.i).1)
  }

  ghost function Spent(cfg: Config, es: seq<Event>, j: nat, k: nat, n: nat, surcharge: nat): nat
    requires j <= k <= |es|
    decreases k
  {
    if j == k then 0
    else
      Spent(cfg, es, j, k - 1, n, surcharge)
      + if Spends(cfg, After(cfg, es, k - 1), es[k - 1], n, surcharge) then 1 else 0
  }

  /** How often a task for n fires within the events j, ..., k-1. */
  ghost function Firings(cfg: Config, es: seq<Event>, j: nat, k: nat, n: nat): nat
    requires j <= k <= |es|
  {
    Spent(cfg, es, j, k, n, 1)
  }

  /** How often n is asked for within the events j, ..., k-1. */
  ghost function Asks(cfg: Config, es: seq<Event>, j: nat, k: nat, n: nat): nat
    requires j <= k <= |es|
  {
    Spent(cfg, es, j, k, n, 0)
  }

  /** How many stop orders are obeyed within the events j, ..., k-1. */
  ghost function Stops(cfg: Config, es: seq<Event>, j: nat, k: nat): nat
    requires j <= k <= |es|
    decreases k
  {
    if j == k then 0 else Stops(cfg, es, j, k - 1) + if Resets(After(cfg, es, k - 1), es[k - 1]) then 1 else 0
  }

  /** Once the buffer is set up, the client goes by the buffer time of the server. */
  ghost predicate SameBuffertime(bufferms: u16, c: Client) {
    c.capacity > 0 ==> c.bufferms == bufferms
  }

  lemma AudioKeepsBuffertime(c: Client, a: Audio, ctime: Timespec, d: Decoder)
    requires Ready(c, a, d)
    ensures var c' := HandleAudio(c, a, ctime, d);
      c'.capacity > 0 && (SameBuffertime(a.bufferms, c) ==> c'.bufferms == a.bufferms)
  {
    hide PutChunk, RequestGap, GapStart, RemoveRequest, Prune;
  }

  lemma StepKeepsBuffertime(cfg: Config, s: State, e: Event)
    requires Inv(cfg, s) && SameBuffertime(cfg.bufferms, s.client)
    ensures SameBuffertime(cfg.bufferms, Next(cfg, s, e).client)
  {
    hide AccountAudio, AccountFiring, Expire, HandleAudio, RemoveRequest;
    if Enabled(cfg, s, e) && e.DeliverAudio? {
      var a := DeliveredIsGenuine(cfg, s, e.packet);
      AudioKeepsBuffertime(s.client.(recent := Remember(s.client.recent, a.header)), a, e.ctime, cfg.decoder);
    }
  }

  lemma {:induction false} BuffertimeHolds(cfg: Config, es: seq<Event>, k: nat)
    requires k <= |es|
    ensures SameBuffertime(cfg.bufferms, After(cfg, es, k).client)
  {
    if k > 0 {
      BuffertimeHolds(cfg, es, k - 1);
      InvHolds(cfg, es, k - 1);
      StepKeepsBuffertime(cfg, After(cfg, es, k - 1), es[k - 1]);
    }
  }

  /** A packet starts a chain with the full number of retries for every number of its gap, and gives
      no other number any retries. */
  lemma DeliveryWeighs(cfg: Config, s: State, e: Event, n: nat, surcharge: nat)
    requires Inv(cfg, s) && SameBuffertime(cfg.bufferms, s.client) && e.DeliverAudio?
    ensures var c, c' := s.client, Next(cfg, s, e).client;
      Weigh(c'.tasks, n, surcharge)
      == Weigh(c.tasks, n, surcharge) + if n > c.last && n in c'.missing then Retries(cfg.bufferms) + surcharge else 0
  {
    hide AccountAudio, HandleAudio, Retries;
    MissingIsBelow(s.client, n);
    if Enabled(cfg, s, e) {
      var a := DeliveredIsGenuine(cfg, s, e.packet);
      var c := s.client.(recent := Remember(s.client.recent, a.header));
      AudioWeighs(c, a, e.ctime, cfg.decoder, n, surcharge);
      AudioKeepsBuffertime(c, a, e.ctime, cfg.decoder);
    }
  }

  lemma MissingIsBelow(c: Client, n: nat)
    requires ClientInv(c)
    ensures n in c.missing ==> n < c.last
  {
  }

  /** The most a run with some stops can weigh for n: one chain per gap with n in it, and n lies in at
      most one gap between two stops. */
  ghost function Allowance(chain: nat, stops: nat, c: Client, n: nat): nat {
    chain * (stops + if n <= c.last then 1 else 0)
  }

  lemma AllowanceGrows(chain: nat, stops: nat, c: Client, c': Client, n: nat)
    requires c.last <= c'.last
    ensures Allowance(chain, stops, c', n) >= Allowance(chain, stops, c, n)
    ensures c.last < n <= c'.last ==> Allowance(chain, stops, c', n) == Allowance(chain, stops, c, n) + chain
  {
  }

  lemma AllowanceAfterStop(chain: nat, stops: nat, c: Client, c': Client, n: nat)
    ensures Allowance(chain, stops + 1, c', n) >= Allowance(chain, stops, c, n)
  {
  }

  lemma FiringSpends(cfg: Config, s: State, e: Event, n: nat, surcharge: nat)
    requires Inv(cfg, s) && e.FireTask? && surcharge <= 1
    ensures var c, c' := s.client, Next(cfg, s, e).client;
      && c'.last == c.last
      && Weigh(c'.tasks, n, surcharge) + (if Spends(cfg, s, e, n, surcharge) then 1 else 0)
         <= Weigh(c.tasks, n, surcharge)
  {
    hide FireRequest;
    if Enabled(cfg, s, e) {
      FireWeighs(s.client, e.i, n);
      FiringKeepsLast(s.client, e.i);
    }
  }

  lemma FiringKeepsLast(c: Client, i: nat)
    requires i < |c.tasks|
    ensures FireRequest(c, i).0.last == c.last
  {
  }

  /** No event spends more on n than it takes from the pending tasks and from the allowance. */
  lemma StepSpends(cfg: Config, s: State, e: Event, n: nat, surcharge: nat, stops: nat)
    requires Inv(cfg, s) && SameBuffertime(cfg.bufferms, s.client) && surcharge <= 1
    ensures var c, c', chain := s.client, Next(cfg, s, e).client, Retries(cfg.bufferms) + surcharge;
      (if Spends(cfg, s, e, n, surcharge) then 1 else 0) + Weigh(c'.tasks, n, surcharge) + Allowance(chain, stops, c, n)
      <= Weigh(c.tasks, n, surcharge) + Allowance(chain, stops + if Resets(s, e) then 1 else 0, c', n)
  {
    hide Inv, HandlePacket, AccountAudio, AccountFiring, Expire, FireRequest, Retries, Allowance, Weigh;
    var c, c', chain := s.client, Next(cfg, s, e).client, Retries(cfg.bufferms) + surcharge;
    if Resets(s, e) {
      AllowanceAfterStop(chain, stops, c, c', n);
      assert c'.tasks == c.tasks;
    } else {
      StepSettles(cfg, s, e, n);
      AllowanceGrows(chain, stops, c, c', n);
      if e.DeliverAudio? {
        hide Next;
        DeliveryWeighs(cfg, s, e, n, surcharge);
        DeliveredBelow(cfg, s, e, n);
      } else if e.FireTask? {
        hide Next;
        FiringSpends(cfg, s, e, n, surcharge);
      }
    }
  }

  lemma DeliveredBelow(cfg: Config, s: State, e: Event, n: nat)
    requires Inv(cfg, s)
    ensures n in Next(cfg, s, e).client.missing ==> n <= Next(cfg, s, e).client.last
  {
    hide *;
    StepKeepsInv(cfg, s, e);
    MissingBelow(cfg, Next(cfg, s, e), n);
  }

  lemma MissingBelow(cfg: Config, s: State, n: nat)
    requires Inv(cfg, s)
    ensures n in s.client.missing ==> n <= s.client.last && Weight(s.client.tasks, n) > 0
  {
  }

  /** Over any part of a run, what is spent on n and what the pending tasks may still spend are paid for
      by the tasks that were pending before and by one chain for each gap with n in it. */
  lemma {:induction false} RunSpends(cfg: Config, es: seq<Event>, j: nat, k: nat, n: nat, surcharge: nat)
    requires j <= k <= |es| && surcharge <= 1
    ensures var c, c', chain := After(cfg, es, j).client, After(cfg, es, k).client, Retries(cfg.bufferms) + surcharge;
      Spent(cfg, es, j, k, n, surcharge) + Weigh(c'.tasks, n, surcharge) + Allowance(chain, 0, c, n)
      <= Weigh(c.tasks, n, surcharge) + Allowance(chain, Stops(cfg, es, j, k), c', n)
    decreases k
  {
    hide Next, Retries, Weigh, Allowance, Spends, Inv, SameBuffertime;
    if j < k {
      RunSpends(cfg, es, j, k - 1, n, surcharge);
      InvHolds(cfg, es, k - 1);
      BuffertimeHolds(cfg, es, k - 1);
      StepSpends(cfg, After(cfg, es, k - 1), es[k - 1], n, surcharge, Stops(cfg, es, j, k - 1));
    }
  }

  /** From the start, what is spent on n and what may still be spent are at most one chain and one more
      for each stop. */
  lemma SpentFromStart(cfg: Config, es: seq<Event>, k: nat, n: nat, surcharge: nat)
    requires k <= |es| && n > 0 && surcharge <= 1
    ensures Spent(cfg, es, 0, k, n, surcharge) + Weigh(After(cfg, es, k).client.tasks, n, surcharge)
         <= (Retries(cfg.bufferms) + surcharge) * (Stops(cfg, es, 0, k) + 1)
  {
    hide Inv, Spent, Retries, Stops, Next, Allowance;
    RunSpends(cfg, es, 0, k, n, surcharge);
    AllowanceAtMost(Retries(cfg.bufferms) + surcharge, Stops(cfg, es, 0, k), After(cfg, es, k).client, n);
  }

  /** From the start, every packet is asked for at most once per retry, and its tasks fire at most once
      more; each stop grants the same again. */
  lemma AtMostRetriesRequests(cfg: Config, es: seq<Event>, k: nat, n: nat)
    requires k <= |es| && n > 0
    ensures Asks(cfg, es, 0, k, n) <= Retries(cfg.bufferms) * (Stops(cfg, es, 0, k) + 1)
    ensures Firings(cfg, es, 0, k, n) <= (Retries(cfg.bufferms) + 1) * (Stops(cfg, es, 0, k) + 1)
  {
    hide Spent, Stops, Retries, Weigh, After;
    SpentFromStart(cfg, es, k, n, 0);
    SpentFromStart(cfg, es, k, n, 1);
  }

  lemma AllowanceAtMost(chain: nat, stops: nat, c: Client, n: nat)
    ensures Allowance(chain, stops, c, n) <= chain * (stops + 1)
    ensures n > 0 ==> Allowance(chain, 0, INIT, n) == 0
  {
  }

  ghost function Pending(cfg: Config, es: seq<Event>, k: nat, n: nat): nat
    requires k <= |es|
  {
    Weight(After(cfg, es, k).client.tasks, n)
  }

  lemma {:induction false} NoStops(cfg: Config, es: seq<Event>, j: nat, k: nat)
    requires j <= k <= |es| && Undisturbed(cfg, es, j, k)
    ensures Stops(cfg, es, j, k) == 0
    decreases k
  {
    if j < k { NoStops(cfg, es, j, k - 1); }
  }

  /** No packet stays missing forever: once the tasks pending for n have fired as often as they can, n is
      no longer missing, and will not be until the next stop. */
  lemma NothingStaysMissing(cfg: Config, es: seq<Event>, j: nat, k: nat, n: nat)
    requires j <= k <= |es| && Undisturbed(cfg, es, j, k) && n <= After(cfg, es, j).client.last
    ensures Firings(cfg, es, j, k, n) + Pending(cfg, es, k, n) <= Pending(cfg, es, j, n)
    ensures Firings(cfg, es, j, k, n) >= Pending(cfg, es, j, n) ==> n !in After(cfg, es, k).client.missing
  {
    hide After, Weigh, Inv, Spent, Retries, Stops, Undisturbed;
    RunSpends(cfg, es, j, k, n, 1);
    NoStops(cfg, es, j, k);
    SettledStaysSettled(cfg, es, j, k, n);
    InvHolds(cfg, es, k);
    MissingBelow(cfg, After(cfg, es, k), n);
  }

  /** In particular, without a stop a packet is missing for Retries + 1 firings at most. */
  lemma MissingForRetriesAtMost(cfg: Config, es: seq<Event>, k: nat, n: nat)
    requires k <= |es| && Undisturbed(cfg, es, 0, k) && n > 0
    ensures n in After(cfg, es, k).client.missing
        ==> Asks(cfg, es, 0, k, n) <= Retries(cfg.bufferms) && Firings(cfg, es, 0, k, n) <= Retries(cfg.bufferms)
  {
    hide Inv, Spent, Retries, Stops, Undisturbed, Weigh, After;
    SpentFromStart(cfg, es, k, n, 0);
    SpentFromStart(cfg, es, k, n, 1);
    NoStops(cfg, es, 0, k);
    InvHolds(cfg, es, k);
    MissingBelow(cfg, After(cfg, es, k), n);
  }

  // ----- Runs that grow by one event

  function End(cfg: Config, es: seq<Event>): State {
    After(cfg, es, |es|)
  }

  /** How often n has been asked for. */
  ghost function Asked(cfg: Config, es: seq<Event>, n: nat): nat {
    Asks(cfg, es, 0, |es|, n)
  }

  ghost function Stopped(cfg: Config, es: seq<Event>): nat {
    Stops(cfg, es, 0, |es|)
  }

  /** The first k events alone decide what has happened by then. */
  lemma {:induction false} Prefix(cfg: Config, es: seq<Event>, more: seq<Event>, k: nat, n: nat)
    requires k <= |es|
    ensures After(cfg, es + more, k) == After(cfg, es, k)
    ensures Asks(cfg, es + more, 0, k, n) == Asks(cfg, es, 0, k, n)
    ensures Stops(cfg, es + more, 0, k) == Stops(cfg, es, 0, k)
  {
    hide Next, Spends, Resets;
    if k > 0 { Prefix(cfg, es, more, k - 1, n); }
  }

  lemma Append(cfg: Config, es: seq<Event>, e: Event, n: nat)
    ensures var s := End(cfg, es);
      && End(cfg, es + [e]) == Next(cfg, s, e)
      && Asked(cfg, es + [e], n) == Asked(cfg, es, n) + (if Spends(cfg, s, e, n, 0) then 1 else 0)
      && Stopped(cfg, es + [e]) == Stopped(cfg, es) + (if Resets(s, e) then 1 else 0)
  {
    hide Next, Spends, Resets;
    Prefix(cfg, es, [e], |es|, n);
  }

  lemma {:induction false} SplitAsks(cfg: Config, es: seq<Event>, j: nat, k: nat, n: nat)
    requires j <= k <= |es|
    ensures Asks(cfg, es, 0, k, n) == Asks(cfg, es, 0, j, n) + Asks(cfg, es, j, k, n)
    decreases k
  {
    if j < k { SplitAsks(cfg, es, j, k - 1, n); }
  }
}
