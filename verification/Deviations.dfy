/** Runs in which the client does not do what it is meant to (src/intercom_client.c, src/intercom.c). */
module Deviations {
  import opened Arith
  import opened Time
  import opened Chunk
  import opened Wire
  import opened Client
  import opened Recovery
  import opened System
  import opened Runs
  import opened Labels

  // ----- The packets

  /** Ten milliseconds to be played ten seconds after the epoch. */
  const CHUNK := PcmChunk(10, 0, 100, 1, 1, CODEC_PCM, [0])

  const EPOCH := Timespec(0, 0)

  function Numbered(n: u32): Header {
    Header(PACKET_FORMAT_VERSION, AUDIO_DATA, 0, n)
  }

  function Packet(cfg: Config, n: u32): Bytes {
    AssembleAudio(n, cfg.bufferms, CHUNK)
  }

  function Arriving(cfg: Config, n: u32): Audio {
    Audio(Numbered(n), cfg.bufferms, CHUNK)
  }

  function Capacity(cfg: Config): nat {
    Quotient(cfg.bufferms, 10) + 1
  }

  /** There is at least one retry. */
  predicate Usual(cfg: Config) {
    Retries(cfg.bufferms) > 0
  }

  lemma UsualCapacity(cfg: Config)
    requires Usual(cfg)
    ensures 11 <= Capacity(cfg) <= 0x1_0000
  {
  }

  /** The packets 0 to 3 have been sent. */
  ghost predicate Underway(cfg: Config, s: State) {
    s.toClient == {Packet(cfg, 0), Packet(cfg, 1), Packet(cfg, 2), Packet(cfg, 3)}
  }

  function Sending(): seq<Event> {
    [Event.SendAudio(CHUNK), Event.SendAudio(CHUNK), Event.SendAudio(CHUNK), Event.SendAudio(CHUNK)]
  }

  lemma Sent(cfg: Config, s: State, n: u32)
    requires s.server.nonce == n < 4 && |s.sent| < 4
    ensures var s' := Next(cfg, s, Event.SendAudio(CHUNK));
      && s'.client == s.client && s'.ledger == s.ledger && s'.toClient == s.toClient + {Packet(cfg, n)}
      && s'.server.nonce == n + 1 && |s'.sent| == |s.sent| + 1
  {
  }

  lemma AllSent(cfg: Config, n: nat)
    ensures var s := End(cfg, Sending());
      && Underway(cfg, s) && s.client == INIT && s.ledger == map[]
      && Asked(cfg, Sending(), n) == 0 && Stopped(cfg, Sending()) == 0
  {
    hide Next, AssembleAudio, After, Asks, Stops;
    var e := Event.SendAudio(CHUNK);
    Nothing(cfg, n);
    Append(cfg, [], e, n);
    Sent(cfg, START, 0);
    Append(cfg, [e], e, n);
    Append(cfg, [e, e], e, n);
    Append(cfg, [e, e, e], e, n);
    assert [] + [e] == [e] && [e] + [e] == [e, e] && [e, e] + [e] == [e, e, e] && [e, e, e] + [e] == Sending();
    Sent(cfg, End(cfg, [e]), 1);
    Sent(cfg, End(cfg, [e, e]), 2);
    Sent(cfg, End(cfg, [e, e, e]), 3);
  }

  lemma Nothing(cfg: Config, n: nat)
    ensures End(cfg, []) == START && Asked(cfg, [], n) == 0 && Stopped(cfg, []) == 0
  {
  }

  /** A packet of this kind that is delivered is handled, unless it repeats the one before. */
  lemma Handled(cfg: Config, s: State, n: u32, ctime: Timespec)
    requires Underway(cfg, s) && n < 4
    requires !RecentlySeen(s.client.recent, Numbered(n)) && Ready(s.client, Arriving(cfg, n), cfg.decoder)
    ensures var c := s.client.(recent := Remember(s.client.recent, Numbered(n)));
      Next(cfg, s, DeliverAudio(Packet(cfg, n), ctime))
      == s.(client := HandleAudio(c, Arriving(cfg, n), ctime, cfg.decoder),
            ledger := AccountAudio(s.ledger, c, Arriving(cfg, n), ctime, cfg.decoder))
  {
    hide HandleAudio, AccountAudio, AssembleAudio, ParseAudio;
    AudioRoundTrip(n, cfg.bufferms, CHUNK);
  }

  // ----- What they do to the client

  /** The first packet after the start or a stop. */
  lemma FirstArrives(cfg: Config, c: Client)
    requires c.last == 0 && c.missing == [] && c.capacity == 0
    ensures Ready(c, Arriving(cfg, 1), cfg.decoder)
    ensures HandleAudio(c, Arriving(cfg, 1), EPOCH, cfg.decoder)
         == c.(last := 1, capacity := Capacity(cfg), bufferms := cfg.bufferms, buffer := [Entry(1, CHUNK, true)])
  {
    assert DurationMs(CHUNK) == 10;
    assert PutChunk([], Entry(1, CHUNK, true), Capacity(cfg), EPOCH) == [Entry(1, CHUNK, true)];
  }

  /** A packet that reveals the loss of number 2. */
  lemma ThirdArrives(cfg: Config, c: Client)
    requires Usual(cfg) && c.last == 1 && c.missing == [] && c.capacity == Capacity(cfg) && c.bufferms == cfg.bufferms
    ensures HandleAudio(c, Arriving(cfg, 3), EPOCH, cfg.decoder)
         == c.(last := 3, missing := [2], tasks := c.tasks + [Request(2, Retries(cfg.bufferms))],
               buffer := PutChunk(c.buffer, Entry(3, CHUNK, false), c.capacity, EPOCH))
  {
    hide PutChunk, Capacity, Retries;
    UsualCapacity(cfg);
    GapStartsBehindNewest(1, 3, c.capacity);
    GapClosedForm([], c.tasks, 2, 3, c.capacity, Retries(cfg.bufferms));
    assert Range(2, 3) == [2] && Limit([] + [2], c.capacity) == [2];
    assert RequestsFor(2, 3, Retries(cfg.bufferms)) == [Request(2, Retries(cfg.bufferms))];
  }

  /** Number 2 is missing, some tasks are pending, and number 3 came last. */
  ghost predicate Lacking(cfg: Config, s: State, tasks: seq<Request>) {
    && Underway(cfg, s)
    && s.client.last == 3 && s.client.missing == [2]
    && s.client.capacity == Capacity(cfg) && s.client.bufferms == cfg.bufferms
    && s.client.tasks == tasks
    && s.client.recent != [] && s.client.recent[|s.client.recent| - 1] == Numbered(3)
  }

  /** Nothing has come since the start or the last stop. */
  ghost predicate Clear(cfg: Config, s: State, tasks: seq<Request>) {
    && Underway(cfg, s)
    && s.client.last == 0 && s.client.missing == [] && s.client.capacity == 0
    && s.client.tasks == tasks && s.ledger == map[]
    && (s.client.recent != [] ==> s.client.recent[|s.client.recent| - 1] == ORDER)
  }

  function One(cfg: Config): Event { DeliverAudio(Packet(cfg, 1), EPOCH) }

  function Three(cfg: Config): Event { DeliverAudio(Packet(cfg, 3), EPOCH) }

  lemma Losing(cfg: Config, s: State, tasks: seq<Request>)
    requires Usual(cfg) && Clear(cfg, s, tasks)
    ensures Lacking(cfg, Next(cfg, Next(cfg, s, One(cfg)), Three(cfg)), tasks + [Request(2, Retries(cfg.bufferms))])
  {
    hide HandleAudio, AccountAudio, AssembleAudio, PutChunk, Next, Capacity, Retries, Usual;
    FirstArrives(cfg, s.client);
    Handled(cfg, s, 1, EPOCH);
    FirstArrives(cfg, s.client.(recent := Remember(s.client.recent, Numbered(1))));
    var s1 := Next(cfg, s, One(cfg));
    HasCapacity(cfg);
    Handled(cfg, s1, 3, EPOCH);
    ThirdArrives(cfg, s1.client.(recent := Remember(s1.client.recent, Numbered(3))));
  }

  lemma HasCapacity(cfg: Config)
    ensures Capacity(cfg) > 0
  {
  }

  lemma Stopping(cfg: Config, s: State, tasks: seq<Request>)
    requires Lacking(cfg, s, tasks)
    ensures Resets(s, DeliverOrder(true)) && Clear(cfg, Next(cfg, s, DeliverOrder(true)), tasks)
  {
    hide AssembleAudio, Capacity;
  }

  /** The newest task asks. */
  lemma Asking(cfg: Config, s: State, tasks: seq<Request>, left: nat)
    requires Lacking(cfg, s, tasks + [Request(2, left)]) && left > 0
    ensures Spends(cfg, s, FireTask(|tasks|, 0, 0), 2, 0)
    ensures Lacking(cfg, Next(cfg, s, FireTask(|tasks|, 0, 0)), tasks + [Request(2, left - 1)])
  {
    hide AssembleAudio, AssembleRequest, Capacity;
    assert (tasks + [Request(2, left)])[..|tasks|] == tasks && (tasks + [Request(2, left)])[|tasks| + 1..] == [];
    assert tasks + [] == tasks;
  }

  // ----- Stops

  /** The tasks of so many chains that have asked for number 2 as often as they may, and wait. */
  function Waiting(m: nat): seq<Request> {
    seq(m, _ => Request(2, 0))
  }

  /** The newest task asks so many times. */
  function AskedOften(es: seq<Event>, i: nat, times: nat): seq<Event> {
    if times == 0 then es else AskedOften(es, i, times - 1) + [FireTask(i, 0, 0)]
  }

  /** Number 2 is lost and asked for as often as allowed. */
  function Loss(cfg: Config, es: seq<Event>, m: nat): seq<Event> {
    AskedOften(es + [One(cfg)] + [Three(cfg)], m, Retries(cfg.bufferms))
  }

  /** So many stops, with the same loss before and after each. */
  function Rounds(cfg: Config, m: nat): seq<Event> {
    if m == 0 then Loss(cfg, Sending(), 0) else Loss(cfg, Rounds(cfg, m - 1) + [DeliverOrder(true)], m)
  }

  lemma {:induction false} AskingAsks(cfg: Config, es: seq<Event>, tasks: seq<Request>, left: nat, times: nat)
    requires times <= left && Lacking(cfg, End(cfg, es), tasks + [Request(2, left)])
    ensures var es' := AskedOften(es, |tasks|, times);
      && Lacking(cfg, End(cfg, es'), tasks + [Request(2, left - times)])
      && Asked(cfg, es', 2) == Asked(cfg, es, 2) + times && Stopped(cfg, es') == Stopped(cfg, es)
    decreases times
  {
    hide Next, End, Asked, Stopped, Lacking;
    if times > 0 {
      AskingAsks(cfg, es, tasks, left, times - 1);
      var es1 := AskedOften(es, |tasks|, times - 1);
      Append(cfg, es1, FireTask(|tasks|, 0, 0), 2);
      Asking(cfg, End(cfg, es1), tasks, left - times + 1);
    }
  }

  lemma LossAsks(cfg: Config, es: seq<Event>, m: nat)
    requires Usual(cfg) && Clear(cfg, End(cfg, es), Waiting(m))
    ensures Lacking(cfg, End(cfg, Loss(cfg, es, m)), Waiting(m + 1))
    ensures Asked(cfg, Loss(cfg, es, m), 2) == Asked(cfg, es, 2) + Retries(cfg.bufferms)
    ensures Stopped(cfg, Loss(cfg, es, m)) == Stopped(cfg, es)
  {
    hide Next, End, Asked, Stopped, Lacking, Clear, Retries, Usual, AssembleAudio;
    Append(cfg, es, One(cfg), 2);
    Append(cfg, es + [One(cfg)], Three(cfg), 2);
    Losing(cfg, End(cfg, es), Waiting(m));
    AskingAsks(cfg, es + [One(cfg)] + [Three(cfg)], Waiting(m), Retries(cfg.bufferms), Retries(cfg.bufferms));
    assert Waiting(m) + [Request(2, 0)] == Waiting(m + 1);
  }

  lemma {:induction false} RoundsAsk(cfg: Config, m: nat)
    requires Usual(cfg)
    ensures Lacking(cfg, End(cfg, Rounds(cfg, m)), Waiting(m + 1))
    ensures Asked(cfg, Rounds(cfg, m), 2) == Retries(cfg.bufferms) * (m + 1) && Stopped(cfg, Rounds(cfg, m)) == m
  {
    hide Next, End, Asked, Stopped, Lacking, Clear, Loss, Retries, Usual;
    if m == 0 {
      AllSent(cfg, 2);
      AllClear(cfg, End(cfg, Sending()));
      LossAsks(cfg, Sending(), 0);
    } else {
      RoundsAsk(cfg, m - 1);
      Append(cfg, Rounds(cfg, m - 1), DeliverOrder(true), 2);
      Stopping(cfg, End(cfg, Rounds(cfg, m - 1)), Waiting(m));
      LossAsks(cfg, Rounds(cfg, m - 1) + [DeliverOrder(true)], m);
    }
  }

  lemma AllClear(cfg: Config, s: State)
    requires Underway(cfg, s) && s.client == INIT && s.ledger == map[]
    ensures Clear(cfg, s, Waiting(0))
  {
  }

  /** With any buffer that allows a retry, and for any number of stops, there is a run in which a packet is
      asked for as often as the bound allows: tasks survive a stop, and each stop grants a new chain. */
  lemma StopsGrantChains(cfg: Config, m: nat) returns (es: seq<Event>)
    requires Retries(cfg.bufferms) > 0
    ensures Stops(cfg, es, 0, |es|) == m
    ensures Asks(cfg, es, 0, |es|, 2) == Retries(cfg.bufferms) * (m + 1)
  {
    hide Rounds, Asks, Stops, Lacking, Retries;
    RoundsAsk(cfg, m);
    es := Rounds(cfg, m);
  }

  /** A task that waited before the stop gives up a number that went missing again, although it has not
      been asked for since. */
  lemma GivenUpUnasked(cfg: Config) returns (es: seq<Event>, j: nat)
    requires Retries(cfg.bufferms) > 0
    ensures 0 < j <= |es| && Resets(After(cfg, es, j - 1), es[j - 1]) && Undisturbed(cfg, es, j, |es|)
    ensures Label(After(cfg, es, |es|).ledger, 2) == Some(GivenUp)
    ensures Asks(cfg, es, j, |es|, 2) == 0 < Retries(cfg.bufferms)
  {
    hide Next, Lacking, Clear, Loss, Asks, Label, Spends, After, Rounds, Retries, AssembleAudio;
    var stop := DeliverOrder(true);
    RoundsAsk(cfg, 0);
    var es0 := Rounds(cfg, 0) + [stop];
    Append(cfg, Rounds(cfg, 0), stop, 2);
    Stopping(cfg, End(cfg, Rounds(cfg, 0)), Waiting(1));
    Losing(cfg, End(cfg, es0), Waiting(1));
    Append(cfg, es0, One(cfg), 2);
    Append(cfg, es0 + [One(cfg)], Three(cfg), 2);
    var es1 := es0 + [One(cfg)] + [Three(cfg)];
    Append(cfg, es1, FireTask(0, 0, 0), 2);
    GivesUp(cfg, End(cfg, es1));
    es, j := es1 + [FireTask(0, 0, 0)], |es0|;
    var more := [One(cfg)] + [Three(cfg)] + [FireTask(0, 0, 0)];
    assert es == es0 + more && es == Rounds(cfg, 0) + ([stop] + more);
    Prefix(cfg, es0, more, j, 2);
    Prefix(cfg, Rounds(cfg, 0), [stop] + more, j - 1, 2);
    SplitAsks(cfg, es, j, |es|, 2);
    NotFiring(cfg, End(cfg, es0), One(cfg));
    NotFiring(cfg, End(cfg, es0 + [One(cfg)]), Three(cfg));
  }

  lemma NotFiring(cfg: Config, s: State, e: Event)
    requires !e.FireTask?
    ensures !Spends(cfg, s, e, 2, 0)
  {
  }

  lemma GivesUp(cfg: Config, s: State)
    requires Lacking(cfg, s, Waiting(1) + [Request(2, Retries(cfg.bufferms))])
    ensures !Spends(cfg, s, FireTask(0, 0, 0), 2, 0)
    ensures Label(Next(cfg, s, FireTask(0, 0, 0)).ledger, 2) == Some(GivenUp)
  {
    hide AssembleAudio, AssembleRequest, Capacity, Retries;
    assert s.client.tasks[0] == Request(2, 0);
  }

  // ----- Duplicates

  function Two(cfg: Config): Event { DeliverAudio(Packet(cfg, 2), EPOCH) }

  const TOO_LATE := Timespec(20, 0)

  lemma SecondArrives(cfg: Config, c: Client)
    requires c.last == 1 && c.missing == [] && c.capacity > 0
    ensures HandleAudio(c, Arriving(cfg, 2), EPOCH, cfg.decoder)
         == c.(last := 2, buffer := PutChunk(c.buffer, Entry(2, CHUNK, false), c.capacity, EPOCH))
  {
    hide PutChunk;
  }

  lemma FirstReturns(cfg: Config, c: Client, f: Ledger)
    requires c.last == 2 && c.missing == [] && c.capacity > 0
    ensures HandleAudio(c, Arriving(cfg, 1), EPOCH, cfg.decoder)
         == c.(buffer := PutChunk(c.buffer, Entry(1, CHUNK, false), c.capacity, EPOCH))
    ensures Label(AccountAudio(f, c, Arriving(cfg, 1), TOO_LATE, cfg.decoder), 1) == Some(Late)
  {
    hide PutChunk;
  }

  lemma Buffered(capacity: nat)
    requires capacity >= 3
    ensures PutChunk([Entry(1, CHUNK, true)], Entry(2, CHUNK, false), capacity, EPOCH)
         == [Entry(1, CHUNK, true), Entry(2, CHUNK, false)]
    ensures PutChunk([Entry(1, CHUNK, true), Entry(2, CHUNK, false)], Entry(1, CHUNK, false), capacity, EPOCH)
         == [Entry(1, CHUNK, true), Entry(2, CHUNK, false), Entry(1, CHUNK, false)]
  {
  }

  /** Number 1 has been received, and then number 2. */
  function Twice(cfg: Config): seq<Event> {
    Sending() + [One(cfg)] + [Two(cfg)]
  }

  lemma OneThenTwo(cfg: Config)
    requires Usual(cfg)
    ensures var s := End(cfg, Twice(cfg));
      && Underway(cfg, s) && s.client.last == 2 && s.client.missing == [] && s.client.capacity == Capacity(cfg)
      && s.client.buffer == [Entry(1, CHUNK, true), Entry(2, CHUNK, false)]
      && s.client.recent != [] && s.client.recent[|s.client.recent| - 1] == Numbered(2)
      && Label(s.ledger, 1) == Some(Received)
  {
    hide Next, HandleAudio, AccountAudio, AssembleAudio, PutChunk, End, Capacity, Usual;
    UsualCapacity(cfg);
    AllSent(cfg, 2);
    var s := End(cfg, Sending());
    Append(cfg, Sending(), One(cfg), 2);
    Append(cfg, Sending() + [One(cfg)], Two(cfg), 2);
    FirstArrives(cfg, s.client);
    Handled(cfg, s, 1, EPOCH);
    var c := s.client.(recent := Remember(s.client.recent, Numbered(1)));
    FirstArrives(cfg, c);
    var s1 := Next(cfg, s, One(cfg));
    Handled(cfg, s1, 2, EPOCH);
    var c1 := s1.client.(recent := Remember(s1.client.recent, Numbered(2)));
    SecondArrives(cfg, c1);
    Buffered(Capacity(cfg));
    BothReceived(cfg, s.ledger, c, c1);
  }

  lemma BothReceived(cfg: Config, f: Ledger, c: Client, c': Client)
    requires c.last == 0 && c.capacity == 0 && c.missing == [] && c'.last == 1 && c'.capacity > 0 && c'.missing == []
    requires Ready(c, Arriving(cfg, 1), cfg.decoder)
    ensures var f' := AccountAudio(f, c, Arriving(cfg, 1), EPOCH, cfg.decoder);
      Label(AccountAudio(f', c', Arriving(cfg, 2), EPOCH, cfg.decoder), 1) == Some(Received)
  {
  }

  /** A duplicate that is not the newest packet is buffered a second time. */
  lemma BufferedTwice(cfg: Config) returns (es: seq<Event>)
    requires Retries(cfg.bufferms) > 0
    ensures var b := After(cfg, es, |es|).client.buffer; |b| == 3 && b[0].seqno == b[2].seqno == 1
  {
    hide Next, HandleAudio, AccountAudio, AssembleAudio, PutChunk, Twice, Capacity;
    OneThenTwo(cfg);
    UsualCapacity(cfg);
    var s := End(cfg, Twice(cfg));
    es := Twice(cfg) + [One(cfg)];
    Append(cfg, Twice(cfg), One(cfg), 2);
    Handled(cfg, s, 1, EPOCH);
    FirstReturns(cfg, s.client.(recent := Remember(s.client.recent, Numbered(1))), s.ledger);
    Buffered(Capacity(cfg));
  }

  /** A duplicate that comes too late turns a received number into a late one. */
  lemma ReceivedThenLate(cfg: Config) returns (es: seq<Event>, k: nat)
    requires Retries(cfg.bufferms) > 0
    ensures k < |es| && Label(After(cfg, es, k).ledger, 1) == Some(Received)
    ensures Label(After(cfg, es, |es|).ledger, 1) == Some(Late)
  {
    hide Next, HandleAudio, AccountAudio, AssembleAudio, PutChunk, Twice, Label, Capacity;
    var e := DeliverAudio(Packet(cfg, 1), TOO_LATE);
    OneThenTwo(cfg);
    UsualCapacity(cfg);
    var s := End(cfg, Twice(cfg));
    es, k := Twice(cfg) + [e], |Twice(cfg)|;
    Append(cfg, Twice(cfg), e, 2);
    Prefix(cfg, Twice(cfg), [e], k, 2);
    Handled(cfg, s, 1, TOO_LATE);
    FirstReturns(cfg, s.client.(recent := Remember(s.client.recent, Numbered(1))), s.ledger);
  }

  // ----- Orders

  /** An order right behind another has no effect: a stop is lost behind a change of volume. */
  lemma SecondOrderIsLost(cfg: Config, s: State, first: bool, second: bool)
    ensures var s' := Next(cfg, s, DeliverOrder(first)); Next(cfg, s', DeliverOrder(second)) == s'
  {
  }

  /** Between two copies of a packet, an order makes the second be handled again. */
  lemma OrderHidesDuplicate(cfg: Config, s: State, p: Bytes, ctime: Timespec, stop: bool)
    requires Enabled(cfg, s, DeliverAudio(p, ctime))
             && ParseAudio(p).Some? && ParseAudio(p).value.header.kind == AUDIO_DATA
    ensures var s1 := Next(cfg, s, DeliverAudio(p, ctime));
      && Arrival(s1, p) == None
      && Arrival(Next(cfg, s1, DeliverOrder(stop)), p) == ParseAudio(p)
  {
    hide HandleAudio, AccountAudio, ParseAudio;
    var a := ParseAudio(p).value;
    AudioKeepsRecent(s.client.(recent := Remember(s.client.recent, a.header)), a, ctime, cfg.decoder);
  }

  // ----- The very first packet

  /** The client starts as if it had received number 0: the loss of that packet is never noticed. */
  lemma FirstPacketIsNeverMissed(cfg: Config, es: seq<Event>, k: nat)
    requires k <= |es|
    ensures 0 !in After(cfg, es, k).client.missing
  {
    LedgerIsComplete(cfg, es, k);
  }
}
