/** What the entries of the ledger mean, told by the events of a run and the client's list and tasks at the
    time (src/intercom_client.c). */
module Labels {
  import opened Time
  import opened Chunk
  import opened Wire
  import opened Server
  import opened Client
  import opened Recovery
  import opened System
  import opened Runs

  /** The entry of n. */
  function Label(f: Ledger, n: nat): Option<Fate> {
    if n in f then Some(f[n]) else None
  }

  /** What the arrival of seqno, which takes the client from c to c', says about n:
      - received: it is n, in time;
      - missing: it is in time and less than a buffer ahead, and n lies in the gap before it;
      - skipped: it is in time and a buffer ahead or more, and n lies in the gap before it;
      - evicted: it is in time and leaves a list of missing packets that is full of numbers newer than n,
        which was missing;
      - late: it comes too late and is n, or lies ahead of n while n was missing or not yet reached. */
  ghost predicate ArrivalTells(c: Client, c': Client, seqno: nat, onTime: bool, n: nat, f: Fate) {
    match f
    case Received => onTime && seqno == n
    case Missing => onTime && c.last < n < seqno && seqno - c.last < c'.capacity
    case Skipped => onTime && c.last < n < seqno && seqno - c.last >= c'.capacity
    case Evicted =>
      onTime && seqno != n && n in c.missing && |c'.missing| == c'.capacity && forall m :: m in c'.missing ==> m > n
    case Late => !onTime && (seqno == n || (n < seqno && (n in c.missing || n > c.last)))
    case GivenUp => false
  }

  /** What the firing of the task at position i says about n: without retries left it gives up n, if n is
      missing. */
  ghost predicate FiringTells(c: Client, i: nat, n: nat, f: Fate)
    requires i < |c.tasks|
  {
    f.GivenUp? && c.tasks[i].nonce == n && c.tasks[i].retriesLeft == 0 && n in c.missing
  }

  /** The audio packet that the client handles in this event. */
  function Heard(cfg: Config, s: State, e: Event): Option<Audio> {
    if e.DeliverAudio? && Enabled(cfg, s, e) then Arrival(s, e.packet) else None
  }

  /** What the event says about n. */
  ghost predicate Tells(cfg: Config, s: State, e: Event, n: nat, f: Fate) {
    var a := Heard(cfg, s, e);
    || (a.Some? &&
        ArrivalTells(s.client, Next(cfg, s, e).client, a.value.header.nonce, OnTime(a.value, e.ctime), n, f))
    || (e.FireTask? && Enabled(cfg, s, e) && FiringTells(s.client, e.i, n, f))
  }

  // ----- One event

  /** What is thrown out is older than what stays, and what stays is as much as fits. */
  lemma EvictionsAreOldest(all: seq<nat>, max: nat, n: nat)
    requires Ascending(all) && n in all && n !in Limit(all, max)
    ensures |Limit(all, max)| == max && forall m :: m in Limit(all, max) ==> m > n
  {
    var r := Limit(all, max);
    forall j | |all| - |r| <= j < |all| ensures all[j] in r {
      assert all[j] == r[j - (|all| - |r|)];
    }
  }

  ghost predicate EnteredBy(f: Ledger, f': Ledger, c: Client, c': Client, seqno: nat, onTime: bool, n: nat) {
    && (forall g :: ArrivalTells(c, c', seqno, onTime, n, g) ==> Label(f', n) == Some(g))
    && ((forall g :: !ArrivalTells(c, c', seqno, onTime, n, g)) ==> Label(f', n) == Label(f, n))
  }

  lemma GapLabel(f: Ledger, gap: set<nat>, evicted: set<nat>, seqno: nat, n: nat)
    ensures Label(Mark(Mark(f, gap, Missing), evicted, Evicted)[seqno := Received], n)
         == if n == seqno then Some(Received) else if n in evicted then Some(Evicted)
            else if n in gap then Some(Missing) else Label(f, n)
  {
  }

  lemma GapEntered(f: Ledger, c: Client, seqno: u32, n: nat)
    requires ClientInv(c) && c.capacity > 0 && seqno < LIMIT && IsGap(c, seqno) && seqno !in c.missing
    ensures EnteredBy(f, AccountOnTime(f, c, seqno), c, NoteGap(c, seqno), seqno, true, n)
  {
    hide NoteGap, RequestGap, GapStart, Limit, Range, RequestsFor, IsNextChunk, Mark, Label;
    NoteGapExactly(c, seqno);
    var all := c.missing + Range(c.last + 1, seqno);
    GapLabel(f, Between(c.last, seqno), Evictions(all, c.capacity), seqno, n);
    if n in all && n !in Limit(all, c.capacity) { EvictionsAreOldest(all, c.capacity, n); }
    LimitKeepsNewest(all, c.capacity);
    Told(c, NoteGap(c, seqno), seqno, true, n);
  }

  /** The cases one by one. */
  lemma Told(c: Client, c': Client, seqno: nat, onTime: bool, n: nat)
    ensures (forall g :: !ArrivalTells(c, c', seqno, onTime, n, g)) <==>
      && !ArrivalTells(c, c', seqno, onTime, n, Received) && !ArrivalTells(c, c', seqno, onTime, n, Missing)
      && !ArrivalTells(c, c', seqno, onTime, n, Skipped) && !ArrivalTells(c, c', seqno, onTime, n, Evicted)
      && !ArrivalTells(c, c', seqno, onTime, n, Late)
  {
  }

  lemma OnTimeEntered(f: Ledger, c: Client, seqno: u32, n: nat)
    requires ClientInv(c) && c.capacity > 0 && seqno < LIMIT && seqno !in c.missing
    ensures EnteredBy(f, AccountOnTime(f, c, seqno), c, NoteGap(c, seqno), seqno, true, n)
  {
    hide RequestGap, GapStart, Range;
    if IsGap(c, seqno) {
      GapEntered(f, c, seqno, n);
    } else {
      Told(c, NoteGap(c, seqno), seqno, true, n);
    }
  }

  lemma LateEntered(f: Ledger, c: Client, c': Client, seqno: u32, n: nat)
    requires ClientInv(c) && seqno !in c.missing
    ensures EnteredBy(f, AccountLate(f, c, seqno), c, c', seqno, false, n)
  {
    Told(c, c', seqno, false, n);
  }

  lemma NoteGapKeepsCapacity(c: Client, seqno: u32)
    ensures NoteGap(c, seqno).capacity == c.capacity
  {
  }

  lemma Retold(f: Ledger, f': Ledger, b: Client, b': Client, c: Client, c': Client, seqno: nat, onTime: bool, n: nat)
    requires EnteredBy(f, f', b, b', seqno, onTime, n)
    requires b.last == c.last && b'.capacity == c'.capacity && b'.missing == c'.missing
    requires n != seqno ==> (n in b.missing <==> n in c.missing)
    ensures EnteredBy(f, f', c, c', seqno, onTime, n)
  {
    forall g ensures ArrivalTells(b, b', seqno, onTime, n, g) == ArrivalTells(c, c', seqno, onTime, n, g) {}
  }

  lemma ArrivalEntered(f: Ledger, c: Client, a: Audio, ctime: Timespec, d: Decoder, n: nat)
    requires ClientInv(c) && a.header.nonce < LIMIT && Ready(c, a, d)
    ensures EnteredBy(f, AccountAudio(f, c, a, ctime, d), c, HandleAudio(c, a, ctime, d),
                      a.header.nonce, OnTime(a, ctime), n)
  {
    hide SetUp, NoteGap, PutChunk, AccountOnTime, AccountLate, EnteredBy;
    var seqno := a.header.nonce;
    ListWithout(c, seqno);
    SetUpKeepsInv(c.(missing := RemoveRequest(c.missing, seqno)), a, d);
    var c1 := SetUp(c.(missing := RemoveRequest(c.missing, seqno)), a, d);
    NoteGapKeepsCapacity(c1, seqno);
    var f', c' := AccountAudio(f, c, a, ctime, d), HandleAudio(c, a, ctime, d);
    if OnTime(a, ctime) {
      OnTimeEntered(f, c1, seqno, n);
      Retold(f, f', c1, NoteGap(c1, seqno), c, c', seqno, true, n);
    } else {
      LateEntered(f, c1, c', seqno, n);
      Retold(f, f', c1, c', c, c', seqno, false, n);
    }
  }

  /** An event sets the entry of n to what it says about n; an obeyed stop clears all entries; any other
      event leaves the entry alone. */
  lemma StepEnters(cfg: Config, s: State, e: Event, n: nat)
    requires Inv(cfg, s)
    ensures var f' := Next(cfg, s, e).ledger;
      && (forall g :: Tells(cfg, s, e, n, g) ==> Label(f', n) == Some(g))
      && (Resets(s, e) ==> Label(f', n) == None)
      && (!Resets(s, e) && (forall g :: !Tells(cfg, s, e, n, g)) ==> Label(f', n) == Label(s.ledger, n))
  {
    hide Inv, Delivered, HandleOrder, Expire, RequestsFrom, ArrivalTells, AccountFiring, FiringTells;
    ClientOf(cfg, s);
    if e.DeliverAudio? && Enabled(cfg, s, e) {
      DeliveryEnters(cfg, s, e, n);
    } else if e.FireTask? && Enabled(cfg, s, e) {
      FiringEnters(s.ledger, s.client, e.i, n);
      forall g ensures Tells(cfg, s, e, n, g) == FiringTells(s.client, e.i, n, g) {}
    }
  }

  lemma FiringEnters(f: Ledger, c: Client, i: nat, n: nat)
    requires i < |c.tasks|
    ensures var f' := AccountFiring(f, c, i);
      && (forall g :: FiringTells(c, i, n, g) ==> Label(f', n) == Some(g))
      && ((forall g :: !FiringTells(c, i, n, g)) ==> Label(f', n) == Label(f, n))
  {
    assert FiringTells(c, i, n, GivenUp) || forall g :: !FiringTells(c, i, n, g);
  }

  lemma DeliveryEnters(cfg: Config, s: State, e: Event, n: nat)
    requires Inv(cfg, s) && e.DeliverAudio? && Enabled(cfg, s, e)
    ensures var f' := Next(cfg, s, e).ledger;
      && (forall g :: Tells(cfg, s, e, n, g) ==> Label(f', n) == Some(g))
      && ((forall g :: !Tells(cfg, s, e, n, g)) ==> Label(f', n) == Label(s.ledger, n))
  {
    hide HandleAudio, AccountAudio, ArrivalTells, Label, Inv, EnteredBy;
    ClientOf(cfg, s);
    var a := DeliveredIsGenuine(cfg, s, e.packet);
    if !RecentlySeen(s.client.recent, a.header) {
      var c := s.client.(recent := Remember(s.client.recent, a.header));
      var c', f' := HandleAudio(c, a, e.ctime, cfg.decoder), AccountAudio(s.ledger, c, a, e.ctime, cfg.decoder);
      assert Next(cfg, s, e).client == c' && Next(cfg, s, e).ledger == f';
      assert Heard(cfg, s, e) == Some(a);
      ArrivalEntered(s.ledger, c, a, e.ctime, cfg.decoder, n);
      Retold(s.ledger, f', c, c', s.client, c', a.header.nonce, OnTime(a, e.ctime), n);
      forall g ensures Tells(cfg, s, e, n, g) == ArrivalTells(s.client, c', a.header.nonce, OnTime(a, e.ctime), n, g) {}
      EnteredMeans(s.ledger, f', s.client, c', a.header.nonce, OnTime(a, e.ctime), n);
    }
  }

  lemma EnteredMeans(f: Ledger, f': Ledger, c: Client, c': Client, seqno: nat, onTime: bool, n: nat)
    requires EnteredBy(f, f', c, c', seqno, onTime, n)
    ensures forall g :: ArrivalTells(c, c', seqno, onTime, n, g) ==> Label(f', n) == Some(g)
    ensures (forall g :: !ArrivalTells(c, c', seqno, onTime, n, g)) ==> Label(f', n) == Label(f, n)
  {
  }

  // ----- Whole runs

  /** The i-th event is the last one before the k-th to say anything about n, says f, and no stop has been
      obeyed since. */
  ghost predicate ToldLast(cfg: Config, es: seq<Event>, i: nat, k: nat, n: nat, f: Fate)
    requires k <= |es|
  {
    && i < k && Undisturbed(cfg, es, i, k)
    && Tells(cfg, After(cfg, es, i), es[i], n, f)
    && forall j, g :: i < j < k ==> !Tells(cfg, After(cfg, es, j), es[j], n, g)
  }

  /** In every run, the ledger calls n received, missing, skipped, evicted, late or given up exactly if
      that is what the last event since the last stop that says anything about n says. */
  lemma {:induction false} LabelsMeanWhatTheySay(cfg: Config, es: seq<Event>, k: nat, n: nat, f: Fate)
    requires k <= |es|
    ensures Label(After(cfg, es, k).ledger, n) == Some(f) <==> exists i: nat :: ToldLast(cfg, es, i, k, n, f)
    decreases k
  {
    hide Tells, Next, Label, Inv, Resets;
    if k == 0 {
      NothingTold(n);
    } else {
      var j := k - 1;
      var s, e := After(cfg, es, j), es[j];
      InvHolds(cfg, es, j);
      StepEnters(cfg, s, e, n);
      LabelsMeanWhatTheySay(cfg, es, j, n, f);
      if Resets(s, e) {
        forall i: nat ensures !ToldLast(cfg, es, i, k, n, f) {}
      } else if g :| Tells(cfg, s, e, n, g) {
        if f == g { assert ToldLast(cfg, es, j, k, n, f); }
        forall i: nat | ToldLast(cfg, es, i, k, n, f) ensures f == g {
          if i < j { assert Tells(cfg, After(cfg, es, j), es[j], n, g); }
        }
      } else {
        forall i: nat ensures ToldLast(cfg, es, i, k, n, f) == ToldLast(cfg, es, i, j, n, f) {}
      }
    }
  }

  lemma NothingTold(n: nat)
    ensures Label(START.ledger, n) == None
  {
  }

  // ----- Given up means asked for as often as allowed

  lemma {:induction false} NoTaskNoWeight(tasks: seq<Request>, n: nat)
    ensures Weigh(tasks, n, 1) >= Weigh(tasks, n, 0)
    ensures Weigh(tasks, n, 1) == Weigh(tasks, n, 0) ==> Weigh(tasks, n, 1) == 0
  {
    if tasks != [] { NoTaskNoWeight(tasks[1..], n); }
  }

  /** At most one task is pending for n; what it has left and what has been asked for make up the full
      number of retries. */
  ghost predicate OneChain(tasks: seq<Request>, n: nat, asked: nat, retries: nat) {
    || Weight(tasks, n) == 0
    || (Weight(tasks, n) == Credit(tasks, n) + 1 && asked + Credit(tasks, n) == retries)
  }

  /** The only task pending for n, if there is one. */
  lemma OnlyTask(tasks: seq<Request>, i: nat, n: nat, asked: nat, retries: nat)
    requires OneChain(tasks, n, asked, retries) && i < |tasks| && tasks[i].nonce == n
    ensures Credit(tasks, n) == tasks[i].retriesLeft && asked + tasks[i].retriesLeft == retries
    ensures Weight(tasks[..i] + tasks[i + 1..], n) == 0 && Credit(tasks[..i] + tasks[i + 1..], n) == 0
  {
    var others := tasks[..i] + tasks[i + 1..];
    WeighWithout(tasks, i, n, 0);
    WeighWithout(tasks, i, n, 1);
    NoTaskNoWeight(others, n);
  }

  lemma FiringKeepsChain(c: Client, i: nat, n: nat, asked: nat, retries: nat)
    requires ClientInv(c) && i < |c.tasks| && OneChain(c.tasks, n, asked, retries)
    ensures var (c', asks) := FireRequest(c, i);
      OneChain(c'.tasks, n, asked + if asks && c.tasks[i].nonce == n then 1 else 0, retries)
    ensures FiringTells(c, i, n, GivenUp) ==> asked == retries && Weight(FireRequest(c, i).0.tasks, n) == 0
  {
    var t := c.tasks[i];
    var others := c.tasks[..i] + c.tasks[i + 1..];
    if t.nonce == n {
      OnlyTask(c.tasks, i, n, asked, retries);
      var again := [Request(t.nonce, if t.retriesLeft > 0 then t.retriesLeft - 1 else 0)];
      WeighConcat(others, again, n, 0);
      WeighConcat(others, again, n, 1);
    } else {
      FireWeighs(c, i, n);
    }
  }

  ghost predicate ChainSound(s: State, n: nat, asked: nat, retries: nat) {
    && OneChain(s.client.tasks, n, asked, retries)
    && (n > s.client.last ==> Weight(s.client.tasks, n) == 0 && asked == 0)
    && (Label(s.ledger, n) == Some(GivenUp) ==> Weight(s.client.tasks, n) == 0 && asked == retries)
  }

  lemma LabelledIsBehind(cfg: Config, s: State, n: nat)
    requires Inv(cfg, s)
    ensures Label(s.ledger, n).Some? ==> n <= s.client.last
  {
  }

  lemma DeliveryKeepsChain(cfg: Config, s: State, e: Event, n: nat, asked: nat)
    requires Inv(cfg, s) && SameBuffertime(cfg.bufferms, s.client) && e.DeliverAudio?
    requires ChainSound(s, n, asked, Retries(cfg.bufferms))
    ensures ChainSound(Next(cfg, s, e), n, asked, Retries(cfg.bufferms))
  {
    hide Inv, Next, Weigh, Label, Retries, ArrivalTells, FiringTells;
    StepSettles(cfg, s, e, n);
    StepEnters(cfg, s, e, n);
    LabelledIsBehind(cfg, s, n);
    DeliveredBelow(cfg, s, e, n);
    DeliveryWeighs(cfg, s, e, n, 0);
    DeliveryWeighs(cfg, s, e, n, 1);
    NoTaskNoWeight(s.client.tasks, n);
    NoArrivalGivesUp(cfg, s, e, n);
  }

  lemma NoArrivalGivesUp(cfg: Config, s: State, e: Event, n: nat)
    requires e.DeliverAudio?
    ensures !Tells(cfg, s, e, n, GivenUp)
  {
  }

  lemma FiringKeepsSound(cfg: Config, s: State, e: Event, n: nat, asked: nat, retries: nat)
    requires Inv(cfg, s) && e.FireTask? && Enabled(cfg, s, e) && ChainSound(s, n, asked, retries)
    ensures ChainSound(Next(cfg, s, e), n, asked + if Spends(cfg, s, e, n, 0) then 1 else 0, retries)
  {
    hide Inv, Weigh, Label, FireRequest, AccountFiring, FiringTells;
    ClientOf(cfg, s);
    FiringKeepsLast(s.client, e.i);
    FiringKeepsChain(s.client, e.i, n, asked, retries);
    FiringEnters(s.ledger, s.client, e.i, n);
    OnlyGivesUp(s.client, e.i, n);
    FireWeighs(s.client, e.i, n);
  }

  lemma OnlyGivesUp(c: Client, i: nat, n: nat)
    requires i < |c.tasks|
    ensures forall g :: FiringTells(c, i, n, g) ==> g == GivenUp
  {
  }

  lemma StepKeepsChain(cfg: Config, s: State, e: Event, n: nat, asked: nat)
    requires Inv(cfg, s) && SameBuffertime(cfg.bufferms, s.client) && !Resets(s, e)
    requires ChainSound(s, n, asked, Retries(cfg.bufferms))
    ensures ChainSound(Next(cfg, s, e), n, asked + if Spends(cfg, s, e, n, 0) then 1 else 0, Retries(cfg.bufferms))
  {
    hide ChainSound, Inv, Retries, Delivered, Expire, RequestsFrom, FireRequest, AccountFiring;
    if e.DeliverAudio? {
      DeliveryKeepsChain(cfg, s, e, n, asked);
    } else if e.FireTask? && Enabled(cfg, s, e) {
      FiringKeepsSound(cfg, s, e, n, asked, Retries(cfg.bufferms));
    } else {
      SameChain(s, Next(cfg, s, e), n, asked, Retries(cfg.bufferms));
    }
  }

  lemma SameChain(s: State, s': State, n: nat, asked: nat, retries: nat)
    requires ChainSound(s, n, asked, retries)
    requires s'.client.tasks == s.client.tasks && s'.client.last == s.client.last && s'.ledger == s.ledger
    ensures ChainSound(s', n, asked, retries)
  {
  }

  lemma {:induction false} ChainStaysSound(cfg: Config, es: seq<Event>, j: nat, k: nat, n: nat)
    requires j <= k <= |es| && Undisturbed(cfg, es, j, k)
    requires n > After(cfg, es, j).client.last && Pending(cfg, es, j, n) == 0
    ensures ChainSound(After(cfg, es, k), n, Asks(cfg, es, j, k, n), Retries(cfg.bufferms))
    decreases k
  {
    hide Next, Retries, Spends, Inv, SameBuffertime, Resets, Weigh, Label;
    if j < k {
      ChainStaysSound(cfg, es, j, k - 1, n);
      InvHolds(cfg, es, k - 1);
      BuffertimeHolds(cfg, es, k - 1);
      StepKeepsChain(cfg, After(cfg, es, k - 1), es[k - 1], n, Asks(cfg, es, j, k - 1, n));
    } else {
      InvHolds(cfg, es, j);
      LabelledIsBehind(cfg, After(cfg, es, j), n);
    }
  }

  /** A number that was still ahead, with no task pending for it, at some point from which on no stop was
      obeyed, is given up only after it has been asked for exactly as often as allowed.  This holds from
      the start, and from any stop that leaves no task for the number. */
  lemma GivenUpAfterAllRetries(cfg: Config, es: seq<Event>, j: nat, k: nat, n: nat)
    requires j <= k <= |es| && Undisturbed(cfg, es, j, k)
    requires n > After(cfg, es, j).client.last && Pending(cfg, es, j, n) == 0
    ensures Label(After(cfg, es, k).ledger, n) == Some(GivenUp) ==> Asks(cfg, es, j, k, n) == Retries(cfg.bufferms)
  {
    ChainStaysSound(cfg, es, j, k, n);
  }

  /** In particular, in a run without a stop. */
  lemma GivenUpFromTheStart(cfg: Config, es: seq<Event>, k: nat, n: nat)
    requires k <= |es| && Undisturbed(cfg, es, 0, k)
    ensures Label(After(cfg, es, k).ledger, n) == Some(GivenUp) ==> Asks(cfg, es, 0, k, n) == Retries(cfg.bufferms)
  {
    LabelsMeanWhatTheySay(cfg, es, k, n, GivenUp);
    if i: nat :| ToldLast(cfg, es, i, k, n, GivenUp) {
      InvHolds(cfg, es, i);
      GivesUpPositive(cfg, After(cfg, es, i), es[i], n);
      GivenUpAfterAllRetries(cfg, es, 0, k, n);
    }
  }

  lemma GivesUpPositive(cfg: Config, s: State, e: Event, n: nat)
    requires Inv(cfg, s) && Tells(cfg, s, e, n, GivenUp)
    ensures n > 0
  {
  }
}
