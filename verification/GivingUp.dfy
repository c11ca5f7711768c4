/** When a missing packet is given up too early: the exact condition (src/intercom_client.c). */
module GivingUp {
  import opened Time
  import opened Chunk
  import opened Wire
  import opened Server
  import opened Client
  import opened Recovery
  import opened System
  import opened Runs
  import opened Labels
  import Rescue

  // ----- Tasks that have enough retries left give up only after as many requests

  /** Every pending task for n may still ask that often. */
  ghost predicate AllHave(tasks: seq<Request>, n: nat, m: int) {
    forall t :: t in tasks && t.nonce == n ==> t.retriesLeft >= m
  }

  /** An arrival keeps all tasks, and adds some only for numbers of its gap, with the full retries. */
  lemma ArrivalTasks(c: Client, a: Audio, ctime: Timespec, d: Decoder, t: Request)
    requires ClientInv(c) && a.header.nonce < LIMIT && Ready(c, a, d)
    ensures var c' := HandleAudio(c, a, ctime, d);
      && (t in c.tasks ==> t in c'.tasks)
      && (t in c'.tasks ==> t in c.tasks || (t.nonce > c.last && t.retriesLeft == Retries(c'.bufferms)))
  {
    hide SetUp, NoteGap, PutChunk, Retries;
    var seqno := a.header.nonce;
    ListWithout(c, seqno);
    SetUpKeepsInv(c.(missing := RemoveRequest(c.missing, seqno)), a, d);
    var c1 := SetUp(c.(missing := RemoveRequest(c.missing, seqno)), a, d);
    if OnTime(a, ctime) {
      if IsGap(c1, seqno) { GapTasksAhead(c1, seqno, t); } else { NoGapNoted(c1, seqno); }
    }
  }

  lemma GapTasksAhead(c: Client, seqno: u32, t: Request)
    requires ClientInv(c) && c.capacity > 0 && seqno < LIMIT && IsGap(c, seqno)
    ensures var g := NoteGap(c, seqno);
      && g.bufferms == c.bufferms
      && (t in c.tasks ==> t in g.tasks)
      && (t in g.tasks ==> t in c.tasks || (t.nonce > c.last && t.retriesLeft == Retries(c.bufferms)))
  {
    hide NoteGap, RequestGap, GapStart, Limit, Range, Retries;
    NoteGapExactly(c, seqno);
    RequestsAhead(c.last + 1, seqno, Retries(c.bufferms), t);
  }

  lemma {:induction false} RequestsAhead(i: nat, j: nat, retries: nat, t: Request)
    ensures t in RequestsFor(i, j, retries) ==> t.nonce >= i && t.retriesLeft == retries
    decreases j - i
  {
    if i < j { RequestsAhead(i + 1, j, retries, t); }
  }

  /** What holds of n once it is behind the newest number and asked requests have been sent for it. */
  ghost predicate Sustained(s: State, n: nat, m: int, asked: nat) {
    && n <= s.client.last
    && AllHave(s.client.tasks, n, m - asked)
    && (Label(s.ledger, n) == Some(GivenUp) ==> asked >= m)
  }

  lemma DeliverySustains(cfg: Config, s: State, e: Event, n: nat, m: int, asked: nat)
    requires Inv(cfg, s) && Sustained(s, n, m, asked) && e.DeliverAudio? && Enabled(cfg, s, e)
    ensures Sustained(Next(cfg, s, e), n, m, asked)
  {
    hide Inv, Next, Tells, Label;
    StepSettles(cfg, s, e, n);
    StepEnters(cfg, s, e, n);
    NoArrivalGivesUp(cfg, s, e, n);
    forall t | t in Next(cfg, s, e).client.tasks && t.nonce == n ensures t.retriesLeft >= m - asked {
      DeliveryTasks(cfg, s, e, t);
    }
  }

  lemma DeliveryTasks(cfg: Config, s: State, e: Event, t: Request)
    requires Inv(cfg, s) && e.DeliverAudio? && Enabled(cfg, s, e)
    ensures var c, c' := s.client, Next(cfg, s, e).client;
      && (t in c.tasks ==> t in c'.tasks)
      && (t in c'.tasks ==> t in c.tasks || (t.nonce > c.last && t.retriesLeft == Retries(c'.bufferms)))
  {
    hide Inv, HandleAudio, AccountAudio, Retries;
    ClientOf(cfg, s);
    var a := DeliveredIsGenuine(cfg, s, e.packet);
    if !RecentlySeen(s.client.recent, a.header) {
      ArrivalTasks(s.client.(recent := Remember(s.client.recent, a.header)), a, e.ctime, cfg.decoder, t);
    }
  }

  lemma FiringSustains(cfg: Config, s: State, e: Event, n: nat, m: int, asked: nat)
    requires Inv(cfg, s) && Sustained(s, n, m, asked) && e.FireTask? && Enabled(cfg, s, e)
    ensures Sustained(Next(cfg, s, e), n, m, asked + if Spends(cfg, s, e, n, 0) then 1 else 0)
  {
    hide Inv, Label, AccountFiring;
    FiringEnters(s.ledger, s.client, e.i, n);
    OnlyGivesUp(s.client, e.i, n);
    assert s.client.tasks[e.i] in s.client.tasks;
  }

  lemma StepSustains(cfg: Config, s: State, e: Event, n: nat, m: int, asked: nat)
    requires Inv(cfg, s) && Sustained(s, n, m, asked) && !Resets(s, e)
    ensures Sustained(Next(cfg, s, e), n, m, asked + if Spends(cfg, s, e, n, 0) then 1 else 0)
  {
    hide Inv, Delivered, Expire, RequestsFrom, FireRequest, AccountFiring, Sustained;
    if e.DeliverAudio? && Enabled(cfg, s, e) {
      DeliverySustains(cfg, s, e, n, m, asked);
    } else if e.FireTask? && Enabled(cfg, s, e) {
      FiringSustains(cfg, s, e, n, m, asked);
    } else {
      SameSustained(s, Next(cfg, s, e), n, m, asked);
    }
  }

  lemma SameSustained(s: State, s': State, n: nat, m: int, asked: nat)
    requires Sustained(s, n, m, asked)
    requires s'.client.tasks == s.client.tasks && s'.client.last == s.client.last && s'.ledger == s.ledger
    ensures Sustained(s', n, m, asked)
  {
  }

  lemma {:induction false} RunSustains(cfg: Config, es: seq<Event>, j: nat, k: nat, n: nat, m: int)
    requires j <= k <= |es| && Undisturbed(cfg, es, j, k)
    requires n in After(cfg, es, j).client.missing && AllHave(After(cfg, es, j).client.tasks, n, m)
    ensures Sustained(After(cfg, es, k), n, m, Asks(cfg, es, j, k, n))
    decreases k
  {
    hide Next, Spends, Inv, Resets, AllHave, Sustained;
    if j < k {
      RunSustains(cfg, es, j, k - 1, n, m);
      InvHolds(cfg, es, k - 1);
      StepSustains(cfg, After(cfg, es, k - 1), es[k - 1], n, m, Asks(cfg, es, j, k - 1, n));
    } else {
      InvHolds(cfg, es, j);
      MissingIsSustained(cfg, After(cfg, es, j), n, m);
    }
  }

  lemma MissingIsSustained(cfg: Config, s: State, n: nat, m: int)
    requires Inv(cfg, s) && n in s.client.missing && AllHave(s.client.tasks, n, m)
    ensures Sustained(s, n, m, 0)
  {
  }

  // ----- A task with fewer retries left can use them up and give up

  function Fire(i: nat): Event {
    FireTask(i, 0, 0)
  }

  /** A task with retries left asks, and waits again behind all others with one less. */
  lemma FiringAsks(cfg: Config, s: State, i: nat, n: nat)
    requires i < |s.client.tasks| && s.client.tasks[i].nonce == n < LIMIT && n in s.client.missing
    requires s.client.tasks[i].retriesLeft > 0
    ensures var s', tasks := Next(cfg, s, Fire(i)), s.client.tasks;
      && Spends(cfg, s, Fire(i), n, 0) && n in s'.client.missing
      && |s'.client.tasks| == |tasks|
      && s'.client.tasks[|tasks| - 1] == Request(n, tasks[i].retriesLeft - 1)
  {
    hide AssembleRequest;
  }

  /** A task without retries left gives up. */
  lemma FiringGivesUp(cfg: Config, s: State, i: nat, n: nat)
    requires i < |s.client.tasks| && s.client.tasks[i].nonce == n < LIMIT && n in s.client.missing
    requires s.client.tasks[i].retriesLeft == 0
    ensures !Spends(cfg, s, Fire(i), n, 0) && Label(Next(cfg, s, Fire(i)).ledger, n) == Some(GivenUp)
  {
    hide AssembleRequest;
  }

  ghost predicate OnlyFirings(es: seq<Event>) {
    forall e :: e in es ==> e.FireTask?
  }

  lemma FiringsDisturbNothing(cfg: Config, es: seq<Event>, more: seq<Event>)
    requires OnlyFirings(more)
    ensures Undisturbed(cfg, es + more, |es|, |es + more|)
  {
    forall i | |es| <= i < |es + more| ensures !Resets(After(cfg, es + more, i), (es + more)[i]) {
      assert (es + more)[i] in more;
    }
  }

  /** From any reachable state in which n is missing, a pending task for n can use up its retries and give
      n up, with no other event in between. */
  lemma {:induction false} UsesUpRetries(cfg: Config, es: seq<Event>, i: nat, n: nat) returns (more: seq<Event>)
    requires i < |End(cfg, es).client.tasks| && End(cfg, es).client.tasks[i].nonce == n
    requires n in End(cfg, es).client.missing
    ensures OnlyFirings(more)
    ensures Label(End(cfg, es + more).ledger, n) == Some(GivenUp)
    ensures Asked(cfg, es + more, n) == Asked(cfg, es, n) + End(cfg, es).client.tasks[i].retriesLeft
    decreases End(cfg, es).client.tasks[i].retriesLeft
  {
    hide Next, Spends, Asked, Label, Inv;
    var s := End(cfg, es);
    Rescue.ClientHolds(cfg, es, |es|);
    Rescue.TaskBelowLimit(s.client, i);
    Append(cfg, es, Fire(i), n);
    if s.client.tasks[i].retriesLeft == 0 {
      FiringGivesUp(cfg, s, i, n);
      more := [Fire(i)];
    } else {
      FiringAsks(cfg, s, i, n);
      var rest := UsesUpRetries(cfg, es + [Fire(i)], |s.client.tasks| - 1, n);
      more := [Fire(i)] + rest;
      assert es + more == es + [Fire(i)] + rest;
    }
  }

  // ----- Exactly

  /** However the run goes on without an obeyed stop, if n ends up given up, it has been asked for m times
      from now on, or more. */
  ghost predicate AskedBeforeGivenUp(cfg: Config, es: seq<Event>, n: nat, m: nat) {
    forall more: seq<Event> ::
      Undisturbed(cfg, es + more, |es|, |es + more|)
      && Label(After(cfg, es + more, |es + more|).ledger, n) == Some(GivenUp)
      ==> Asks(cfg, es + more, |es|, |es + more|, n) >= m
  }

  lemma SameAfter(cfg: Config, es: seq<Event>, more: seq<Event>, n: nat)
    ensures After(cfg, es + more, |es|) == End(cfg, es)
    ensures Asks(cfg, es + more, |es|, |es + more|, n) == Asked(cfg, es + more, n) - Asked(cfg, es, n)
  {
    hide Next, Spends;
    Prefix(cfg, es, more, |es|, n);
    SplitAsks(cfg, es + more, |es|, |es + more|, n);
  }

  /** In every reachable state in which n is missing: n will be given up only after m more requests,
      whatever happens short of a stop, if and only if every task pending for n has m retries left. */
  lemma GivenUpAfterExactly(cfg: Config, es: seq<Event>, n: nat, m: nat)
    requires n in End(cfg, es).client.missing
    ensures AskedBeforeGivenUp(cfg, es, n, m) <==> AllHave(End(cfg, es).client.tasks, n, m)
  {
    hide Next, Asks, Asked, Label, Inv, Undisturbed;
    var tasks := End(cfg, es).client.tasks;
    if AllHave(tasks, n, m) {
      forall more: seq<Event> | Undisturbed(cfg, es + more, |es|, |es + more|)
          && Label(After(cfg, es + more, |es + more|).ledger, n) == Some(GivenUp)
        ensures Asks(cfg, es + more, |es|, |es + more|, n) >= m
      {
        SameAfter(cfg, es, more, n);
        RunSustains(cfg, es + more, |es|, |es + more|, n, m);
      }
    } else {
      var t :| t in tasks && t.nonce == n && t.retriesLeft < m;
      var i :| 0 <= i < |tasks| && tasks[i] == t;
      var more := UsesUpRetries(cfg, es, i, n);
      FiringsDisturbNothing(cfg, es, more);
      SameAfter(cfg, es, more, n);
      assert Asks(cfg, es + more, |es|, |es + more|, n) == t.retriesLeft;
    }
  }

  /** In particular, a number that an arrival reveals as lost will be given up only after all its retries,
      if and only if no task is pending for it, from before a stop, that has fewer left. */
  lemma FreshLossExactly(cfg: Config, es: seq<Event>, e: Event, n: nat)
    requires n > End(cfg, es).client.last && n in End(cfg, es + [e]).client.missing
    ensures AskedBeforeGivenUp(cfg, es + [e], n, Retries(cfg.bufferms))
       <==> AllHave(End(cfg, es).client.tasks, n, Retries(cfg.bufferms))
  {
    hide Next, Asks, Asked, Inv, AskedBeforeGivenUp, Enabled, Retries, SameBuffertime;
    var s := End(cfg, es);
    GivenUpAfterExactly(cfg, es + [e], n, Retries(cfg.bufferms));
    Append(cfg, es, e, n);
    InvHolds(cfg, es, |es|);
    MissingBelow(cfg, s, n);
    BuffertimeHolds(cfg, es + [e], |es| + 1);
    NewLossIsDelivered(cfg, s, e, n);
    ClientBuffertime(cfg, es + [e]);
    forall t ensures var c, c' := s.client, Next(cfg, s, e).client;
      && (t in c.tasks ==> t in c'.tasks)
      && (t in c'.tasks ==> t in c.tasks || (t.nonce > c.last && t.retriesLeft == Retries(c'.bufferms)))
    {
      DeliveryTasks(cfg, s, e, t);
    }
  }

  lemma NewLossIsDelivered(cfg: Config, s: State, e: Event, n: nat)
    requires Inv(cfg, s) && n !in s.client.missing && n in Next(cfg, s, e).client.missing
    ensures e.DeliverAudio? && Enabled(cfg, s, e)
  {
    hide Delivered, Expire, RequestsFrom, AccountFiring;
    if e.FireTask? && Enabled(cfg, s, e) { RemoveRequestExactly(s.client.missing, s.client.tasks[e.i].nonce); }
  }

  lemma ClientBuffertime(cfg: Config, es: seq<Event>)
    requires End(cfg, es).client.missing != []
    ensures End(cfg, es).client.bufferms == cfg.bufferms
  {
    hide Next;
    InvHolds(cfg, es, |es|);
    BuffertimeHolds(cfg, es, |es|);
  }
}
