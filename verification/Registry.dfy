/** The server's register of clients and the tasks that purge the silent ones (src/clientmgr.c,
    src/stream.c, src/socket.c). */
module Registry {
  import opened Time
  import opened Chunk
  import opened Wire

  /** A client's record holds the handle of its purge task. */
  datatype Record = Record(id: u16, port: u16, task: nat)

  /** A purge task knows the client by its number only. */
  datatype Purge = Purge(id: u16, due: Timespec)

  type Streams = seq<seq<Record>>

  /** The clients of each stream, the tasks in the queue by handle, the task that is being run, and the
      handles used so far. */
  datatype Registry = Registry(streams: Streams, tasks: map<nat, Purge>, running: Option<nat>, handles: nat,
                               initialized: bool)

  const PURGE_AFTER_MS := 5000

  // ----- Looking up

  function Search(v: seq<Record>, id: u16): (i: nat)
    ensures i <= |v| && (i < |v| ==> v[i].id == id) && forall j {:trigger v[j]} :: 0 <= j < i ==> v[j].id != id
  {
    if v == [] || v[0].id == id then 0 else 1 + Search(v[1..], id)
  }

  /** The first stream with such a client. */
  function Find(streams: Streams, id: u16): (s: nat)
    ensures s <= |streams| && (s < |streams| ==> Search(streams[s], id) < |streams[s]|)
    ensures forall t {:trigger streams[t]} :: 0 <= t < s ==> Search(streams[t], id) == |streams[t]|
  {
    if streams == [] || Search(streams[0], id) < |streams[0]| then 0 else 1 + Find(streams[1..], id)
  }

  /** The stream and the record of a client. */
  datatype Place = Place(stream: nat, client: Record)

  function Lookup(streams: Streams, id: u16): (e: Option<Place>)
    ensures e.Some? ==> e.value.stream < |streams| && e.value.client.id == id
  {
    var s := Find(streams, id);
    if s < |streams| then Some(Place(s, streams[s][Search(streams[s], id)])) else None
  }

  // ----- Operations

  function Without(streams: Streams, s: nat, i: nat): Streams
    requires s < |streams| && i < |streams[s]|
  {
    streams[s := streams[s][..i] + streams[s][i + 1..]]
  }

  function With(streams: Streams, s: nat, c: Record): Streams
    requires s < |streams|
  {
    streams[s := streams[s] + [c]]
  }

  /** A task that is running is left alone: the queue frees it when it returns. */
  function DropTask(r: Registry, task: nat): Registry {
    if r.running == Some(task) then r else r.(tasks := r.tasks - {task})
  }

  function Delete(r: Registry, id: u16): Registry {
    if Lookup(r.streams, id).Some? then
      var s := Find(r.streams, id);
      var i := Search(r.streams[s], id);
      DropTask(r, r.streams[s][i].task).(streams := Without(r.streams, s, i))
    else r
  }

  /** A new client goes to the first stream, which is set up for its first client. */
  function NewClient(r: Registry, id: u16, port: u16, now: Timespec): Registry
    requires r.streams != [] && Normal(now)
  {
    var streams := if r.initialized then r.streams else r.streams[0 := []];
    r.(streams := With(streams, 0, Record(id, port, r.handles)),
       tasks := r.tasks[r.handles := Purge(id, AddMs(now, PURGE_AFTER_MS))],
       handles := r.handles + 1, initialized := true)
  }

  function Reschedule(r: Registry, task: nat, now: Timespec): Registry
    requires Normal(now)
  {
    if task in r.tasks then r.(tasks := r.tasks[task := r.tasks[task].(due := AddMs(now, PURGE_AFTER_MS))]) else r
  }

  /** A hello: a known client on its old port is refreshed, any other replaces what was known by its
      number. */
  function Hello(r: Registry, id: u16, port: u16, now: Timespec): Registry
    requires r.streams != [] && Normal(now)
  {
    var known := Lookup(r.streams, id);
    if known.Some? && known.value.client.port == port then Reschedule(r, known.value.client.task, now)
    else NewClient(Delete(r, id), id, port, now)
  }

  /** The queue takes the task out, runs it, and frees it. */
  function Fire(r: Registry, task: nat): Registry
    requires task in r.tasks
  {
    Delete(r.(tasks := r.tasks - {task}, running := Some(task)), r.tasks[task].id).(running := None)
  }

  /** The record is copied to the new stream, then taken out of the old one. */
  function Move(r: Registry, id: u16, target: nat): Registry {
    var s := Find(r.streams, id);
    if s < |r.streams| && target < |r.streams| && s != target then
      var i := Search(r.streams[s], id);
      r.(streams := Without(With(r.streams, target, r.streams[s][i]), s, i))
    else r
  }

  // ----- The records

  predicate At(streams: Streams, s: nat, i: nat) {
    s < |streams| && i < |streams[s]|
  }

  /** No two records have the same number, over all streams. */
  ghost predicate Unique(streams: Streams) {
    forall s: nat, i: nat, t: nat, j: nat :: At(streams, s, i) && At(streams, t, j) ==>
      (streams[s][i].id == streams[t][j].id ==> s == t && i == j)
  }

  lemma LookupAt(streams: Streams, s: nat, i: nat)
    requires Unique(streams) && At(streams, s, i)
    ensures var id := streams[s][i].id;
      Lookup(streams, id) == Some(Place(s, streams[s][i])) && Find(streams, id) == s && Search(streams[s], id) == i
  {
    var id := streams[s][i].id;
    var t := Find(streams, id);
    assert Search(streams[s], id) < |streams[s]|;
    assert At(streams, t, Search(streams[t], id));
  }

  lemma LookupIsAt(streams: Streams, id: u16) returns (s: nat, i: nat)
    requires Lookup(streams, id).Some?
    ensures At(streams, s, i) && streams[s][i].id == id
    ensures Lookup(streams, id) == Some(Place(s, streams[s][i]))
  {
    s := Find(streams, id);
    i := Search(streams[s], id);
  }

  lemma SameLookup(a: Streams, b: Streams, s: nat, i: nat, j: nat)
    requires Unique(a) && Unique(b) && At(a, s, i) && At(b, s, j) && a[s][i] == b[s][j]
    ensures Lookup(a, a[s][i].id) == Lookup(b, a[s][i].id)
  {
    LookupAt(a, s, i);
    LookupAt(b, s, j);
  }

  /** Once it is taken out of its stream, a client is unknown; nothing else changes. */
  lemma WithoutLookup(streams: Streams, s: nat, i: nat)
    requires Unique(streams) && At(streams, s, i)
    ensures var out := Without(streams, s, i);
      Unique(out) && forall x :: Lookup(out, x) == if x == streams[s][i].id then None else Lookup(streams, x)
  {
    hide Lookup;
    var out := Without(streams, s, i);
    forall t: nat, j: nat | At(out, t, j)
      ensures At(streams, t, Before(s, i, t, j)) && out[t][j] == streams[t][Before(s, i, t, j)] {}
    forall x ensures Lookup(out, x) == if x == streams[s][i].id then None else Lookup(streams, x) {
      WithoutOne(streams, s, i, x);
    }
  }

  /** Where a record was before the one at (s, i) was taken out. */
  function Before(s: nat, i: nat, t: nat, j: nat): nat {
    if t == s && j >= i then j + 1 else j
  }

  lemma WithoutOne(streams: Streams, s: nat, i: nat, x: u16)
    requires Unique(streams) && At(streams, s, i) && Unique(Without(streams, s, i))
    ensures Lookup(Without(streams, s, i), x) == if x == streams[s][i].id then None else Lookup(streams, x)
  {
    hide Lookup, Find, Search;
    var out := Without(streams, s, i);
    if Lookup(out, x).Some? {
      var t, j := LookupIsAt(out, x);
      SameLookup(out, streams, t, j, Before(s, i, t, j));
      assert !(t == s && Before(s, i, t, j) == i);
    } else if Lookup(streams, x).Some? && x != streams[s][i].id {
      var t, j := LookupIsAt(streams, x);
      SameLookup(streams, out, t, j, if t == s && j > i then j - 1 else j);
    }
  }

  /** Once it is added to a stream, an unknown client is known there; nothing else changes. */
  lemma WithLookup(streams: Streams, s: nat, c: Record)
    requires Unique(streams) && s < |streams| && Lookup(streams, c.id).None?
    ensures var out := With(streams, s, c);
      Unique(out) && forall x :: Lookup(out, x) == if x == c.id then Some(Place(s, c)) else Lookup(streams, x)
  {
    hide Lookup, Find, Search;
    var out := With(streams, s, c);
    forall t: nat, j: nat | At(streams, t, j) ensures streams[t][j].id != c.id { LookupAt(streams, t, j); }
    forall t: nat, j: nat | At(out, t, j)
      ensures (t == s && j == |streams[s]| && out[t][j] == c) || (At(streams, t, j) && out[t][j] == streams[t][j]) {}
    forall x ensures Lookup(out, x) == if x == c.id then Some(Place(s, c)) else Lookup(streams, x) {
      WithOne(streams, s, c, x);
    }
  }

  lemma WithOne(streams: Streams, s: nat, c: Record, x: u16)
    requires Unique(streams) && s < |streams| && Unique(With(streams, s, c))
    ensures Lookup(With(streams, s, c), x) == if x == c.id then Some(Place(s, c)) else Lookup(streams, x)
  {
    hide Lookup, Find, Search;
    var out := With(streams, s, c);
    LookupAt(out, s, |streams[s]|);
    if Lookup(streams, x).Some? {
      var t, j := LookupIsAt(streams, x);
      SameLookup(streams, out, t, j, j);
      assert !(t == s && j == |streams[s]|);
    } else if Lookup(out, x).Some? && x != c.id {
      var t, j := LookupIsAt(out, x);
      SameLookup(out, streams, t, j, j);
    }
  }

  /** Adding to one stream and taking out of another can be done in either order. */
  lemma WithWithout(streams: Streams, s: nat, i: nat, target: nat, c: Record)
    requires At(streams, s, i) && target < |streams| && target != s
    ensures Without(With(streams, target, c), s, i) == With(Without(streams, s, i), target, c)
  {
  }

  // ----- The invariant

  ghost predicate HasTask(r: Registry, task: nat) {
    task in r.tasks || r.running == Some(task)
  }

  /** The task of this client knows it; the running one was posted for client id. */
  ghost predicate KnowsClient(r: Registry, c: Record, id: u16) {
    && HasTask(r, c.task)
    && (c.task in r.tasks ==> r.tasks[c.task].id == c.id)
    && (r.running == Some(c.task) ==> c.id == id)
  }

  ghost predicate KnowsTask(r: Registry, task: nat)
    requires task in r.tasks
  {
    var p := Lookup(r.streams, r.tasks[task].id);
    p.Some? && p.value.client.task == task
  }

  /** Every client has at most one record over all streams, and clients and purge tasks match one to one
      by number.  A task that is running is no longer in the queue; id is the client it was posted
      for. */
  ghost predicate InvRunning(r: Registry, id: u16) {
    && r.streams != [] && Unique(r.streams)
    && (forall x {:trigger Lookup(r.streams, x)} :: Lookup(r.streams, x).Some? ==>
          KnowsClient(r, Lookup(r.streams, x).value.client, id))
    && (forall task :: task in r.tasks ==> KnowsTask(r, task))
    && (forall task: nat :: HasTask(r, task) ==> task < r.handles)
    && (r.running.Some? ==> r.running.value !in r.tasks)
    && (!r.initialized ==> forall x :: Lookup(r.streams, x).None?)
  }

  ghost predicate Inv(r: Registry) {
    r.running.None? && InvRunning(r, 0)
  }

  // ----- What the operations keep and do

  lemma Removal(r: Registry, id: u16)
    requires Unique(r.streams) && Lookup(r.streams, id).Some?
    ensures var r' := Delete(r, id);
      && r' == DropTask(r, Lookup(r.streams, id).value.client.task).(streams := r'.streams)
      && Unique(r'.streams) && |r'.streams| == |r.streams|
      && forall x :: Lookup(r'.streams, x) == if x == id then None else Lookup(r.streams, x)
  {
    var s := Find(r.streams, id);
    WithoutLookup(r.streams, s, Search(r.streams[s], id));
  }

  /** Deleting takes out the record and, unless that is running, the task, of this client only. */
  lemma DeleteKeeps(r: Registry, id: u16)
    requires InvRunning(r, id)
    ensures var r' := Delete(r, id);
      && InvRunning(r', id) && Lookup(r'.streams, id).None? && |r'.streams| == |r.streams|
      && (forall x :: x != id ==> Lookup(r'.streams, x) == Lookup(r.streams, x))
      && r' == r.(streams := r'.streams, tasks := r'.tasks)
      && (forall task :: task in r'.tasks <==> task in r.tasks && r.tasks[task].id != id)
      && (forall task :: task in r'.tasks ==> r'.tasks[task] == r.tasks[task])
  {
    hide Lookup, Search, Find, Unique;
    if Lookup(r.streams, id).Some? {
      Removal(r, id);
      var c, r' := Lookup(r.streams, id).value.client, Delete(r, id);
      assert KnowsClient(r, c, id);
      forall x | Lookup(r'.streams, x).Some? ensures KnowsClient(r', Lookup(r'.streams, x).value.client, id) {
        assert KnowsClient(r, Lookup(r.streams, x).value.client, id);
      }
      forall task | task in r'.tasks ensures KnowsTask(r', task) { assert KnowsTask(r, task); }
      forall task: nat | HasTask(r', task) ensures task < r'.handles { assert HasTask(r, task); }
    } else {
      forall task | task in r.tasks ensures r.tasks[task].id != id { assert KnowsTask(r, task); }
    }
  }

  lemma NewClientKeeps(r: Registry, id: u16, port: u16, now: Timespec)
    requires Inv(r) && Lookup(r.streams, id).None? && Normal(now)
    ensures var r' := NewClient(r, id, port, now);
      && Inv(r') && |r'.streams| == |r.streams|
      && Lookup(r'.streams, id) == Some(Place(0, Record(id, port, r.handles)))
      && (forall x :: x != id ==> Lookup(r'.streams, x) == Lookup(r.streams, x))
      && r'.tasks == r.tasks[r.handles := Purge(id, AddMs(now, PURGE_AFTER_MS))]
  {
    hide Lookup, Search, Find, Unique;
    if !r.initialized { NoneIsEmpty(r.streams); }
    var streams := if r.initialized then r.streams else r.streams[0 := []];
    assert streams == r.streams;
    WithLookup(streams, 0, Record(id, port, r.handles));
    assert !HasTask(r, r.handles);
  }

  lemma NoneIsEmpty(streams: Streams)
    requires streams != [] && Unique(streams) && forall x :: Lookup(streams, x).None?
    ensures streams[0 := []] == streams
  {
    if streams[0] != [] { LookupAt(streams, 0, 0); }
  }

  /** A hello leaves the client registered, on its old stream or else on the first, with a purge task
      due the full time from now, and touches no other client. */
  lemma HelloKeeps(r: Registry, id: u16, port: u16, now: Timespec)
    requires Inv(r) && Normal(now)
    ensures var r' := Hello(r, id, port, now);
      && Inv(r') && |r'.streams| == |r.streams|
      && Lookup(r'.streams, id).Some?
      && var p, p' := Lookup(r.streams, id), Lookup(r'.streams, id).value;
      && p'.client.port == port && p'.client.task in r'.tasks
      && r'.tasks[p'.client.task] == Purge(id, AddMs(now, PURGE_AFTER_MS))
      && (if p.Some? && p.value.client.port == port then p' == p.value
          else p'.stream == 0 && p'.client.task !in r.tasks)
      && (forall x :: x != id ==> Lookup(r'.streams, x) == Lookup(r.streams, x))
      && (forall x :: x != id && Lookup(r.streams, x).Some? ==>
            var task := Lookup(r.streams, x).value.client.task; task in r'.tasks && r'.tasks[task] == r.tasks[task])
  {
    hide Lookup, Search, Find, Unique, Delete, NewClient;
    var p := Lookup(r.streams, id);
    if p.Some? && p.value.client.port == port {
      assert KnowsClient(r, p.value.client, 0);
      forall x | x != id && Lookup(r.streams, x).Some?
        ensures Lookup(r.streams, x).value.client.task != p.value.client.task {
        assert KnowsClient(r, Lookup(r.streams, x).value.client, 0);
      }
    } else {
      DeleteKeeps(r, id);
      assert Inv(Delete(r, id));
      NewClientKeeps(Delete(r, id), id, port, now);
      assert !HasTask(r, r.handles);
    }
  }

  /** A purge task that fires removes the client it was posted for and itself, and nothing else: that it
      tries to drop itself while running has no effect. */
  lemma FireKeeps(r: Registry, task: nat)
    requires Inv(r) && task in r.tasks
    ensures var r' := Fire(r, task);
      && Inv(r') && |r'.streams| == |r.streams|
      && Lookup(r.streams, r.tasks[task].id).Some? && Lookup(r'.streams, r.tasks[task].id).None?
      && (forall x :: x != r.tasks[task].id ==> Lookup(r'.streams, x) == Lookup(r.streams, x))
      && r'.tasks == r.tasks - {task}
  {
    hide Lookup, Search, Find, Unique, Delete;
    var id := r.tasks[task].id;
    var r1 := r.(tasks := r.tasks - {task}, running := Some(task));
    assert KnowsTask(r, task);
    assert InvRunning(r1, id);
    DeleteKeeps(r1, id);
    var r2 := Delete(r1, id);
    forall other | other in r1.tasks ensures r1.tasks[other].id != id { assert KnowsTask(r, other); }
    forall x | Lookup(r2.streams, x).Some?
      ensures KnowsClient(r2.(running := None), Lookup(r2.streams, x).value.client, 0) {
      assert KnowsClient(r2, Lookup(r2.streams, x).value.client, id);
    }
  }

  /** Moving a client changes its stream and nothing else. */
  lemma MoveKeeps(r: Registry, id: u16, target: nat)
    requires Inv(r)
    ensures var r' := Move(r, id, target); var p := Lookup(r.streams, id);
      && Inv(r') && |r'.streams| == |r.streams| && r'.tasks == r.tasks
      && Lookup(r'.streams, id) == (if p.Some? && target < |r.streams| then Some(p.value.(stream := target)) else p)
      && forall x :: x != id ==> Lookup(r'.streams, x) == Lookup(r.streams, x)
  {
    hide Search, Find, Unique, Lookup;
    var p := Lookup(r.streams, id);
    if Moves(r, id, target) {
      MoveLookup(r, id, target);
      assert KnowsClient(r, p.value.client, 0);
    } else {
      Stays(r, id, target);
    }
  }

  predicate Moves(r: Registry, id: u16, target: nat) {
    var s := Find(r.streams, id);
    s < |r.streams| && target < |r.streams| && s != target
  }

  lemma Stays(r: Registry, id: u16, target: nat)
    requires !Moves(r, id, target)
    ensures Move(r, id, target) == r
    ensures Lookup(r.streams, id).Some? && target < |r.streams| ==> Lookup(r.streams, id).value.stream == target
  {
  }

  lemma MoveLookup(r: Registry, id: u16, target: nat)
    requires Unique(r.streams) && Moves(r, id, target)
    ensures var out := Move(r, id, target).streams;
      && Lookup(r.streams, id).Some? && Move(r, id, target) == r.(streams := out)
      && Unique(out) && |out| == |r.streams|
      && forall x :: Lookup(out, x) ==
          if x == id then Some(Lookup(r.streams, id).value.(stream := target)) else Lookup(r.streams, x)
  {
    var s := Find(r.streams, id);
    var i := Search(r.streams[s], id);
    var c := r.streams[s][i];
    hide Lookup;
    WithoutLookup(r.streams, s, i);
    WithLookup(Without(r.streams, s, i), target, c);
    WithWithout(r.streams, s, i, target, c);
  }

  // ----- Runs

  datatype Event =
    | HelloFrom(id: u16, port: u16, now: Timespec)
    | PurgeDue(task: nat, now: Timespec)
    | MoveTo(id: u16, target: nat)

  /** A task runs only when it is due. */
  predicate Enabled(r: Registry, e: Event) {
    match e
    case HelloFrom(_, _, now) => r.streams != [] && Normal(now)
    case PurgeDue(task, now) => Normal(now) && task in r.tasks && Cmp(r.tasks[task].due, now) <= 0
    case MoveTo(_, _) => true
  }

  function Next(r: Registry, e: Event): Registry {
    if !Enabled(r, e) then r
    else
      match e
      case HelloFrom(id, port, now) => Hello(r, id, port, now)
      case PurgeDue(task, _) => Fire(r, task)
      case MoveTo(id, target) => Move(r, id, target)
  }

  function Empty(n: nat): Streams {
    seq(n, _ => [])
  }

  /** A server with n streams after the first k events. */
  function After(n: nat, es: seq<Event>, k: nat): Registry
    requires k <= |es|
  {
    if k == 0 then Registry(Empty(n), map[], None, 0, false) else Next(After(n, es, k - 1), es[k - 1])
  }

  /** When the client was heard last, read off the events. */
  function LastHello(es: seq<Event>, k: nat, id: u16): (t: Option<Timespec>)
    requires k <= |es|
    ensures t.Some? ==> Normal(t.value)
  {
    if k == 0 then None
    else if es[k - 1].HelloFrom? && es[k - 1].id == id && Normal(es[k - 1].now) then Some(es[k - 1].now)
    else LastHello(es, k - 1, id)
  }

  ghost predicate OnTime(r: Registry, x: u16, heard: Option<Timespec>) {
    Lookup(r.streams, x).Some? ==>
      var task := Lookup(r.streams, x).value.client.task;
      heard.Some? && task in r.tasks && Normal(heard.value)
              && r.tasks[task] == Purge(x, AddMs(heard.value, PURGE_AFTER_MS))
  }

  lemma StartInv(n: nat, x: u16)
    ensures Lookup(Empty(n), x).None? && Unique(Empty(n))
  {
  }

  lemma StepKeepsOnTime(r: Registry, e: Event, x: u16, heard: Option<Timespec>)
    requires Inv(r) && OnTime(r, x, heard)
    ensures Inv(Next(r, e)) && |Next(r, e).streams| == |r.streams|
    ensures OnTime(Next(r, e), x, if e.HelloFrom? && e.id == x && Normal(e.now) then Some(e.now) else heard)
  {
    hide Lookup, Inv, Unique, Hello, Fire, Move;
    Registered(r);
    if Enabled(r, e) {
      match e
      case HelloFrom(id, port, now) => HelloKeeps(r, id, port, now);
      case PurgeDue(task, now) =>
        FireKeeps(r, task);
      case MoveTo(id, target) => MoveKeeps(r, id, target);
    }
  }

  lemma Registered(r: Registry)
    requires Inv(r)
    ensures r.streams != []
    ensures forall task {:trigger task in r.tasks} :: task in r.tasks ==> KnowsTask(r, task)
  {
  }

  /** In every run: at most one record for each client over all streams, clients and pending purge tasks
      one to one, and every client's task due the full time after its last hello. */
  lemma {:induction false} RegistryHolds(n: nat, es: seq<Event>, k: nat, x: u16)
    requires n > 0 && k <= |es|
    ensures Inv(After(n, es, k)) && |After(n, es, k).streams| == n && OnTime(After(n, es, k), x, LastHello(es, k, x))
  {
    hide Next, Lookup, Unique, OnTime;
    if k > 0 {
      RegistryHolds(n, es, k - 1, x);
      StepKeepsOnTime(After(n, es, k - 1), es[k - 1], x, LastHello(es, k - 1, x));
    } else {
      forall y ensures Lookup(Empty(n), y).None? { StartInv(n, y); }
      StartInv(n, x);
      NobodyIsOnTime(After(n, es, 0), x);
    }
  }

  lemma NobodyIsOnTime(r: Registry, x: u16)
    requires Lookup(r.streams, x).None?
    ensures OnTime(r, x, None)
  {
  }

  /** Nobody is purged early: whenever a purge task runs, its client is registered and has not been heard
      for the full time; it is removed and all others stay as they are. */
  lemma NobodyIsPurgedEarly(n: nat, es: seq<Event>, k: nat)
    requires n > 0 && k < |es| && es[k].PurgeDue? && Enabled(After(n, es, k), es[k])
    ensures var r, r' := After(n, es, k), After(n, es, k + 1);
      var id := r.tasks[es[k].task].id;
      && LastHello(es, k, id).Some?
      && Ns(es[k].now) >= Ns(LastHello(es, k, id).value) + 5 * BILLION
      && Lookup(r.streams, id).Some? && Lookup(r'.streams, id).None?
      && forall x :: x != id ==> Lookup(r'.streams, x) == Lookup(r.streams, x)
  {
    hide Lookup, Fire, Unique;
    var r := After(n, es, k);
    var p := r.tasks[es[k].task];
    RegistryHolds(n, es, k, p.id);
    assert KnowsTask(r, es[k].task);
    FireKeeps(r, es[k].task);
    CmpIsIntegerOrder(p.due, es[k].now);
  }

  /** And nobody is kept for good: the purge task of a client that has been silent for the full time can
      run. */
  lemma SilentClientsCanBePurged(n: nat, es: seq<Event>, k: nat, id: u16, now: Timespec)
    requires n > 0 && k <= |es| && Normal(now) && Lookup(After(n, es, k).streams, id).Some?
    ensures LastHello(es, k, id).Some?
    ensures Enabled(After(n, es, k), PurgeDue(Lookup(After(n, es, k).streams, id).value.client.task, now))
       <==> Ns(now) >= Ns(LastHello(es, k, id).value) + 5 * BILLION
  {
    RegistryHolds(n, es, k, id);
    CmpIsIntegerOrder(AddMs(LastHello(es, k, id).value, PURGE_AFTER_MS), now);
  }

  // ----- The operations on the server's own vectors and tasks

  class ClientMgr {
    var streams: Streams
    var tasks: map<nat, Purge>
    var running: Option<nat>
    var handles: nat
    var initialized: bool

    constructor (n: nat)
      ensures State() == Registry(Empty(n), map[], None, 0, false)
    {
      streams, tasks, running, handles, initialized := Empty(n), map[], None, 0, false;
    }

    function State(): Registry
      reads this
    {
      Registry(streams, tasks, running, handles, initialized)
    }

    method GetClient(s: nat, id: u16) returns (i: nat)
      requires s < |streams|
      ensures i == Search(streams[s], id)
    {
      i := 0;
      while i < |streams[s]|
        invariant i <= |streams[s]| && forall j {:trigger streams[s][j]} :: 0 <= j < i ==> streams[s][j].id != id
      {
        if streams[s][i].id == id { return; }
        i := i + 1;
      }
    }

    method FindClient(id: u16) returns (s: nat, i: nat)
      ensures s == Find(streams, id)
      ensures s < |streams| ==> i == Search(streams[s], id)
    {
      s, i := 0, 0;
      while s < |streams|
        invariant s <= |streams|
        invariant forall t {:trigger streams[t]} :: 0 <= t < s ==> Search(streams[t], id) == |streams[t]|
      {
        i := GetClient(s, id);
        if i < |streams[s]| { return; }
        s := s + 1;
      }
    }

    method PostTask(id: u16, now: Timespec) returns (task: nat)
      requires Normal(now)
      modifies this`tasks, this`handles
      ensures task == old(handles) && handles == old(handles) + 1
      ensures tasks == old(tasks)[task := Purge(id, AddMs(now, PURGE_AFTER_MS))]
    {
      task := handles;
      tasks, handles := tasks[task := Purge(id, AddMs(now, PURGE_AFTER_MS))], handles + 1;
    }

    /** The queue refuses to take out a task that is not linked. */
    method Drop(task: nat)
      requires HasTask(State(), task)
      modifies this`tasks
      ensures State() == DropTask(old(State()), task)
    {
      if running == Some(task) { return; }
      tasks := tasks - {task};
    }

    method DeleteClient(id: u16)
      requires InvRunning(State(), id)
      modifies this`tasks, this`streams
      ensures State() == Delete(old(State()), id) && InvRunning(State(), id)
    {
      DeleteKeeps(State(), id);
      var s, i := FindClient(id);
      if s < |streams| {
        assert Lookup(streams, id).Some? && KnowsClient(State(), streams[s][i], id);
        Drop(streams[s][i].task);
        streams := streams[s := streams[s][..i] + streams[s][i + 1..]];
      }
    }

    method RefreshClient(id: u16, port: u16, now: Timespec)
      requires Inv(State()) && Normal(now)
      modifies this
      ensures State() == Hello(old(State()), id, port, now) && Inv(State())
    {
      hide Inv, InvRunning;
      InvIsKept(State(), id, port, now, 0);
      var s, i := FindClient(id);
      var known := s < |streams|;
      if !known || port != streams[s][i].port {
        if known {
          DeleteClient(id);
        }
        var task := PostTask(id, now);
        if !initialized {
          streams, initialized := streams[0 := []], true;
        }
        streams := streams[0 := streams[0] + [Record(id, port, task)]];
      } else {
        var task := streams[s][i].task;
        assert Lookup(streams, id).Some?;
        tasks := tasks[task := tasks[task].(due := AddMs(now, PURGE_AFTER_MS))];
      }
    }

    /** The queue runs a task that is due. */
    method ScheduleDeleteClient(task: nat)
      requires Inv(State()) && task in tasks
      modifies this
      ensures State() == Fire(old(State()), task) && Inv(State())
    {
      FireKeeps(State(), task);
      var id := tasks[task].id;
      TakenOut(State(), task);
      tasks, running := tasks - {task}, Some(task);
      DeleteClient(id);
      running := None;
    }

    method SetStream(id: u16, target: nat)
      requires Inv(State()) && target < |streams|
      modifies this`streams
      ensures State() == Move(old(State()), id, target) && Inv(State())
    {
      hide Inv, InvRunning;
      InvIsKept(State(), id, 0, Timespec(0, 0), target);
      var s, i := FindClient(id);
      if s < |streams| && s != target {
        var client := streams[s][i];
        streams := streams[target := streams[target] + [client]];
        streams := streams[s := streams[s][..i] + streams[s][i + 1..]];
      }
    }
  }

  /** With the task out of the queue and running, its client still has it. */
  lemma TakenOut(r: Registry, task: nat)
    requires Inv(r) && task in r.tasks
    ensures InvRunning(r.(tasks := r.tasks - {task}, running := Some(task)), r.tasks[task].id)
  {
    hide Lookup, Unique;
    assert KnowsTask(r, task);
  }

  /** The invariant alone, for the operations above. */
  lemma InvIsKept(r: Registry, id: u16, port: u16, now: Timespec, target: nat)
    requires Inv(r) && Normal(now)
    ensures r.streams != [] && Inv(Hello(r, id, port, now)) && Inv(Move(r, id, target))
    ensures Lookup(r.streams, id).Some? ==> Lookup(r.streams, id).value.client.task in r.tasks
    ensures InvRunning(r, id)
  {
    hide Lookup, Unique, Hello, Move;
    HelloKeeps(r, id, port, now);
    MoveKeeps(r, id, target);
    assert Lookup(r.streams, id).Some? ==> KnowsClient(r, Lookup(r.streams, id).value.client, 0);
  }
}
