/** The receiving side (src/intercom_client.c, src/intercom.c): gap detection, the list of missing
    packets, the retry chains, and the receive buffer. */
module Client {
  import opened Arith
  import opened Time
  import opened Chunk
  import opened Wire
  import PQ = PQueue

  /** A pending request task: the number it asks for and how often it may still ask. */
  datatype Request = Request(nonce: nat, retriesLeft: nat)

  datatype Client = Client(last: nat, missing: seq<nat>, buffer: seq<Entry>, capacity: nat, bufferms: u16,
                           tasks: seq<Request>, recent: seq<Header>)

  const INIT := Client(0, [], [], 0, 0, [], [])

  const INTERCOM_MAX_RECENT := 1000
  const REQUEST_RETRY_INTERVAL_MS := 100

  // ----- The list of missing packets

  /** The oldest entries go when there are too many. */
  function Limit(missing: seq<nat>, max: nat): seq<nat> {
    if |missing| > max then missing[|missing| - max..] else missing
  }

  function Prune(missing: seq<nat>, oldest: nat): seq<nat> {
    if missing == [] then []
    else
      var m, n := Prune(missing[..|missing| - 1], oldest), missing[|missing| - 1];
      if n <= oldest then m else m + [n]
  }

  function RemoveRequest(missing: seq<nat>, nonce: nat): seq<nat> {
    if missing == [] then []
    else if missing[0] == nonce then missing[1..]
    else [missing[0]] + RemoveRequest(missing[1..], nonce)
  }

  // ----- Gaps

  /** `size_t` to `int`, as the conversion truncates. */
  function ToInt(x: int): int {
    var y := x % 0x1_0000_0000;
    if y >= 0x8000_0000 then y - 0x1_0000_0000 else y
  }

  function ToSize(x: int): nat {
    x % 0x1_0000_0000_0000_0000
  }

  function Max(a: int, b: int): int {
    if a > b then a else b
  }

  /** Where the loop over a gap starts, in the machine's arithmetic. */
  function GapStart(last: nat, seqno: nat, capacity: nat): nat {
    ToSize(Max(ToInt(last), ToInt(ToSize(seqno - capacity))) + 1)
  }

  function Retries(bufferms: u16): nat {
    bufferms / REQUEST_RETRY_INTERVAL_MS % 0x100
  }

  /** Registers and requests the packets i, i+1, ..., seqno-1. */
  function RequestGap(missing: seq<nat>, tasks: seq<Request>, i: nat, seqno: nat, capacity: nat, retries: nat):
    (seq<nat>, seq<Request>)
    decreases seqno - i
  {
    if i >= seqno then (missing, tasks)
    else if i in missing then RequestGap(missing, tasks, i + 1, seqno, capacity, retries)
    else RequestGap(Limit(missing + [i], capacity), tasks + [Request(i, retries)], i + 1, seqno, capacity, retries)
  }

  predicate IsNextChunk(last: nat, seqno: u32) {
    || (seqno == 0 && last == NONCE_MAX)
    || ((seqno - 1) % 0x1_0000_0000 == last && last != NONCE_MAX)
  }

  predicate FarAhead(c: Client, seqno: u32) {
    seqno >= c.last && seqno - c.last >= c.capacity
  }

  function NoteGap(c: Client, seqno: u32): Client {
    if IsNextChunk(c.last, seqno) || seqno < c.last then c
    else if FarAhead(c, seqno) then c.(last := seqno, buffer := [])
    else
      var (missing, tasks) :=
        RequestGap(c.missing, c.tasks, GapStart(c.last, seqno, c.capacity), seqno, c.capacity, Retries(c.bufferms));
      c.(missing := missing, tasks := tasks)
  }

  // ----- The receive buffer

  predicate Outdated(e: Entry, ctime: Timespec) {
    e.chunk.playSec != 0 && Cmp(ctime, e.chunk.PlayAt()) > 0
  }

  function DropOld(buffer: seq<Entry>, ctime: Timespec): seq<Entry>
    decreases |buffer|
  {
    if buffer != [] && Outdated(buffer[0], ctime) then DropOld(PQ.Dequeue(buffer), ctime) else buffer
  }

  function PutChunk(buffer: seq<Entry>, e: Entry, capacity: nat, ctime: Timespec): seq<Entry> {
    PQ.Enqueue(DropOld(buffer, ctime), e, capacity)
  }

  // ----- What arrives

  predicate OnTime(a: Audio, ctime: Timespec) {
    Cmp(a.chunk.PlayAt(), ctime) > 0
  }

  /** The first chunk has a duration; the program divides by it. */
  predicate Ready(c: Client, a: Audio, d: Decoder) {
    c.capacity == 0 ==> DurationMs(Decoded(d, a.chunk)) > 0
  }

  /** The buffer is set up when the first chunk arrives; that chunk is decoded on the spot, to learn its
      duration. */
  function SetUp(c: Client, a: Audio, d: Decoder): Client
    requires Ready(c, a, d)
  {
    if c.capacity == 0 then
      c.(buffer := [], capacity := Quotient(a.bufferms, DurationMs(Decoded(d, a.chunk))) + 1, bufferms := a.bufferms)
    else c
  }

  function EntryOf(c: Client, a: Audio, d: Decoder): Entry {
    if c.capacity == 0 then Entry(a.header.nonce, Decoded(d, a.chunk), true) else Entry(a.header.nonce, a.chunk, false)
  }

  function HandleAudio(c: Client, a: Audio, ctime: Timespec, d: Decoder): Client
    requires Ready(c, a, d)
  {
    var seqno := a.header.nonce;
    var c' := SetUp(c.(missing := RemoveRequest(c.missing, seqno)), a, d);
    if OnTime(a, ctime) then
      var g := NoteGap(c', seqno);
      g.(buffer := PutChunk(g.buffer, EntryOf(c, a, d), g.capacity, ctime), last := Max(g.last, seqno))
    else
      c'.(missing := Prune(c'.missing, seqno), last := Max(c'.last, seqno))
  }

  /** The request task at position i fires: it asks once more and re-arms itself, or gives up, or finds
      that nothing is missing any more.  The second result tells whether a request was sent. */
  function FireRequest(c: Client, i: nat): (r: (Client, bool))
    requires i < |c.tasks|
  {
    var t := c.tasks[i];
    var others := c.tasks[..i] + c.tasks[i + 1..];
    if t.retriesLeft > 0 then
      if t.nonce in c.missing then (c.(tasks := others + [Request(t.nonce, t.retriesLeft - 1)]), true)
      else (c.(tasks := others), false)
    else (c.(tasks := others, missing := RemoveRequest(c.missing, t.nonce)), false)
  }

  /** A stop order from the server; request tasks already posted stay. */
  function Stop(c: Client): Client {
    c.(missing := [], buffer := [], capacity := 0, last := 0)
  }

  /** Playback takes the first chunk. */
  function Play(c: Client): Client {
    if c.buffer == [] then c else c.(buffer := PQ.Dequeue(c.buffer))
  }

  /** Between two chunks the player decodes the next one ahead of time, where it lies. */
  function DecodeFirst(c: Client, d: Decoder): Client {
    if c.buffer == [] then c
    else c.(buffer := c.buffer[0 := Entry(c.buffer[0].seqno, Decoded(d, c.buffer[0].chunk), true)])
  }

  /** Only the newest header is compared. */
  predicate RecentlySeen(recent: seq<Header>, h: Header) {
    recent != [] && recent[|recent| - 1].nonce == h.nonce && recent[|recent| - 1].kind == h.kind
  }

  function Remember(recent: seq<Header>, h: Header): seq<Header> {
    (if |recent| > INTERCOM_MAX_RECENT then recent[|recent| - INTERCOM_MAX_RECENT..] else recent) + [h]
  }

  function HandlePacket(c: Client, a: Audio, ctime: Timespec, d: Decoder): Client
    requires Ready(c, a, d)
  {
    if RecentlySeen(c.recent, a.header) then c
    else HandleAudio(c.(recent := Remember(c.recent, a.header)), a, ctime, d)
  }

  /** The header of every order of the server: it is not numbered. */
  const ORDER := Header(PACKET_FORMAT_VERSION, SERVER_OPERATION, 0, 0)

  /** An order of the server, to stop or to change the volume.  An order right after another is taken
      for a duplicate. */
  function HandleOrder(c: Client, stop: bool): Client {
    if RecentlySeen(c.recent, ORDER) then c
    else
      var c' := c.(recent := Remember(c.recent, ORDER));
      if stop then Stop(c') else c'
  }
}
