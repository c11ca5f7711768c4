/** The server's input (src/inputpipe.c): chunks of a fixed size are put together from whatever a read
    returns, and each is given the time at which it is to be played. */
module InputPipe {
  import opened Time
  import opened Chunk
  import opened Wire
  import opened TaskQueue

  datatype Mode = Idle | Playing | Throttled

  /** The bytes read so far of the next chunk, and the play time of the last one. */
  datatype Pipe = Pipe(mode: Mode, pending: Bytes, playAt: Timespec)

  /** The size of a chunk in bytes and in milliseconds, and the length of the clients' buffer. */
  datatype Config = Config(chunksize: u16, readMs: nat, bufferms: u16)

  datatype Input = Failed | Data(bytes: Bytes)

  /** What one call yields: -1 for a full buffer, 0 for nothing, 1 for a chunk that follows the last one,
      2 for a chunk after a restart. */
  datatype Outcome = Outcome(pipe: Pipe, ret: int)

  const COLD_START_OFFSET_MS := 100

  function MaxLead(c: Config): nat {
    c.bufferms * 95 / 100
  }

  predicate Late(p: Pipe, ctime: Timespec) {
    Cmp(ctime, p.playAt) > 0
  }

  predicate BufferFull(c: Config, p: Pipe, ctime: Timespec)
    requires Normal(ctime)
  {
    Cmp(p.playAt, AddMs(ctime, MaxLead(c))) > 0
  }

  /** The next play time: one chunk after the last, or shortly from now if that has passed. */
  function NextPlayAt(c: Config, p: Pipe, ctime: Timespec): Timespec
    requires Normal(ctime) && Normal(p.playAt)
  {
    if Late(p, ctime) then AddMs(ctime, COLD_START_OFFSET_MS) else AddMs(p.playAt, c.readMs)
  }

  /** What a read does to the state, before the chunk is looked at. */
  function TakeIn(c: Config, p: Pipe, ctime: Timespec, input: Input): (q: Pipe)
    requires Normal(ctime) && Normal(p.playAt)
    ensures Normal(q.playAt)
  {
    match input
    case Failed => p
    case Data(bytes) =>
      if bytes == [] then p.(mode := Idle)
      else if p.mode == Idle then Pipe(Playing, p.pending + bytes, NextPlayAt(c, p, ctime))
      else p.(pending := p.pending + bytes)
  }

  /** One call of the input handler.  A chunk that is complete stays in `pending` of the result of
      TakeIn; it is given away with the play time of the outcome. */
  function HandleInput(c: Config, p: Pipe, ctime: Timespec, input: Input): (o: Outcome)
    requires Normal(ctime) && Normal(p.playAt)
    ensures Normal(o.pipe.playAt) && -1 <= o.ret <= 2
  {
    if BufferFull(c, p, ctime) then Outcome(p, -1)
    else
      var q := TakeIn(c, p, ctime, input);
      if |q.pending| != c.chunksize then Outcome(q, 0)
      else Outcome(q.(pending := [], playAt := NextPlayAt(c, q, ctime)), if Late(q, ctime) then 2 else 1)
  }

  /** What a read can return. */
  predicate Fits(c: Config, p: Pipe, input: Input) {
    input.Data? ==> |p.pending| + |input.bytes| <= c.chunksize
  }

  // ----- One call

  ghost predicate PipeInv(c: Config, p: Pipe) {
    Normal(p.playAt) && |p.pending| <= c.chunksize && (|p.pending| == c.chunksize ==> p.pending == [])
  }

  function Max(a: int, b: int): int {
    if a > b then a else b
  }

  function Min(a: int, b: int): int {
    if a < b then a else b
  }

  /** How far ahead of the clock a chunk can be scheduled at most, in milliseconds: a chunk more than a
      cold start, or than 95 percent of the buffer and a chunk. */
  function LeadLimit(c: Config): nat {
    Max(100, c.bufferms * 95 / 100 + c.readMs) + c.readMs
  }

  lemma NextPlayAtMoves(c: Config, p: Pipe, ctime: Timespec)
    requires Normal(ctime) && Normal(p.playAt)
    ensures var t := Ns(NextPlayAt(c, p, ctime));
      && (c.readMs > 0 ==> t > Ns(p.playAt)) && t >= Ns(p.playAt)
      && t >= Ns(ctime) + Min(100, c.readMs) * MILLION
      && t == (if Ns(ctime) > Ns(p.playAt) then Ns(ctime) + COLD_START_OFFSET_MS * MILLION
               else Ns(p.playAt) + c.readMs * MILLION)
  {
    CmpIsIntegerOrder(ctime, p.playAt);
  }

  /** A chunk is scheduled later than all before it, at least the cold-start offset or one chunk ahead
      of the clock, and no further ahead than the limit: whatever the clock did in between. */
  lemma PlayTimeBounds(c: Config, p: Pipe, ctime: Timespec, input: Input)
    requires Normal(ctime) && Normal(p.playAt)
    ensures var o := HandleInput(c, p, ctime, input);
      && Ns(o.pipe.playAt) >= Ns(p.playAt)
      && (o.ret > 0 ==>
          && (c.readMs > 0 ==> Ns(o.pipe.playAt) > Ns(p.playAt))
          && Ns(ctime) + Min(100, c.readMs) * MILLION <= Ns(o.pipe.playAt)
          && Ns(o.pipe.playAt) <= Ns(ctime) + LeadLimit(c) * MILLION)
  {
    hide NextPlayAt;
    NextPlayAtMoves(c, p, ctime);
    CmpIsIntegerOrder(p.playAt, AddMs(ctime, MaxLead(c)));
    if !BufferFull(c, p, ctime) {
      NextPlayAtMoves(c, TakeIn(c, p, ctime, input), ctime);
    }
  }

  /** The limit on the lead is the best possible one. */
  lemma LeadLimitIsReached(c: Config, ctime: Timespec, bytes: Bytes)
    requires Normal(ctime) && Ns(ctime) > 0 && |bytes| == c.chunksize > 0
    ensures exists p ::
      && PipeInv(c, p) && Fits(c, p, Data(bytes)) && p.mode == Idle
      && HandleInput(c, p, ctime, Data(bytes)).ret == 1
      && Ns(HandleInput(c, p, ctime, Data(bytes)).pipe.playAt) == Ns(ctime) + LeadLimit(c) * MILLION
  {
    var ahead := MaxLead(c) + c.readMs >= COLD_START_OFFSET_MS;
    var p := Pipe(Idle, [], if ahead then AddMs(ctime, MaxLead(c)) else Timespec(0, 0));
    var q := TakeIn(c, p, ctime, Data(bytes));
    CmpIsIntegerOrder(p.playAt, AddMs(ctime, MaxLead(c)));
    NextPlayAtMoves(c, p, ctime);
    CmpIsIntegerOrder(ctime, q.playAt);
    NextPlayAtMoves(c, q, ctime);
    assert p.pending + bytes == bytes;
    assert PipeInv(c, p) && HandleInput(c, p, ctime, Data(bytes)).ret == 1;
  }

  // ----- Runs

  /** A chunk given away, or a partial one thrown away. */
  datatype Piece = Emitted(data: Bytes, playAt: Timespec, ctime: Timespec, ret: int) | Discarded(data: Bytes)

  /** The pipe, the stream of bytes read from it, and what became of them. */
  datatype Run = Run(pipe: Pipe, consumed: Bytes, pieces: seq<Piece>)

  datatype Event =
    | Readable(ctime: Timespec, input: Input)
    | IdleFires                 // nothing came for the length of the buffer, or the last client left
    | ResumeFires(clients: nat) // the throttling time is over, or the first client came
    | Reopened(clients: nat)    // the writing end was closed

  predicate Enabled(c: Config, r: Run, e: Event) {
    e.Readable? ==> Normal(e.ctime) && Normal(r.pipe.playAt) && Fits(c, r.pipe, e.input)
  }

  function SetIdle(r: Run): Run {
    r.(pipe := r.pipe.(mode := Idle, pending := []),
       pieces := if r.pipe.pending == [] then r.pieces else r.pieces + [Discarded(r.pipe.pending)])
  }

  /** Without clients there is nobody to read for. */
  function Resume(p: Pipe, clients: nat): Pipe {
    if clients > 0 then p.(mode := Playing) else p
  }

  function HandleReadable(c: Config, r: Run, ctime: Timespec, input: Input): Run
    requires Normal(ctime) && Normal(r.pipe.playAt)
  {
    var o := HandleInput(c, r.pipe, ctime, input);
    if o.ret == -1 then r.(pipe := r.pipe.(mode := Throttled))
    else
      Run(o.pipe,
          if input.Failed? then r.consumed else r.consumed + input.bytes,
          if o.ret == 0 then r.pieces
          else r.pieces + [Emitted(TakeIn(c, r.pipe, ctime, input).pending, o.pipe.playAt, ctime, o.ret)])
  }

  function Next(c: Config, r: Run, e: Event): Run {
    if !Enabled(c, r, e) then r
    else
      match e
      case Readable(ctime, input) => HandleReadable(c, r, ctime, input)
      case IdleFires => SetIdle(r)
      case ResumeFires(clients) => r.(pipe := Resume(r.pipe, clients))
      case Reopened(clients) =>
        var idle := SetIdle(r);
        idle.(pipe := Resume(idle.pipe.(playAt := idle.pipe.playAt.(sec := 0)), clients))
  }

  const START := Run(Pipe(Idle, [], Timespec(0, 0)), [], [])

  function After(c: Config, es: seq<Event>, k: nat): Run
    requires k <= |es|
  {
    if k == 0 then START else Next(c, After(c, es, k - 1), es[k - 1])
  }

  function Flatten(pieces: seq<Piece>): Bytes {
    if pieces == [] then [] else Flatten(pieces[..|pieces| - 1]) + pieces[|pieces| - 1].data
  }

  ghost predicate Whole(c: Config, piece: Piece) {
    if piece.Emitted? then |piece.data| == c.chunksize else 0 < |piece.data| < c.chunksize
  }

  /** Every byte is in exactly one piece or still pending, in the order of the stream, and the chunks
      given away are complete. */
  ghost predicate Conserved(c: Config, r: Run) {
    && PipeInv(c, r.pipe)
    && Flatten(r.pieces) + r.pipe.pending == r.consumed
    && forall i :: 0 <= i < |r.pieces| ==> Whole(c, r.pieces[i])
  }

  lemma {:induction false} FlattenAppend(pieces: seq<Piece>, piece: Piece)
    ensures Flatten(pieces + [piece]) == Flatten(pieces) + piece.data
  {
    assert (pieces + [piece])[..|pieces|] == pieces;
  }

  lemma HandleConserves(c: Config, r: Run, ctime: Timespec, input: Input)
    requires Conserved(c, r) && Normal(ctime) && Fits(c, r.pipe, input)
    ensures Conserved(c, HandleReadable(c, r, ctime, input))
  {
    hide Flatten, NextPlayAt, BufferFull, Late;
    if !BufferFull(c, r.pipe, ctime) {
      var q := TakeIn(c, r.pipe, ctime, input);
      var o := HandleInput(c, r.pipe, ctime, input);
      assert input.Data? ==> q.pending == r.pipe.pending + input.bytes;
      FlattenAppend(r.pieces, Emitted(q.pending, o.pipe.playAt, ctime, o.ret));
      assert Flatten(r.pieces) + (r.pipe.pending + Fresh(input)) == (Flatten(r.pieces) + r.pipe.pending) + Fresh(input);
      assert o.ret == 0 ==> |q.pending| < c.chunksize;
    }
  }

  function Fresh(input: Input): Bytes {
    if input.Failed? then [] else input.bytes
  }

  lemma StepConserves(c: Config, r: Run, e: Event)
    requires Conserved(c, r)
    ensures Conserved(c, Next(c, r, e))
  {
    hide Flatten, HandleReadable;
    if Enabled(c, r, e) {
      if e.Readable? { HandleConserves(c, r, e.ctime, e.input); }
      FlattenAppend(r.pieces, Discarded(r.pipe.pending));
    }
  }

  /** However the stream is cut into reads: no byte is lost, doubled or reordered but for the partial
      chunks thrown away on idling, and every chunk has exactly its size. */
  lemma {:induction false} BytesAreConserved(c: Config, es: seq<Event>, k: nat)
    requires k <= |es|
    ensures Conserved(c, After(c, es, k))
  {
    if k > 0 {
      BytesAreConserved(c, es, k - 1);
      StepConserves(c, After(c, es, k - 1), es[k - 1]);
    }
  }

  // ----- Play times over runs

  ghost predicate InBounds(c: Config, piece: Piece) {
    piece.Emitted? ==>
      && Ns(piece.ctime) + Min(100, c.readMs) * MILLION <= Ns(piece.playAt)
      && Ns(piece.playAt) <= Ns(piece.ctime) + LeadLimit(c) * MILLION
  }

  lemma {:induction false} AllInBounds(c: Config, es: seq<Event>, k: nat)
    requires k <= |es|
    ensures forall i :: 0 <= i < |After(c, es, k).pieces| ==> InBounds(c, After(c, es, k).pieces[i])
  {
    if k > 0 {
      AllInBounds(c, es, k - 1);
      BytesAreConserved(c, es, k - 1);
      StepInBounds(c, After(c, es, k - 1), es[k - 1]);
    }
  }

  lemma StepInBounds(c: Config, r: Run, e: Event)
    requires forall i :: 0 <= i < |r.pieces| ==> InBounds(c, r.pieces[i])
    ensures forall i :: 0 <= i < |Next(c, r, e).pieces| ==> InBounds(c, Next(c, r, e).pieces[i])
  {
    hide HandleInput, LeadLimit;
    if Enabled(c, r, e) && e.Readable? { PlayTimeBounds(c, r.pipe, e.ctime, e.input); }
  }

  /** The chunks are in the order of their play times. */
  ghost predicate StampsIncrease(pieces: seq<Piece>) {
    forall i, j :: 0 <= i < j < |pieces| && pieces[i].Emitted? && pieces[j].Emitted? ==>
      Ns(pieces[i].playAt) < Ns(pieces[j].playAt)
  }

  /** All chunks play before the time t. */
  ghost predicate StampedBefore(pieces: seq<Piece>, t: int) {
    forall i :: 0 <= i < |pieces| && pieces[i].Emitted? ==> Ns(pieces[i].playAt) < t
  }

  /** The chunks are in the order of their play times, none later than the last time assigned. */
  ghost predicate Increasing(r: Run) {
    StampsIncrease(r.pieces) && StampedBefore(r.pieces, Ns(r.pipe.playAt) + 1)
  }

  lemma StepIncreases(c: Config, r: Run, e: Event)
    requires Increasing(r) && c.readMs > 0 && !e.Reopened?
    ensures Increasing(Next(c, r, e))
  {
    hide HandleInput, LeadLimit;
    if Enabled(c, r, e) && e.Readable? { PlayTimeBounds(c, r.pipe, e.ctime, e.input); }
  }

  /** As long as the pipe is not reopened, play times strictly increase, whatever the clock does. */
  lemma {:induction false} PlayTimesIncrease(c: Config, es: seq<Event>, k: nat)
    requires k <= |es| && c.readMs > 0 && forall i :: 0 <= i < k ==> !es[i].Reopened?
    ensures Increasing(After(c, es, k))
  {
    if k > 0 {
      PlayTimesIncrease(c, es, k - 1);
      StepIncreases(c, After(c, es, k - 1), es[k - 1]);
    }
  }

  /** When the last chunk plays, in nanoseconds. */
  function LastStamp(pieces: seq<Piece>): Option<int> {
    if pieces == [] then None
    else
      var piece := pieces[|pieces| - 1];
      if piece.Emitted? then Some(Ns(piece.playAt)) else LastStamp(pieces[..|pieces| - 1])
  }

  lemma {:induction false} LastIsLatest(pieces: seq<Piece>, t: int)
    requires StampsIncrease(pieces)
    ensures StampedBefore(pieces, t) <==> (LastStamp(pieces).Some? ==> LastStamp(pieces).value < t)
  {
    if pieces != [] && !pieces[|pieces| - 1].Emitted? {
      var front := pieces[..|pieces| - 1];
      LastIsLatest(front, t);
      assert forall i :: 0 <= i < |front| ==> pieces[i] == front[i];
    }
  }

  /** One more chunk keeps the order exactly if it plays after the last one. */
  lemma OneMoreInOrder(pieces: seq<Piece>, piece: Piece)
    requires StampsIncrease(pieces) && piece.Emitted?
    ensures StampsIncrease(pieces + [piece])
       <==> (LastStamp(pieces).Some? ==> LastStamp(pieces).value < Ns(piece.playAt))
  {
    LastIsLatest(pieces, Ns(piece.playAt));
    var all := pieces + [piece];
    assert all[|pieces|] == piece && forall i :: 0 <= i < |pieces| ==> all[i] == pieces[i];
  }

  /** In any state, whatever has happened to the last play time, the next chunk keeps the order exactly if
      either the play time assigned last has passed and the cold start comes after the last chunk, or one
      chunk length after the play time assigned last does. */
  lemma ChunkInOrderExactly(c: Config, r: Run, ctime: Timespec, input: Input)
    requires Enabled(c, r, Readable(ctime, input)) && StampsIncrease(r.pieces) && LastStamp(r.pieces).Some?
    requires HandleInput(c, r.pipe, ctime, input).ret > 0
    ensures var t := Ns(TakeIn(c, r.pipe, ctime, input).playAt);
      StampsIncrease(Next(c, r, Readable(ctime, input)).pieces)
      <==> LastStamp(r.pieces).value
           < if Ns(ctime) > t then Ns(ctime) + COLD_START_OFFSET_MS * MILLION else t + c.readMs * MILLION
  {
    hide LastStamp, StampsIncrease;
    var q, o := TakeIn(c, r.pipe, ctime, input), HandleInput(c, r.pipe, ctime, input);
    NextPlayAtMoves(c, q, ctime);
    OneMoreInOrder(r.pieces, Emitted(q.pending, o.pipe.playAt, ctime, o.ret));
  }

  /** Reopening forgets the seconds of the last play time.  In every run in order, if the next chunk is
      then completed in one read, the run stays in order if and only if the cold start from the clock of
      that read comes after the last chunk; without clients the pipe idles, and a chunk length is added. */
  lemma ReopenedInOrderExactly(c: Config, es: seq<Event>, k: nat, clients: nat, ctime: Timespec, bytes: Bytes)
    requires k <= |es| && StampsIncrease(After(c, es, k).pieces) && LastStamp(After(c, es, k).pieces).Some?
    requires |bytes| == c.chunksize > 0 && Normal(ctime) && Ns(ctime) > After(c, es, k).pipe.playAt.nsec
    ensures var r := After(c, es, k);
      StampsIncrease(Next(c, Next(c, r, Reopened(clients)), Readable(ctime, Data(bytes))).pieces)
      <==> LastStamp(r.pieces).value
           < Ns(ctime) + (COLD_START_OFFSET_MS + if clients == 0 then c.readMs else 0) * MILLION
  {
    hide Next, After, LastStamp, StampsIncrease;
    var r := After(c, es, k);
    BytesAreConserved(c, es, k);
    Forgets(c, r, clients);
    var reopened := Next(c, r, Reopened(clients));
    Completes(c, reopened, ctime, bytes);
    var pieces := Next(c, reopened, Readable(ctime, Data(bytes))).pieces;
    assert pieces == reopened.pieces + [pieces[|reopened.pieces|]];
    OneMoreInOrder(reopened.pieces, pieces[|reopened.pieces|]);
  }

  /** The order can indeed be lost, even though the clock stands still. */
  lemma ReopeningGoesBack(c: Config, ctime: Timespec, bytes: Bytes)
    requires |bytes| == c.chunksize > 0 && Normal(ctime) && ctime.sec > 0
    ensures var es := [Readable(ctime, Data(bytes))];
      !StampsIncrease(Next(c, Next(c, After(c, es, 1), Reopened(1)), Readable(ctime, Data(bytes))).pieces)
  {
    hide Next, StampsIncrease, LastStamp;
    var e := Readable(ctime, Data(bytes));
    Completes(c, START, ctime, bytes);
    assert After(c, [e], 0) == START;
    var pieces := After(c, [e], 1).pieces;
    Single(pieces);
    ReopenedInOrderExactly(c, [e], 1, 1, ctime, bytes);
  }

  lemma Single(pieces: seq<Piece>)
    requires |pieces| == 1 && pieces[0].Emitted?
    ensures StampsIncrease(pieces) && LastStamp(pieces) == Some(Ns(pieces[0].playAt))
  {
  }

  lemma Forgets(c: Config, r: Run, clients: nat)
    requires Normal(r.pipe.playAt)
    ensures var r' := Next(c, r, Reopened(clients));
      && r'.pipe == Pipe(if clients > 0 then Playing else Idle, [], Timespec(0, r.pipe.playAt.nsec))
      && LastStamp(r'.pieces) == LastStamp(r.pieces) && (StampsIncrease(r.pieces) ==> StampsIncrease(r'.pieces))
  {
    if r.pipe.pending != [] {
      var pieces := r.pieces + [Discarded(r.pipe.pending)];
      assert pieces[..|r.pieces|] == r.pieces;
    }
  }

  lemma Completes(c: Config, r: Run, ctime: Timespec, bytes: Bytes)
    requires |bytes| == c.chunksize > 0 && Normal(ctime) && Normal(r.pipe.playAt) && r.pipe.pending == []
    requires Ns(r.pipe.playAt) < Ns(ctime)
    ensures var r' := Next(c, r, Readable(ctime, Data(bytes)));
      && Ns(r'.pipe.playAt) == Ns(ctime) +
           (COLD_START_OFFSET_MS + if r.pipe.mode == Idle then c.readMs else 0) * MILLION
      && |r'.pieces| == |r.pieces| + 1 && r'.pieces[..|r.pieces|] == r.pieces && r'.pieces[|r.pieces|].Emitted?
      && r'.pieces[|r.pieces|].playAt == r'.pipe.playAt && Normal(r'.pipe.playAt) && r'.pipe.pending == []
  {
    var q := TakeIn(c, r.pipe, ctime, Data(bytes));
    assert r.pipe.pending + bytes == bytes;
    CmpIsIntegerOrder(r.pipe.playAt, AddMs(ctime, MaxLead(c)));
    NextPlayAtMoves(c, r.pipe, ctime);
    NextPlayAtMoves(c, q, ctime);
    CmpIsIntegerOrder(ctime, q.playAt);
  }

  // ----- Gapless playback

  /** The event breaks the rhythm: a cold start, a chunk that is late, or a reopened pipe. */
  predicate Restarts(c: Config, r: Run, e: Event) {
    Enabled(c, r, e) &&
    match e
    case Readable(ctime, input) =>
      !BufferFull(c, r.pipe, ctime)
      && ((r.pipe.mode == Idle && input.Data? && input.bytes != []) || HandleInput(c, r.pipe, ctime, input).ret == 2)
    case Reopened(_) => true
    case _ => false
  }

  function Chunks(pieces: seq<Piece>): nat {
    if pieces == [] then 0 else Chunks(pieces[..|pieces| - 1]) + if pieces[|pieces| - 1].Emitted? then 1 else 0
  }

  lemma ChunksAppend(pieces: seq<Piece>, piece: Piece)
    ensures Chunks(pieces + [piece]) == Chunks(pieces) + if piece.Emitted? then 1 else 0
  {
    assert (pieces + [piece])[..|pieces|] == pieces;
  }

  /** Unless the pipe was idle, a read leaves the last play time alone. */
  lemma ReadKeepsPlayAt(c: Config, p: Pipe, ctime: Timespec, input: Input)
    requires Normal(ctime) && Normal(p.playAt) && !(p.mode == Idle && input.Data? && input.bytes != [])
    ensures TakeIn(c, p, ctime, input).playAt == p.playAt
  {
    hide NextPlayAt;
  }

  /** A chunk that is not late follows the last one. */
  lemma ChunkFollows(c: Config, p: Pipe, ctime: Timespec, input: Input)
    requires Normal(ctime) && Normal(p.playAt) && HandleInput(c, p, ctime, input).ret == 1
    ensures Ns(HandleInput(c, p, ctime, input).pipe.playAt)
         == Ns(TakeIn(c, p, ctime, input).playAt) + c.readMs * MILLION
  {
    hide TakeIn, BufferFull;
    var q := TakeIn(c, p, ctime, input);
    NextPlayAtMoves(c, q, ctime);
    CmpIsIntegerOrder(ctime, q.playAt);
  }

  /** A call without a chunk leaves the time as the read left it, and a full buffer leaves all alone. */
  lemma NoChunk(c: Config, p: Pipe, ctime: Timespec, input: Input)
    requires Normal(ctime) && Normal(p.playAt)
    ensures var o := HandleInput(c, p, ctime, input);
      && (o.ret == 0 ==> o.pipe.playAt == TakeIn(c, p, ctime, input).playAt)
      && (o.ret == -1 ==> o.pipe == p) && (o.ret == -1 <==> BufferFull(c, p, ctime))
  {
    hide TakeIn, NextPlayAt;
  }

  lemma ReadInRhythm(c: Config, r: Run, ctime: Timespec, input: Input)
    requires Enabled(c, r, Readable(ctime, input)) && !Restarts(c, r, Readable(ctime, input))
    ensures var r' := HandleReadable(c, r, ctime, input);
      && Chunks(r.pieces) <= Chunks(r'.pieces) <= Chunks(r.pieces) + 1
      && Ns(r'.pipe.playAt) == Ns(r.pipe.playAt) +
           if Chunks(r'.pieces) > Chunks(r.pieces) then c.readMs * MILLION else 0
  {
    hide BufferFull, HandleInput, TakeIn, Chunks;
    var o := HandleInput(c, r.pipe, ctime, input);
    NoChunk(c, r.pipe, ctime, input);
    if o.ret >= 0 { ReadKeepsPlayAt(c, r.pipe, ctime, input); }
    if o.ret == 1 { ChunkFollows(c, r.pipe, ctime, input); }
    ChunksAppend(r.pieces, Emitted(TakeIn(c, r.pipe, ctime, input).pending, o.pipe.playAt, ctime, o.ret));
  }

  lemma StepInRhythm(c: Config, r: Run, e: Event)
    requires !Restarts(c, r, e)
    ensures var r' := Next(c, r, e);
      && Chunks(r.pieces) <= Chunks(r'.pieces) <= Chunks(r.pieces) + 1
      && Ns(r'.pipe.playAt) == Ns(r.pipe.playAt) +
           if Chunks(r'.pieces) > Chunks(r.pieces) then c.readMs * MILLION else 0
  {
    hide HandleReadable, Chunks, BufferFull, HandleInput;
    if Enabled(c, r, e) {
      match e
      case Readable(ctime, input) => ReadInRhythm(c, r, ctime, input);
      case _ => ChunksAppend(r.pieces, Discarded(r.pipe.pending));
    }
  }

  lemma Multiples(step: nat, n: nat, one: bool)
    ensures step * (n + if one then 1 else 0) == step * n + if one then step else 0
  {
  }

  /** Without a restart the m-th further chunk is played exactly m chunk lengths later, no matter how
      reads, throttling and other pauses fall. */
  lemma {:induction false} PlaybackIsGapless(c: Config, es: seq<Event>, j: nat, k: nat)
    requires j <= k <= |es| && forall i :: j <= i < k ==> !Restarts(c, After(c, es, i), es[i])
    ensures var r, r' := After(c, es, j), After(c, es, k);
      && Chunks(r'.pieces) >= Chunks(r.pieces)
      && Ns(r'.pipe.playAt) == Ns(r.pipe.playAt) + c.readMs * MILLION * (Chunks(r'.pieces) - Chunks(r.pieces))
    decreases k
  {
    hide Next, Chunks, Restarts;
    if j < k {
      PlaybackIsGapless(c, es, j, k - 1);
      var r, s := After(c, es, j), After(c, es, k - 1);
      StepInRhythm(c, s, es[k - 1]);
      Multiples(c.readMs * MILLION, Chunks(s.pieces) - Chunks(r.pieces),
                Chunks(Next(c, s, es[k - 1]).pieces) > Chunks(s.pieces));
    }
  }

  // ----- When the pipe is idle

  /** The last chunk lies further ahead of the clock than 95 percent of the buffer: nothing is read. */
  predicate Refused(c: Config, r: Run, ctime: Timespec) {
    Ns(r.pipe.playAt) > Ns(ctime) + c.bufferms * 95 / 100 * MILLION
  }

  /** The event sets the pipe going: some bytes come, or the buffer is full, or it is resumed or reopened
      with clients. */
  predicate Wakes(c: Config, r: Run, e: Event) {
    Enabled(c, r, e) &&
    match e
    case Readable(ctime, input) => Refused(c, r, ctime) || (input.Data? && input.bytes != [])
    case IdleFires => false
    case ResumeFires(clients) => clients > 0
    case Reopened(clients) => clients > 0
  }

  /** The event makes the pipe idle: its end is read, the timeout comes, or it is reopened without
      clients. */
  predicate Sleeps(c: Config, r: Run, e: Event) {
    Enabled(c, r, e) &&
    match e
    case Readable(ctime, input) => !Refused(c, r, ctime) && input == Data([])
    case IdleFires => true
    case ResumeFires(_) => false
    case Reopened(clients) => clients == 0
  }

  /** Nothing has set the pipe going since it was last made idle, or since the start. */
  ghost predicate Asleep(c: Config, es: seq<Event>, k: nat)
    requires k <= |es|
  {
    || (forall i :: 0 <= i < k ==> !Wakes(c, After(c, es, i), es[i]))
    || (exists i :: 0 <= i < k && Sleeps(c, After(c, es, i), es[i])
          && forall j :: i < j < k ==> !Wakes(c, After(c, es, j), es[j]))
  }

  lemma RefusedExactly(c: Config, r: Run, ctime: Timespec)
    requires Normal(ctime) && Normal(r.pipe.playAt)
    ensures BufferFull(c, r.pipe, ctime) <==> Refused(c, r, ctime)
  {
    CmpIsIntegerOrder(r.pipe.playAt, AddMs(ctime, MaxLead(c)));
  }

  /** What a call does to the stream of bytes.  If the last chunk lies too far ahead, nothing but throttling.
      Otherwise the bytes read are taken in, and a chunk is given away exactly if they complete it; what
      is given away are the bytes that were pending and those read. */
  lemma ReadExactly(c: Config, r: Run, ctime: Timespec, input: Input)
    requires Enabled(c, r, Readable(ctime, input))
    ensures var r', bytes := Next(c, r, Readable(ctime, input)), if input.Data? then input.bytes else [];
      && (Refused(c, r, ctime) ==> r' == r.(pipe := r.pipe.(mode := Throttled)))
      && (!Refused(c, r, ctime) ==>
            var all := r.pipe.pending + bytes;
            && r'.consumed == r.consumed + bytes
            && (if |all| == c.chunksize then
                  |r'.pieces| == |r.pieces| + 1 && r'.pieces[..|r.pieces|] == r.pieces && r'.pipe.pending == []
                  && r'.pieces[|r.pieces|] == Emitted(all, r'.pipe.playAt, ctime, r'.pieces[|r.pieces|].ret)
                else
                  r'.pieces == r.pieces && r'.pipe.pending == all))
  {
    hide NextPlayAt, BufferFull, Late;
    RefusedExactly(c, r, ctime);
    assert r.consumed + [] == r.consumed && r.pipe.pending + [] == r.pipe.pending;
  }

  /** Idling throws away exactly the pending bytes. */
  lemma IdlingDiscards(c: Config, r: Run)
    ensures var r' := Next(c, r, IdleFires);
      && r'.pipe == Pipe(Idle, [], r.pipe.playAt) && r'.consumed == r.consumed
      && r'.pieces == (if r.pipe.pending == [] then r.pieces else r.pieces + [Discarded(r.pipe.pending)])
  {
  }

  /** A read that fails changes nothing, unless the last chunk lies too far ahead. */
  lemma FailedReadChangesNothing(c: Config, r: Run, ctime: Timespec)
    requires Enabled(c, r, Readable(ctime, Failed)) && PipeInv(c, r.pipe) && c.chunksize > 0
    ensures !Refused(c, r, ctime) ==> Next(c, r, Readable(ctime, Failed)) == r
  {
    RefusedExactly(c, r, ctime);
  }

  lemma ModeAfter(c: Config, r: Run, e: Event)
    ensures var r' := Next(c, r, e);
      && (Wakes(c, r, e) ==> r'.pipe.mode != Idle)
      && (Sleeps(c, r, e) ==> r'.pipe.mode == Idle)
      && (!Wakes(c, r, e) && !Sleeps(c, r, e) ==> (r'.pipe.mode == Idle <==> r.pipe.mode == Idle))
  {
    hide NextPlayAt, Late, BufferFull, Refused;
    if Enabled(c, r, e) && e.Readable? { RefusedExactly(c, r, e.ctime); }
  }

  /** In every run, the pipe is idle if and only if nothing has set it going since it was last made idle. */
  lemma {:induction false} IdleExactly(c: Config, es: seq<Event>, k: nat)
    requires k <= |es|
    ensures After(c, es, k).pipe.mode == Idle <==> Asleep(c, es, k)
  {
    if k > 0 {
      hide Next, Wakes, Sleeps;
      var i := k - 1;
      IdleExactly(c, es, i);
      ModeAfter(c, After(c, es, i), es[i]);
      AsleepStep(c, es, i);
    }
  }

  lemma AsleepStep(c: Config, es: seq<Event>, i: nat)
    requires i < |es|
    ensures var r := After(c, es, i);
      Asleep(c, es, i + 1) <==> Sleeps(c, r, es[i]) || (Asleep(c, es, i) && !Wakes(c, r, es[i]))
  {
    hide Next, After;
    SleepsOrWakes(c, After(c, es, i), es[i]);
    hide Wakes, Sleeps;
  }

  lemma SleepsOrWakes(c: Config, r: Run, e: Event)
    ensures !(Sleeps(c, r, e) && Wakes(c, r, e))
  {
  }

  /** The event breaks the rhythm: the first bytes for an idle pipe, a chunk completed after the time
      assigned last, or a reopening. */
  ghost predicate Breaks(c: Config, es: seq<Event>, i: nat)
    requires i < |es|
  {
    var r := After(c, es, i);
    Enabled(c, r, es[i]) &&
    match es[i]
    case Readable(ctime, input) =>
      && !Refused(c, r, ctime)
      && ((input.Data? && input.bytes != [] && Asleep(c, es, i))
          || (|r.pipe.pending| + |Fresh(input)| == c.chunksize && Ns(ctime) > Ns(r.pipe.playAt)))
    case Reopened(_) => true
    case _ => false
  }

  lemma NotBroken(c: Config, es: seq<Event>, i: nat)
    requires i < |es| && !Breaks(c, es, i)
    ensures !Restarts(c, After(c, es, i), es[i])
  {
    hide After, NextPlayAt, Asleep, BufferFull;
    var r := After(c, es, i);
    IdleExactly(c, es, i);
    if Enabled(c, r, es[i]) && es[i].Readable? {
      RefusedExactly(c, r, es[i].ctime);
      CmpIsIntegerOrder(es[i].ctime, r.pipe.playAt);
    }
  }

  /** As long as no event breaks the rhythm, the m-th further chunk is played exactly m chunk lengths
      later. */
  lemma RhythmIsKept(c: Config, es: seq<Event>, j: nat, k: nat)
    requires j <= k <= |es| && forall i :: j <= i < k ==> !Breaks(c, es, i)
    ensures var r, r' := After(c, es, j), After(c, es, k);
      && Chunks(r'.pieces) >= Chunks(r.pieces)
      && Ns(r'.pipe.playAt) == Ns(r.pipe.playAt) + c.readMs * MILLION * (Chunks(r'.pieces) - Chunks(r.pieces))
  {
    hide Breaks, Restarts, After, Chunks;
    forall i | j <= i < k ensures !Restarts(c, After(c, es, i), es[i]) { NotBroken(c, es, i); }
    PlaybackIsGapless(c, es, j, k);
  }

  // ----- The timeout of an idle pipe

  /** When the timeout that is posted on a cold start comes. */
  function FirstIdleDue(clock: Timespec, bufferms: u16): Timespec
    requires Normal(clock)
  {
    Settime(clock, bufferms, bufferms % 1000)
  }

  /** When it comes after a further read has rescheduled it. */
  function NextIdleDue(clock: Timespec, bufferms: u16): Timespec
    requires Normal(clock)
  {
    Settime(clock, bufferms / 1000, bufferms % 1000)
  }

  /** The first timeout is posted with the milliseconds of the buffer as seconds: it comes after the length
      of the buffer only if that is zero, and otherwise almost a thousand times too late. */
  lemma FirstIdleTimeoutExactly(clock: Timespec, bufferms: u16)
    requires Normal(clock)
    ensures FirstIdleDue(clock, bufferms) == AddMs(clock, bufferms) <==> bufferms == 0
    ensures Ns(FirstIdleDue(clock, bufferms)) >= Ns(clock) + bufferms * BILLION
  {
    if bufferms == 0 { NsInjective(FirstIdleDue(clock, 0), AddMs(clock, 0)); }
  }

  /** The timeouts after that come after the length of the buffer. */
  lemma LaterIdleTimeouts(clock: Timespec, bufferms: u16)
    requires Normal(clock)
    ensures NextIdleDue(clock, bufferms) == AddMs(clock, bufferms)
  {
    NsInjective(NextIdleDue(clock, bufferms), AddMs(clock, bufferms));
  }

  // ----- The handler on its own buffer

  class InputPipeCtx {
    const config: Config
    const data: array<byte>
    var mode: Mode
    var dataRead: nat
    var size: nat
    var playAt: Timespec

    constructor (config: Config)
      ensures Valid() && fresh(data) && this.config == config && State() == START.pipe
    {
      this.config := config;
      data := new byte[config.chunksize];
      mode, dataRead, size, playAt := Idle, 0, config.chunksize, Timespec(0, 0);
    }

    ghost predicate Valid()
      reads this
    {
      data.Length == config.chunksize && dataRead <= data.Length && Normal(playAt)
    }

    function State(): Pipe
      requires dataRead <= data.Length
      reads this, data
    {
      Pipe(mode, data[..dataRead], playAt)
    }

    method Handle(ctime: Timespec, input: Input) returns (ret: int)
      requires Valid() && Normal(ctime) && Fits(config, State(), input)
      modifies this, data
      ensures Valid() && Outcome(State(), ret) == HandleInput(config, old(State()), ctime, input)
      ensures ret > 0 ==> size == config.chunksize && data[..size] == TakeIn(config, old(State()), ctime, input).pending
    {
      hide Cmp, AddMs;
      var p := State();
      if Cmp(playAt, AddMs(ctime, config.bufferms * 95 / 100)) > 0 { return -1; }
      if input.Data? {
        var count := |input.bytes|;
        forall i | 0 <= i < count { data[dataRead + i] := input.bytes[i]; }
        assert data[..dataRead + count] == p.pending + input.bytes;
        if count == 0 {
          mode := Idle;
        } else if mode == Idle {
          if Cmp(ctime, playAt) > 0 {
            playAt := AddMs(ctime, COLD_START_OFFSET_MS);
          } else {
            playAt := AddMs(playAt, config.readMs);
          }
          dataRead, mode := dataRead + count, Playing;
        } else {
          dataRead := dataRead + count;
        }
      }
      assert State() == TakeIn(config, p, ctime, input);
      ret := 0;
      if dataRead == config.chunksize {
        if Cmp(ctime, playAt) > 0 {
          playAt, ret := AddMs(ctime, COLD_START_OFFSET_MS), 2;
        } else {
          playAt, ret := AddMs(playAt, config.readMs), 1;
        }
        size := dataRead;
        dataRead := 0;
      }
    }

    method SetIdle()
      requires Valid()
      modifies this`mode, this`dataRead
      ensures Valid() && State() == old(State()).(mode := Idle, pending := [])
    {
      mode, dataRead := Idle, 0;
    }
  }
}
