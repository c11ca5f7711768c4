/** Handing chunks to a sound device that may take fewer frames than it is offered
    (src/alsaplayer.c, src/pcmchunk.c). */
module Playback {
  import opened Arith
  import opened Time
  import opened Chunk
  import opened Wire

  function FrameBytes(c: PcmChunk): nat {
    c.channels * c.frameSize
  }

  /** The bytes of n frames. */
  function Size(c: PcmChunk, n: nat): nat {
    FrameBytes(c) * n
  }

  predicate Playable(c: PcmChunk) {
    c.channels != 0 && c.frameSize != 0 && c.data != []
  }

  function Frames(c: PcmChunk): nat
    requires Playable(c)
  {
    Quotient(Quotient(|c.data|, c.channels), c.frameSize)
  }

  /** Removes the first frames and moves the play time on, in whole milliseconds; the seconds are stored
      in 32 bits. */
  function ShaveOff(c: PcmChunk, frames: nat): PcmChunk
    requires c.samples > 0 && Size(c, frames) <= |c.data|
  {
    var t := Add(c.PlayAt(), OfMs(Quotient(frames * 1000, c.samples)));
    c.(data := c.data[Size(c, frames)..], playSec := t.sec % 0x1_0000_0000, playNsec := t.nsec)
  }

  /** The whole frames of a chunk; what follows them is never played. */
  function Sound(c: PcmChunk): (b: Bytes)
    ensures Playable(c) && |c.data| % FrameBytes(c) == 0 ==> b == c.data
  {
    if !Playable(c) then []
    else
      FramesFit(c);
      WholeFrames(c);
      c.data[..Size(c, Frames(c))]
  }

  // ----- Counting frames

  /** Dividing by the channels and then by the frame size counts the whole frames. */
  lemma FramesFit(c: PcmChunk)
    requires Playable(c)
    ensures FrameBytes(c) > 0
    ensures Size(c, Frames(c)) <= |c.data| < Size(c, Frames(c) + 1)
  {
    TwoQuotients(|c.data|, c.channels, c.frameSize, Quotient(|c.data|, c.channels), Frames(c));
  }

  lemma SameQuotient(fb: nat, x: nat, a: nat, b: nat)
    requires fb * a <= x < fb * (a + 1) && fb * b <= x < fb * (b + 1)
    ensures a == b
  {
    if a < b { Times(a + 1, b, fb); }
    if b < a { Times(b + 1, a, fb); }
  }

  lemma Multiple(x: nat, fb: nat)
    requires fb > 0 && x % fb == 0
    ensures fb * (x / fb) == x && x < fb * (x / fb + 1)
  {
  }

  lemma WholeFrames(c: PcmChunk)
    requires Playable(c)
    ensures FrameBytes(c) > 0 && (|c.data| % FrameBytes(c) == 0 ==> Size(c, Frames(c)) == |c.data|)
  {
    FramesFit(c);
    var fb, x := FrameBytes(c), |c.data|;
    if x % fb == 0 {
      Multiple(x, fb);
      SameQuotient(fb, x, Frames(c), x / fb);
    }
  }

  lemma PartFits(c: PcmChunk, n: nat)
    requires Playable(c) && n < Frames(c)
    ensures Size(c, n) < |c.data|
  {
    FramesFit(c);
    Times(n + 1, Frames(c), FrameBytes(c));
    Distribute(FrameBytes(c), n, 1);
  }

  /** Playing some frames and then the shaved chunk is playing the chunk. */
  lemma ShavedSound(c: PcmChunk, n: nat)
    requires Playable(c) && c.samples > 0 && n < Frames(c) && Size(c, n) < |c.data|
    ensures var r := ShaveOff(c, n);
      Playable(r) && Frames(r) == Frames(c) - n && Sound(c) == c.data[..Size(c, n)] + Sound(r)
  {
    var fb := FrameBytes(c);
    FramesFit(c);
    var r := ShaveOff(c, n);
    FramesFit(r);
    Distribute(fb, n, Frames(c) - n);
    Distribute(fb, n, Frames(c) + 1 - n);
    SameQuotient(fb, |r.data|, Frames(r), Frames(c) - n);
  }

  // ----- The player

  /** What is left of the chunk being played. */
  datatype Player = Player(overflow: Option<PcmChunk>)

  /** A call to the player: the chunk that the buffer would yield, and how many frames the device takes
      at most. */
  datatype Call = Call(next: PcmChunk, room: nat)

  function Min(a: nat, b: nat): nat {
    if a < b then a else b
  }

  function Current(p: Player, k: Call): PcmChunk {
    if p.overflow.Some? then p.overflow.value else k.next
  }

  ghost predicate PlayerInv(p: Player) {
    p.overflow.Some? ==> Playable(p.overflow.value) && p.overflow.value.samples > 0
  }

  /** The new state, and the bytes the device got. */
  function Play(p: Player, k: Call): (r: (Player, Bytes))
    requires PlayerInv(p) && k.next.samples > 0
    ensures PlayerInv(r.0)
  {
    var c := Current(p, k);
    if !Playable(c) then (p, [])
    else
      var n := Min(k.room, Frames(c));
      FramesFit(c);
      Times(n, Frames(c), FrameBytes(c));
      var rest := if n < Frames(c) then (PartFits(c, n); ShavedSound(c, n); Some(ShaveOff(c, n))) else None;
      (Player(rest), c.data[..Size(c, n)])
  }

  /** What a call hands over: the first frames of the current chunk.  If anything is left over, these are
      exactly as many as the device has room for; otherwise they are all the whole frames there are. */
  lemma PlayExactly(p: Player, k: Call)
    requires PlayerInv(p) && k.next.samples > 0
    ensures var c, (p', out) := if p.overflow.Some? then p.overflow.value else k.next, Play(p, k);
      && (c.channels == 0 || c.frameSize == 0 || c.data == [] ==> p' == p && out == [])
      && (c.channels > 0 && c.frameSize > 0 && c.data != [] ==>
            var fb: nat := c.channels * c.frameSize;
            && |out| <= |c.data| && out == c.data[..|out|]
            && (p'.overflow.Some? ==>
                  |out| == fb * k.room && fb * (k.room + 1) <= |c.data| && p'.overflow.value.data == c.data[|out|..])
            && (p'.overflow.None? ==>
                  |out| <= fb * k.room && exists n: nat :: |out| == fb * n <= |c.data| < fb * (n + 1)))
  {
    var c := Current(p, k);
    if Playable(c) {
      FramesFit(c);
      if k.room < Frames(c) {
        PartFits(c, k.room);
        Times(k.room + 1, Frames(c), FrameBytes(c));
      } else {
        Times(Frames(c), k.room, FrameBytes(c));
        assert Size(c, Frames(c)) == FrameBytes(c) * Frames(c);
      }
    }
  }

  // ----- Runs

  /** The player, all the device got, and all that was taken from the buffer. */
  datatype Run = Run(player: Player, device: Bytes, taken: Bytes)

  ghost function After(calls: seq<Call>): (r: Run)
    requires forall i :: 0 <= i < |calls| ==> calls[i].next.samples > 0
    ensures PlayerInv(r.player)
  {
    if calls == [] then Run(Player(None), [], [])
    else
      var r, k := After(calls[..|calls| - 1]), calls[|calls| - 1];
      var (p, out) := Play(r.player, k);
      Run(p, r.device + out, r.taken + if r.player.overflow.None? then Sound(k.next) else [])
  }

  function Left(p: Player): Bytes {
    if p.overflow.None? then [] else Sound(p.overflow.value)
  }

  lemma PlayConserves(p: Player, k: Call)
    requires PlayerInv(p) && k.next.samples > 0
    ensures var (p', out) := Play(p, k);
      out + Left(p') == Left(p) + if p.overflow.None? then Sound(k.next) else []
  {
    hide ShaveOff, Frames;
    var c := Current(p, k);
    if Playable(c) {
      FramesFit(c);
      if k.room < Frames(c) {
        PartFits(c, k.room);
        ShavedSound(c, k.room);
      }
    }
  }

  /** However few frames the device takes each time, it gets every frame taken from the buffer exactly
      once and in order, but for those still waiting. */
  lemma {:induction false} PlaybackConserves(calls: seq<Call>)
    requires forall i :: 0 <= i < |calls| ==> calls[i].next.samples > 0
    ensures var r := After(calls); r.device + Left(r.player) == r.taken
  {
    if calls != [] {
      hide Play, Left, Sound;
      var before, k := After(calls[..|calls| - 1]), calls[|calls| - 1];
      PlaybackConserves(calls[..|calls| - 1]);
      PlayConserves(before.player, k);
      var (p, out) := Play(before.player, k);
      Chain(before.device, out, Left(p), Left(before.player),
            if before.player.overflow.None? then Sound(k.next) else []);
    }
  }

  lemma Chain(device: Bytes, out: Bytes, left: Bytes, was: Bytes, added: Bytes)
    requires out + left == was + added
    ensures (device + out) + left == (device + was) + added
  {
    assert (device + out) + left == device + (out + left);
  }

  // ----- Play times

  /** A chunk after writes of these numbers of frames, each of which leaves something over. */
  ghost predicate Splits(c: PcmChunk, ws: seq<nat>)
    requires Playable(c) && c.samples > 0
    decreases |ws|
  {
    ws != [] ==> ws[0] < Frames(c) && (PartFits(c, ws[0]); ShavedSound(c, ws[0]); Splits(ShaveOff(c, ws[0]), ws[1..]))
  }

  ghost function Rest(c: PcmChunk, ws: seq<nat>): PcmChunk
    requires Playable(c) && c.samples > 0 && Splits(c, ws)
    decreases |ws|
  {
    if ws == [] then c else (PartFits(c, ws[0]); ShavedSound(c, ws[0]); Rest(ShaveOff(c, ws[0]), ws[1..]))
  }

  function Sum(ws: seq<nat>): nat {
    if ws == [] then 0 else ws[0] + Sum(ws[1..])
  }

  /** By how many milliseconds the play time has moved. */
  function Moved(samples: u32, ws: seq<nat>): nat
    requires samples > 0
  {
    if ws == [] then 0 else Quotient(ws[0] * 1000, samples) + Moved(samples, ws[1..])
  }

  /** Each split rounds down: after k splits the play time trails the first unplayed frame by less than
      k milliseconds, and never leads it. */
  lemma {:induction false} LagIsBounded(samples: u32, ws: seq<nat>)
    requires samples > 0
    ensures Moved(samples, ws) * samples <= Sum(ws) * 1000
    ensures ws != [] ==> Sum(ws) * 1000 < (Moved(samples, ws) + |ws|) * samples
  {
    if ws != [] {
      LagIsBounded(samples, ws[1..]);
      LagStep(samples, Quotient(ws[0] * 1000, samples), Moved(samples, ws[1..]), |ws| - 1,
              ws[0] * 1000, Sum(ws[1..]) * 1000);
    }
  }

  lemma LagStep(samples: nat, q: nat, m: nat, k: nat, now: nat, later: nat)
    requires q * samples <= now < q * samples + samples
    requires m * samples <= later && (if k > 0 then later < (m + k) * samples else later == 0 == m)
    ensures (q + m) * samples <= now + later < (q + m + k + 1) * samples
  {
    Distribute(samples, q, m);
    Distribute(samples, q + 1, m + k);
    Distribute(samples, q, 1);
    Regroup(1, q, samples);
  }

  lemma {:induction false} RestIs(c: PcmChunk, ws: seq<nat>)
    requires Playable(c) && c.samples > 0 && Splits(c, ws)
    requires c.playSec + 1 + Moved(c.samples, ws) < 0x1_0000_0000 && Normal(c.PlayAt())
    ensures var r := Rest(c, ws);
      && Ns(r.PlayAt()) == Ns(c.PlayAt()) + Moved(c.samples, ws) * MILLION
      && Playable(r) && Frames(c) == Sum(ws) + Frames(r)
    decreases |ws|
  {
    FramesFit(c);
    if ws != [] {
      PartFits(c, ws[0]);
      ShavedSound(c, ws[0]);
      var ms := Quotient(ws[0] * 1000, c.samples);
      ShavedPlayAt(c, ws[0]);
      RestIs(ShaveOff(c, ws[0]), ws[1..]);
    }
  }

  lemma ShavedPlayAt(c: PcmChunk, n: nat)
    requires Playable(c) && c.samples > 0 && Size(c, n) <= |c.data| && Normal(c.PlayAt())
    requires var ms := Quotient(n * 1000, c.samples); c.playSec + 1 + ms < 0x1_0000_0000
    ensures var r, ms := ShaveOff(c, n), Quotient(n * 1000, c.samples);
      && Ns(r.PlayAt()) == Ns(c.PlayAt()) + ms * MILLION && Normal(r.PlayAt()) && r.playSec <= c.playSec + 1 + ms
  {
  }

  /** What is left after k splits is stamped with a time that trails the first unplayed frame by less
      than k milliseconds and never leads it. */
  lemma PlayTimeTrails(c: PcmChunk, ws: seq<nat>)
    requires Playable(c) && c.samples > 0 && Splits(c, ws) && ws != []
    requires c.playSec + 1 + Moved(c.samples, ws) < 0x1_0000_0000 && Normal(c.PlayAt())
    ensures var r := Rest(c, ws);
      && Playable(r) && Frames(r) <= Frames(c)
      && exists ms: nat :: Ns(r.PlayAt()) == Ns(c.PlayAt()) + ms * MILLION
           && ms * c.samples <= (Frames(c) - Frames(r)) * 1000 < (ms + |ws|) * c.samples
  {
    RestIs(c, ws);
    LagIsBounded(c.samples, ws);
  }

  // ----- The overflow over runs

  lemma {:induction false} SplitsAppend(c: PcmChunk, ws: seq<nat>, w: nat)
    requires Playable(c) && c.samples > 0 && Splits(c, ws)
    ensures var r := Rest(c, ws);
      && Playable(r) && r.samples > 0
      && (w < Frames(r) ==>
            (PartFits(r, w); Splits(c, ws + [w]) && Rest(c, ws + [w]) == ShaveOff(r, w)))
    decreases |ws|
  {
    if ws == [] {
      if w < Frames(c) {
        PartFits(c, w);
        ShavedSound(c, w);
        assert [w][1..] == [] && [] + [w] == [w];
      }
    } else {
      PartFits(c, ws[0]);
      ShavedSound(c, ws[0]);
      SplitsAppend(ShaveOff(c, ws[0]), ws[1..], w);
      assert (ws + [w])[1..] == ws[1..] + [w];
    }
  }

  /** How many frames the device has room for in each call. */
  function Rooms(calls: seq<Call>): seq<nat> {
    seq(|calls|, i requires 0 <= i < |calls| => calls[i].room)
  }

  /** The overflow is what call j took from the buffer, after the writes from that call on. */
  ghost predicate Stems(calls: seq<Call>, j: nat, rest: PcmChunk)
    requires forall i :: 0 <= i < |calls| ==> calls[i].next.samples > 0
  {
    && j < |calls| && After(calls[..j]).player.overflow.None?
    && Playable(calls[j].next) && Splits(calls[j].next, Rooms(calls[j..]))
    && rest == Rest(calls[j].next, Rooms(calls[j..]))
  }

  lemma StemsOn(calls: seq<Call>, k: Call, j: nat, rest: PcmChunk)
    requires forall i :: 0 <= i < |calls| ==> calls[i].next.samples > 0
    requires k.next.samples > 0 && Stems(calls, j, rest)
    ensures Playable(rest) && rest.samples > 0
    ensures k.room < Frames(rest) ==> (PartFits(rest, k.room); Stems(calls + [k], j, ShaveOff(rest, k.room)))
  {
    hide Rest, Splits, After;
    SplitsAppend(calls[j].next, Rooms(calls[j..]), k.room);
    assert (calls + [k])[..j] == calls[..j] && (calls + [k])[j..] == calls[j..] + [k];
    assert Rooms((calls + [k])[j..]) == Rooms(calls[j..]) + [k.room];
  }

  lemma StemsAnew(calls: seq<Call>, k: Call)
    requires forall i :: 0 <= i < |calls| ==> calls[i].next.samples > 0
    requires k.next.samples > 0 && After(calls).player.overflow.None? && Playable(k.next) && k.room < Frames(k.next)
    ensures Size(k.next, k.room) < |k.next.data|
    ensures Stems(calls + [k], |calls|, ShaveOff(k.next, k.room))
  {
    var all := calls + [k];
    PartFits(k.next, k.room);
    assert all[..|calls|] == calls && all[|calls|..] == [k] && Rooms([k]) == [k.room];
    SplitsAppend(k.next, [], k.room);
    assert [] + [k.room] == [k.room];
  }

  /** In every run, what is left over is the rest of a chunk taken from the buffer when nothing was left
      over, after one write for each call since, each of exactly as many frames as there was room for. */
  lemma {:induction false} OverflowIsRest(calls: seq<Call>)
    requires forall i :: 0 <= i < |calls| ==> calls[i].next.samples > 0
    ensures After(calls).player.overflow.Some? ==> exists j: nat :: Stems(calls, j, After(calls).player.overflow.value)
  {
    if calls != [] {
      hide Rest, Splits, Stems;
      var before, k := calls[..|calls| - 1], calls[|calls| - 1];
      assert calls == before + [k];
      OverflowIsRest(before);
      var p := After(before).player;
      var c := Current(p, k);
      if Playable(c) && k.room < Frames(c) {
        if p.overflow.Some? {
          var j: nat :| Stems(before, j, c);
          StemsOn(before, k, j, c);
        } else {
          StemsAnew(before, k);
        }
      }
    }
  }

  // ----- The player on its own state

  class AlsaPlayer {
    var overflow: Option<PcmChunk>

    constructor ()
      ensures State() == Player(None)
    {
      overflow := None;
    }

    function State(): Player
      reads this
    {
      Player(overflow)
    }

    /** The device takes as many of the frames offered as it has room for. */
    method Handle(k: Call) returns (out: Bytes)
      requires PlayerInv(State()) && k.next.samples > 0
      modifies this
      ensures (State(), out) == Play(old(State()), k) && PlayerInv(State())
    {
      var chunk := if overflow.Some? then overflow.value else k.next;
      if !Playable(chunk) { return []; }
      var n := Min(k.room, Frames(chunk));
      FramesFit(chunk);
      Times(n, Frames(chunk), FrameBytes(chunk));
      out := chunk.data[..Size(chunk, n)];
      if n < Frames(chunk) {
        PartFits(chunk, n);
        ShavedSound(chunk, n);
        overflow := Some(ShaveOff(chunk, n));
      } else {
        overflow := None;
      }
    }
  }
}
