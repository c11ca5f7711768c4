/** Audio chunks (src/pcmchunk.c) and the entries of the receive buffer. */
module Chunk {
  import opened Arith
  import opened Time

  type byte = x: int | 0 <= x < 0x100
  type u16 = x: int | 0 <= x < 0x1_0000
  type u32 = x: int | 0 <= x < 0x1_0000_0000

  datatype PcmChunk = PcmChunk(playSec: u32, playNsec: u32, samples: u32, frameSize: byte, channels: byte,
                               codec: byte, data: seq<byte>)
  {
    /** The size field has 16 bits. */
    predicate Sized() {
      |data| < 0x1_0000
    }

    function PlayAt(): Timespec {
      Timespec(playSec, playNsec)
    }
  }

  const CODEC_PCM := 0
  const CODEC_OPUS := 1

  /** The milliseconds a decoded chunk plays for, or 0 when its format is unknown. */
  function DurationMs(c: PcmChunk): nat {
    if c.channels == 0 || c.frameSize == 0 || c.samples == 0 then 0
    else Quotient(Quotient(Quotient(1000 * |c.data|, c.channels), c.frameSize), c.samples)
  }

  /** The duration is the whole milliseconds that the bytes last at so many frames a second; for whole
      frames, those that the frames last. */
  lemma DurationExactly(c: PcmChunk)
    ensures c.channels == 0 || c.frameSize == 0 || c.samples == 0 ==> DurationMs(c) == 0
    ensures var fb: nat := c.channels * c.frameSize;
      fb > 0 && c.samples > 0 ==>
        && fb * c.samples * DurationMs(c) <= 1000 * |c.data| < fb * c.samples * (DurationMs(c) + 1)
        && (forall n: nat :: |c.data| == fb * n ==>
              c.samples * DurationMs(c) <= 1000 * n < c.samples * (DurationMs(c) + 1))
  {
    if c.channels > 0 && c.frameSize > 0 && c.samples > 0 {
      var x, fb := 1000 * |c.data|, c.channels * c.frameSize;
      var q1 := Quotient(x, c.channels);
      var q2 := Quotient(q1, c.frameSize);
      TwoQuotients(x, c.channels, c.frameSize, q1, q2);
      Swap(q2, fb);
      Swap(q2 + 1, fb);
      TwoQuotients(x, fb, c.samples, q2, Quotient(q2, c.samples));
      forall n: nat | |c.data| == fb * n
        ensures c.samples * DurationMs(c) <= 1000 * n < c.samples * (DurationMs(c) + 1)
      {
        WholeFrames(x, fb, n, c.samples, DurationMs(c));
      }
    }
  }

  lemma Swap(a: nat, b: nat)
    ensures a * b == b * a && (a + 1) * b == a * b + b
  {
  }

  lemma WholeFrames(x: nat, fb: nat, n: nat, samples: nat, ms: nat)
    requires fb > 0 && x == 1000 * (fb * n) && fb * samples * ms <= x < fb * samples * (ms + 1)
    ensures samples * ms <= 1000 * n < samples * (ms + 1)
  {
    Group(fb, samples, ms);
    Group(fb, samples, ms + 1);
    if samples * ms > 1000 * n { Times(1000 * n + 1, samples * ms, fb); }
    if 1000 * n >= samples * (ms + 1) { Times(samples * (ms + 1), 1000 * n, fb); }
    Distribute(fb, 1000 * n, 1);
    Thousand(fb, n);
  }

  lemma Group(a: nat, b: nat, c: nat)
    ensures a * b * c == a * (b * c)
  {
  }

  lemma Thousand(fb: nat, n: nat)
    ensures 1000 * (fb * n) == fb * (1000 * n)
  {
  }

  /** What a decoder yields for an encoded chunk: as many bytes as the new size says. */
  type Decoder = PcmChunk -> seq<byte>

  /** Decoding replaces data and codec, in place; a chunk that is not encoded is left alone. */
  function Decoded(d: Decoder, c: PcmChunk): PcmChunk {
    if c.codec == CODEC_OPUS then c.(data := d(c), codec := CODEC_PCM) else c
  }

  /** An Opus chunk becomes the PCM chunk that the decoder makes of it, and any other stays; decoding again
      changes nothing, and neither play time nor format ever change. */
  lemma DecodedOnce(d: Decoder, c: PcmChunk)
    ensures var r := Decoded(d, c);
      && (c.codec == CODEC_OPUS ==> r.data == d(c) && r.codec == CODEC_PCM)
      && (c.codec != CODEC_OPUS ==> r == c)
      && Decoded(d, r) == r
      && r.(data := c.data, codec := c.codec) == c
  {
  }

  function ChunkCmp(c1: PcmChunk, c2: PcmChunk): int {
    if c1.playSec > c2.playSec then 1
    else if c1.playSec < c2.playSec then -1
    else if c1.playNsec > c2.playNsec then 1
    else if c1.playNsec < c2.playNsec then -1
    else 0
  }

  /** A buffered chunk.  The sequence number it arrived under and whether it has been offered to the
      decoder are not stored by the program: they record where the chunk came from. */
  datatype Entry = Entry(seqno: nat, chunk: PcmChunk, decoded: bool)

  /** The order of the receive buffer: what plays first has the highest priority. */
  function ReceivebufferCmp(e1: Entry, e2: Entry): int {
    ChunkCmp(e2.chunk, e1.chunk)
  }

  /** The instant as one number, in the order of the comparison. */
  function Key(e: Entry): nat {
    e.chunk.playSec * 0x1_0000_0000 + e.chunk.playNsec
  }

  /** On normalised play times the key orders by nanoseconds. */
  lemma KeyIsTimeOrder(e1: Entry, e2: Entry)
    requires Normal(e1.chunk.PlayAt()) && Normal(e2.chunk.PlayAt())
    ensures Key(e1) < Key(e2) <==> Ns(e1.chunk.PlayAt()) < Ns(e2.chunk.PlayAt())
    ensures Key(e1) == Key(e2) <==> Ns(e1.chunk.PlayAt()) == Ns(e2.chunk.PlayAt())
  {
    CmpIsIntegerOrder(e1.chunk.PlayAt(), e2.chunk.PlayAt());
  }

  lemma CmpIsKeyOrder(e1: Entry, e2: Entry)
    ensures ReceivebufferCmp(e1, e2) > 0 <==> Key(e1) < Key(e2)
    ensures ReceivebufferCmp(e1, e2) == 0 <==> Key(e1) == Key(e2)
  {
  }
}
