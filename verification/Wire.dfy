/** Packets as bytes: what one end assembles the other end parses (src/intercom.c,
    src/intercom_srv.c, src/intercom_client.c). */
module Wire {
  import opened Chunk

  datatype Option<+T> = None | Some(value: T)

  type Bytes = seq<byte>

  const PACKET_FORMAT_VERSION: byte := 1
  const CLIENT_OPERATION: byte := 0
  const AUDIO_DATA: byte := 1
  const SERVER_OPERATION: byte := 2
  const REQUEST: byte := 0
  const HELLO: byte := 1

  /** Sizes of the packed headers: the common one, the one of audio packets, and the chunk header. */
  const HDR_SIZE := 8
  const AUDIO_HDR_SIZE := 10
  const CHUNK_HEADER_SIZE := 17

  const NONCE_MAX := 0xFFFF_FFFF

  /** The number handed out, and the counter afterwards. */
  function GetNonce(counter: u32): (r: (u32, u32)) {
    (counter % NONCE_MAX, (counter + 1) % 0x1_0000_0000)
  }

  // ----- Numbers in network byte order

  function Be16(x: u16): (b: Bytes)
    ensures |b| == 2
  {
    [x / 0x100, x % 0x100]
  }

  function Be32(x: u32): (b: Bytes)
    ensures |b| == 4
  {
    Be16(x / 0x1_0000) + Be16(x % 0x1_0000)
  }

  function Get16(b: Bytes, o: nat): u16
    requires o + 2 <= |b|
  {
    (b[o] as int) * 0x100 + b[o + 1]
  }

  function Get32(b: Bytes, o: nat): u32
    requires o + 4 <= |b|
  {
    (Get16(b, o) as int) * 0x1_0000 + Get16(b, o + 2)
  }

  lemma Read16(b: Bytes, o: nat, x: u16)
    requires o + 2 <= |b| && b[o..o + 2] == Be16(x)
    ensures Get16(b, o) == x
  {
    assert b[o] == b[o..o + 2][0] && b[o + 1] == b[o..o + 2][1];
  }

  lemma Read32(b: Bytes, o: nat, x: u32)
    requires o + 4 <= |b| && b[o..o + 4] == Be32(x)
    ensures Get32(b, o) == x
  {
    assert b[o..o + 2] == Be32(x)[..2] && b[o + 2..o + 4] == Be32(x)[2..];
    Read16(b, o, x / 0x1_0000);
    Read16(b, o + 2, x % 0x1_0000);
  }

  // ----- Headers

  datatype Header = Header(version: byte, kind: byte, clientid: u16, nonce: u32)

  function AssembleHeader(h: Header): (b: Bytes)
    ensures |b| == HDR_SIZE
  {
    [h.version, h.kind] + Be16(h.clientid) + Be32(h.nonce)
  }

  function ParseHeader(p: Bytes): Header
    requires |p| >= HDR_SIZE
  {
    Header(p[0], p[1], Get16(p, 2), Get32(p, 4))
  }

  lemma HeaderRoundTrip(h: Header, post: Bytes)
    ensures ParseHeader(AssembleHeader(h) + post) == h
  {
    var p := AssembleHeader(h) + post;
    assert p[2..4] == Be16(h.clientid) && p[4..8] == Be32(h.nonce);
    Read16(p, 2, h.clientid);
    Read32(p, 4, h.nonce);
  }

  // ----- Audio packets

  /** The fields in the order in which the server writes them. */
  function AssembleChunk(c: PcmChunk): (b: Bytes)
    requires c.Sized()
    ensures |b| == CHUNK_HEADER_SIZE + |c.data|
  {
    Be32(c.playSec) + Be32(c.playNsec) + Be32(c.samples) + [c.frameSize, c.channels]
      + Be16(|c.data|) + [c.codec] + c.data
  }

  /** The client overlays its chunk structure on the packet; the data follows the chunk header. */
  function ParseChunk(b: Bytes): Option<PcmChunk>
    requires |b| >= CHUNK_HEADER_SIZE
  {
    var size := Get16(b, 14);
    if |b| < CHUNK_HEADER_SIZE + size then None
    else Some(PcmChunk(Get32(b, 0), Get32(b, 4), Get32(b, 8), b[12], b[13], b[16],
                       b[CHUNK_HEADER_SIZE..CHUNK_HEADER_SIZE + size]))
  }

  lemma ChunkRoundTrip(c: PcmChunk)
    requires c.Sized()
    ensures ParseChunk(AssembleChunk(c)) == Some(c)
  {
    var b := AssembleChunk(c);
    var times := Be32(c.playSec) + Be32(c.playNsec) + Be32(c.samples);
    var rest := [c.frameSize, c.channels] + Be16(|c.data|) + [c.codec] + c.data;
    assert b == times + rest;
    assert b[0..4] == Be32(c.playSec) && b[4..8] == Be32(c.playNsec) && b[8..12] == Be32(c.samples);
    assert b[14..16] == rest[2..4] == Be16(|c.data|);
    assert b[12] == rest[0] && b[13] == rest[1] && b[16] == rest[4] && b[CHUNK_HEADER_SIZE..] == rest[5..] == c.data;
    assert b[CHUNK_HEADER_SIZE..CHUNK_HEADER_SIZE + |c.data|] == c.data;
    Read32(b, 0, c.playSec);
    Read32(b, 4, c.playNsec);
    Read32(b, 8, c.samples);
    Read16(b, 14, |c.data|);
  }

  function AssembleAudio(nonce: u32, bufferms: u16, c: PcmChunk): (p: Bytes)
    requires c.Sized()
    ensures |p| == AUDIO_HDR_SIZE + CHUNK_HEADER_SIZE + |c.data|
  {
    AssembleHeader(Header(PACKET_FORMAT_VERSION, AUDIO_DATA, 0, nonce)) + Be16(bufferms) + AssembleChunk(c)
  }

  /** The value of so many bytes, most significant first. */
  function BigEndian(b: Bytes): nat {
    if b == [] then 0 else 0x100 * BigEndian(b[..|b| - 1]) + b[|b| - 1]
  }

  /** Byte by byte, what an audio packet looks like on the wire. */
  lemma AudioLayout(nonce: u32, bufferms: u16, c: PcmChunk)
    requires c.Sized()
    ensures var p := AssembleAudio(nonce, bufferms, c);
      && |p| == 27 + |c.data|
      && p[0..4] == [1, 1, 0, 0] && BigEndian(p[4..8]) == nonce && BigEndian(p[8..10]) == bufferms
      && BigEndian(p[10..14]) == c.playSec && BigEndian(p[14..18]) == c.playNsec && BigEndian(p[18..22]) == c.samples
      && p[22..24] == [c.frameSize, c.channels] && BigEndian(p[24..26]) == |c.data| && p[26] == c.codec
      && p[27..] == c.data
  {
    hide BigEndian;
    var p := AssembleAudio(nonce, bufferms, c);
    var times := Be32(c.playSec) + Be32(c.playNsec) + Be32(c.samples);
    var rest := [c.frameSize, c.channels] + Be16(|c.data|) + [c.codec] + c.data;
    var head := AssembleHeader(Header(PACKET_FORMAT_VERSION, AUDIO_DATA, 0, nonce)) + Be16(bufferms);
    assert p == head + times + rest;
    assert p[4..8] == Be32(nonce) && p[8..10] == Be16(bufferms);
    assert p[10..14] == Be32(c.playSec) && p[14..18] == Be32(c.playNsec) && p[18..22] == Be32(c.samples);
    assert p[22..] == rest && rest[2..4] == Be16(|c.data|) && p[24..26] == rest[2..4] && rest[5..] == c.data;
    BigEndianIs(nonce);
    BigEndianIs(c.playSec);
    BigEndianIs(c.playNsec);
    BigEndianIs(c.samples);
    BigEndianIs(bufferms);
    BigEndianIs(|c.data|);
    assert rest[0] == p[22] && rest[1] == p[23] && rest[4] == p[26];
  }

  lemma BigEndianIs(x: u32)
    ensures BigEndian(Be32(x)) == x
    ensures x < 0x1_0000 ==> BigEndian(Be16(x)) == x
  {
    var b := Be32(x);
    assert b[..3][..2] == b[..2] && b[..2][..1] == b[..1];
    assert BigEndian(b[..1]) == b[0] && BigEndian(b[..2]) == 0x100 * BigEndian(b[..1]) + b[1];
    assert BigEndian(b[..3]) == 0x100 * BigEndian(b[..2]) + b[2];
  }

  datatype Audio = Audio(header: Header, bufferms: u16, chunk: PcmChunk)

  function ParseAudio(p: Bytes): Option<Audio> {
    if |p| < AUDIO_HDR_SIZE + CHUNK_HEADER_SIZE then None
    else
      match ParseChunk(p[AUDIO_HDR_SIZE..])
      case None => None
      case Some(c) => Some(Audio(ParseHeader(p), Get16(p, HDR_SIZE), c))
  }

  /** The client reads exactly what the server wrote. */
  lemma AudioRoundTrip(nonce: u32, bufferms: u16, c: PcmChunk)
    requires c.Sized()
    ensures ParseAudio(AssembleAudio(nonce, bufferms, c))
         == Some(Audio(Header(PACKET_FORMAT_VERSION, AUDIO_DATA, 0, nonce), bufferms, c))
  {
    var h := Header(PACKET_FORMAT_VERSION, AUDIO_DATA, 0, nonce);
    var p, hdr := AssembleAudio(nonce, bufferms, c), AssembleHeader(h);
    assert p == hdr + (Be16(bufferms) + AssembleChunk(c));
    HeaderRoundTrip(h, Be16(bufferms) + AssembleChunk(c));
    assert p[HDR_SIZE..HDR_SIZE + 2] == Be16(bufferms);
    Read16(p, HDR_SIZE, bufferms);
    assert p[AUDIO_HDR_SIZE..] == AssembleChunk(c);
    ChunkRoundTrip(c);
  }

  // ----- Requests

  /** A client operation that asks for one packet. */
  function AssembleRequest(clientid: u16, own: u32, wanted: u32): (p: Bytes)
    ensures |p| == HDR_SIZE + 6
  {
    AssembleHeader(Header(PACKET_FORMAT_VERSION, CLIENT_OPERATION, clientid, own)) + [REQUEST, 6] + Be32(wanted)
  }

  /** Byte by byte, what a request looks like on the wire. */
  lemma RequestLayout(clientid: u16, own: u32, wanted: u32)
    ensures var p := AssembleRequest(clientid, own, wanted);
      && |p| == 14
      && p[0..2] == [1, 0] && BigEndian(p[2..4]) == clientid && BigEndian(p[4..8]) == own
      && p[8..10] == [0, 6] && BigEndian(p[10..14]) == wanted
  {
    hide BigEndian;
    var p := AssembleRequest(clientid, own, wanted);
    assert p[2..4] == Be16(clientid) && p[4..8] == Be32(own) && p[10..14] == Be32(wanted);
    BigEndianIs(clientid);
    BigEndianIs(own);
    BigEndianIs(wanted);
  }

  /** The packets asked for by the segments of p from offset o on, in order.  A segment that does not
      move the offset forward, or that is cut off, ends the walk. */
  function RequestsFrom(p: Bytes, o: nat): seq<u32>
    requires o <= |p|
    decreases |p| - o
  {
    if o + 3 > |p| then []
    else
      var length := if p[o] == REQUEST || p[o] == HELLO then p[o + 1] else p[o + 2];
      if length == 0 || o + length > |p| then []
      else if p[o] == REQUEST && o + 6 <= |p| then [Get32(p, o + 2)] + RequestsFrom(p, o + length)
      else RequestsFrom(p, o + length)
  }

  /** The server is asked for exactly what the client wants. */
  lemma RequestRoundTrip(clientid: u16, own: u32, wanted: u32)
    ensures RequestsFrom(AssembleRequest(clientid, own, wanted), HDR_SIZE) == [wanted]
  {
    var p := AssembleRequest(clientid, own, wanted);
    assert p[10..14] == Be32(wanted);
    Read32(p, 10, wanted);
    assert RequestsFrom(p, |p|) == [];
  }

  /** A segment of a client operation: a request, a hello of any length, or one of unknown type, whose third
      byte tells how far to skip. */
  datatype Segment = Ask(wanted: u32) | Greet(body: Bytes) | Unknown(kind: byte, second: byte, body: Bytes)
  {
    predicate Valid() {
      match this
      case Ask(_) => true
      case Greet(body) => 1 <= |body| <= 253
      case Unknown(kind, _, body) => kind != REQUEST && kind != HELLO && |body| <= 252
    }

    function Requests(): seq<u32> {
      if Ask? then [wanted] else []
    }

    function Assemble(): (b: Bytes)
      requires Valid()
      ensures |b| >= 3
    {
      match this
      case Ask(n) => [REQUEST, 6] + Be32(n)
      case Greet(body) => [HELLO, 2 + |body|] + body
      case Unknown(kind, second, body) => [kind, second, 3 + |body|] + body
    }
  }

  predicate AllValid(segments: seq<Segment>) {
    segments == [] || (segments[0].Valid() && AllValid(segments[1..]))
  }

  function AssembleAll(segments: seq<Segment>): Bytes
    requires AllValid(segments)
  {
    if segments == [] then [] else segments[0].Assemble() + AssembleAll(segments[1..])
  }

  function Wanted(segments: seq<Segment>): seq<u32> {
    if segments == [] then []
    else segments[0].Requests() + Wanted(segments[1..])
  }

  /** From offset o on, p consists of these segments. */
  predicate StandsAt(p: Bytes, o: nat, segments: seq<Segment>)
    requires AllValid(segments)
  {
    o <= |p| && p[o..] == AssembleAll(segments)
  }

  lemma CutAt(p: Bytes, o: nat, b: Bytes, post: Bytes)
    requires o <= |p| && p[o..] == b + post
    ensures o + |b| <= |p| && p[o..o + |b|] == b && p[o + |b|..] == post
  {
    var all := p[o..];
    assert p[o..o + |b|] == all[..|b|] && p[o + |b|..] == all[|b|..];
  }

  lemma AskIsFound(p: Bytes, o: nat, n: u32)
    requires o + 6 <= |p| && p[o..o + 6] == [REQUEST, 6] + Be32(n)
    ensures RequestsFrom(p, o) == [n] + RequestsFrom(p, o + 6)
  {
    var b := p[o..o + 6];
    assert p[o] == b[0] && p[o + 1] == b[1] && p[o + 2..o + 6] == b[2..];
    Read32(p, o + 2, n);
  }

  lemma OtherIsSkipped(p: Bytes, o: nat, b: Bytes)
    requires 3 <= |b| <= 255 && b[0] != REQUEST && b[if b[0] == HELLO then 1 else 2] == |b|
    requires o + |b| <= |p| && p[o..o + |b|] == b
    ensures RequestsFrom(p, o) == RequestsFrom(p, o + |b|)
  {
    var c := p[o..o + |b|];
    assert p[o] == c[0] && p[o + 1] == c[1] && p[o + 2] == c[2];
  }

  lemma OneSegment(p: Bytes, o: nat, segments: seq<Segment>) returns (next: nat)
    requires segments != [] && AllValid(segments) && StandsAt(p, o, segments)
    ensures o <= |p| && next <= |p| && StandsAt(p, next, segments[1..])
    ensures RequestsFrom(p, o) == segments[0].Requests() + RequestsFrom(p, next)
  {
    hide AssembleAll, RequestsFrom, Be32;
    var s, rest := segments[0], segments[1..];
    FirstSegment(segments);
    var b := s.Assemble();
    next := o + |b|;
    CutAt(p, o, b, AssembleAll(rest));
    match s {
      case Ask(n) => AskIsFound(p, o, n);
      case Greet(_) => OtherIsSkipped(p, o, b);
      case Unknown(_, _, _) => OtherIsSkipped(p, o, b);
    }
  }

  lemma FirstSegment(segments: seq<Segment>)
    requires segments != [] && AllValid(segments)
    ensures segments[0].Valid() && AllValid(segments[1..])
    ensures AssembleAll(segments) == segments[0].Assemble() + AssembleAll(segments[1..])
  {
  }

  lemma {:induction false} SegmentsFrom(p: Bytes, o: nat, segments: seq<Segment>)
    requires AllValid(segments) && o <= |p| && StandsAt(p, o, segments)
    ensures RequestsFrom(p, o) == Wanted(segments)
    decreases |segments|
  {
    hide RequestsFrom, StandsAt, AssembleAll;
    if segments != [] {
      var next := OneSegment(p, o, segments);
      SegmentsFrom(p, next, segments[1..]);
    } else {
      NoSegment(p, o);
    }
  }

  lemma NoSegment(p: Bytes, o: nat)
    requires o <= |p| && StandsAt(p, o, [])
    ensures RequestsFrom(p, o) == []
  {
  }

  /** The server finds exactly the requests of a client operation, in order, whatever other segments lie
      between them. */
  lemma SegmentsAreWalked(header: Bytes, segments: seq<Segment>)
    requires AllValid(segments)
    ensures RequestsFrom(header + AssembleAll(segments), |header|) == Wanted(segments)
  {
    hide RequestsFrom, AssembleAll, Wanted;
    SegmentsFrom(header + AssembleAll(segments), |header|, segments);
  }
}
