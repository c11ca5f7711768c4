/** The sending side of a stream (src/intercom_srv.c): numbering, the window of packets kept for
    retransmission, its expiry, and requests. */
module Server {
  import opened Time
  import opened Chunk
  import opened Wire

  datatype AudioPacket = AudioPacket(nonce: u32, data: Bytes)

  /** A stream as the resend protocol sees it. */
  datatype Stream = Stream(nonce: u32, window: seq<AudioPacket>)

  // ----- What the operations compute

  function SendAudio(s: Stream, bufferms: u16, c: PcmChunk): (r: (Stream, Bytes))
    requires c.Sized()
  {
    var (nonce, counter) := GetNonce(s.nonce);
    var p := AssembleAudio(nonce, bufferms, c);
    (Stream(counter, s.window + [AudioPacket(nonce, p)]), p)
  }

  /** The play time in a kept packet. */
  function PlayAt(ap: AudioPacket): Timespec {
    match ParseAudio(ap.data)
    case None => Timespec(0, 0)
    case Some(a) => a.chunk.PlayAt()
  }

  predicate Overdue(ap: AudioPacket, age: Timespec) {
    Cmp(age, PlayAt(ap)) > 0
  }

  /** How many packets at the start of the window are overdue. */
  function LeadingOverdue(w: seq<AudioPacket>, age: Timespec): (k: nat)
    ensures k <= |w| && (forall i :: 0 <= i < k ==> Overdue(w[i], age)) && (k < |w| ==> !Overdue(w[k], age))
  {
    if w == [] || !Overdue(w[0], age) then 0 else 1 + LeadingOverdue(w[1..], age)
  }

  /** What one expiry leaves: the leading overdue packets go, and one more. */
  function Expired(w: seq<AudioPacket>, age: Timespec): seq<AudioPacket> {
    var k := LeadingOverdue(w, age);
    if k + 1 >= |w| then [] else w[k + 1..]
  }

  function Expire(s: Stream, clients: nat, ctime: Timespec, bufferms: u16): Stream
    requires Normal(ctime)
  {
    if clients == 0 then s else s.(window := Expired(s.window, SubMs(ctime, bufferms)))
  }

  /** The first kept packet with the number asked for. */
  function Find(w: seq<AudioPacket>, nonce: u32): Option<Bytes> {
    if w == [] then None
    else if w[0].nonce == nonce then Some(w[0].data)
    else Find(w[1..], nonce)
  }

  // ----- What they mean

  /** The chunks sent so far, in order: the i-th went out under number i. */
  type History = seq<PcmChunk>

  ghost predicate Kept(ap: AudioPacket, n: nat, bufferms: u16, sent: History) {
    n < |sent| < 0x8000_0000 && sent[n].Sized() && ap == AudioPacket(n, AssembleAudio(n, bufferms, sent[n]))
  }

  /** The window is the contiguous ascending range of numbers that ends just below the next one, each
      with the bytes that were first sent under it. */
  ghost predicate WindowInv(s: Stream, bufferms: u16, sent: History) {
    && |sent| < 0x8000_0000 && s.nonce == |sent| && |s.window| <= |sent|
    && forall i :: 0 <= i < |s.window| ==> Kept(s.window[i], |sent| - |s.window| + i, bufferms, sent)
  }

  lemma SendKeepsWindow(s: Stream, bufferms: u16, sent: History, c: PcmChunk)
    requires WindowInv(s, bufferms, sent) && c.Sized() && |sent| + 1 < 0x8000_0000
    ensures WindowInv(SendAudio(s, bufferms, c).0, bufferms, sent + [c])
    ensures SendAudio(s, bufferms, c).1 == AssembleAudio(|sent|, bufferms, c)
  {
    hide AssembleAudio;
    var ap := AudioPacket(|sent|, AssembleAudio(|sent|, bufferms, c));
    var w := s.window + [ap];
    assert SendAudio(s, bufferms, c) == (Stream(|sent| + 1, w), ap.data);
    forall i | 0 <= i < |w| ensures Kept(w[i], |sent| + 1 - |w| + i, bufferms, sent + [c]) {
      if i < |s.window| { assert Kept(s.window[i], |sent| - |s.window| + i, bufferms, sent); }
    }
  }

  lemma SuffixKeepsWindow(s: Stream, d: nat, bufferms: u16, sent: History)
    requires WindowInv(s, bufferms, sent) && d <= |s.window|
    ensures WindowInv(s.(window := s.window[d..]), bufferms, sent)
  {
    var w := s.window[d..];
    forall i | 0 <= i < |w| ensures Kept(w[i], |sent| - |w| + i, bufferms, sent) {
      assert Kept(s.window[d + i], |sent| - |s.window| + (d + i), bufferms, sent);
    }
  }

  lemma ExpireKeepsWindow(s: Stream, bufferms: u16, sent: History, clients: nat, ctime: Timespec)
    requires WindowInv(s, bufferms, sent) && Normal(ctime)
    ensures WindowInv(Expire(s, clients, ctime, bufferms), bufferms, sent)
  {
    hide Expired, SubMs, Kept;
    if clients > 0 && s.window != [] {
      var age := SubMs(ctime, bufferms);
      ExpiredExactly(s.window, age);
      SuffixKeepsWindow(s, |s.window| - |Expired(s.window, age)|, bufferms, sent);
    } else if clients > 0 {
      NothingToExpire(SubMs(ctime, bufferms));
    }
  }

  lemma NothingToExpire(age: Timespec)
    ensures Expired([], age) == []
  {
  }

  /** One expiry removes everything, or all the leading overdue packets and exactly one that was not
      overdue. */
  lemma ExpiredExactly(w: seq<AudioPacket>, age: Timespec)
    requires w != []
    ensures var k := |w| - |Expired(w, age)|;
      && k > 0 && Expired(w, age) == w[k..]
      && (forall i :: 0 <= i < k - 1 ==> Overdue(w[i], age))
      && (k == |w| || !Overdue(w[k - 1], age))
  {
  }

  /** The nanoseconds of all play times are below a second. */
  ghost predicate Normalised(sent: History) {
    forall i {:trigger sent[i]} :: 0 <= i < |sent| ==> sent[i].playNsec < BILLION
  }

  lemma OverdueExactly(ap: AudioPacket, n: nat, bufferms: u16, sent: History, ctime: Timespec)
    requires Kept(ap, n, bufferms, sent) && Normalised(sent) && Normal(ctime)
    ensures Overdue(ap, SubMs(ctime, bufferms)) <==> Ns(sent[n].PlayAt()) < Abs(Ns(ctime) - bufferms * MILLION)
  {
    hide AssembleAudio, ParseAudio;
    AudioRoundTrip(n, bufferms, sent[n]);
    CmpIsIntegerOrder(SubMs(ctime, bufferms), sent[n].PlayAt());
  }

  /** What one expiry does, in terms of the chunks sent.  Without clients, nothing.  Otherwise packets go
      from the front of the window: all that were to be played longer ago than the length of the buffer
      and come before any other, and then one that was not, if there is one.  (Closer to the epoch than
      the length of the buffer, the distance of the two counts.) */
  lemma ExpiryExactly(s: Stream, bufferms: u16, sent: History, clients: nat, ctime: Timespec)
    requires WindowInv(s, bufferms, sent) && Normalised(sent) && Normal(ctime)
    ensures var s' := Expire(s, clients, ctime, bufferms);
      && (clients == 0 || s.window == [] ==> s' == s)
      && (clients > 0 && s.window != [] ==>
            var k, first := |s.window| - |s'.window|, |sent| - |s.window|;
            && k > 0 && s' == s.(window := s.window[k..])
            && (forall i {:trigger sent[i]} :: first <= i < first + k - 1 ==>
                  Ns(sent[i].PlayAt()) < Abs(Ns(ctime) - bufferms * MILLION))
            && (k < |s.window| ==> Ns(sent[first + k - 1].PlayAt()) >= Abs(Ns(ctime) - bufferms * MILLION)))
  {
    hide Expired, SubMs, Kept, Overdue;
    if clients > 0 && s.window != [] {
      var age := SubMs(ctime, bufferms);
      ExpiredExactly(s.window, age);
      forall i: nat | i < |s.window|
        ensures Overdue(s.window[i], age)
           <==> Ns(sent[|sent| - |s.window| + i].PlayAt()) < Abs(Ns(ctime) - bufferms * MILLION)
      {
        OverdueExactly(s.window[i], |sent| - |s.window| + i, bufferms, sent, ctime);
      }
      var first := |sent| - |s.window|;
      forall i: nat | first <= i < |sent|
        ensures Overdue(s.window[i - first], age) <==> Ns(sent[i].PlayAt()) < Abs(Ns(ctime) - bufferms * MILLION)
      {
        assert first + (i - first) == i;
      }
    } else if clients > 0 {
      NothingToExpire(SubMs(ctime, bufferms));
    }
  }

  /** A request succeeds exactly for the numbers in the window, and then with the original bytes. */
  lemma {:induction false} FindExactly(w: seq<AudioPacket>, first: nat, bufferms: u16, sent: History, nonce: u32)
    requires first + |w| <= |sent|
    requires forall i :: 0 <= i < |w| ==> Kept(w[i], first + i, bufferms, sent)
    ensures Find(w, nonce).Some? <==> first <= nonce < first + |w|
    ensures Find(w, nonce).Some? ==>
      sent[nonce].Sized() && Find(w, nonce).value == AssembleAudio(nonce, bufferms, sent[nonce])
  {
    if w != [] {
      assert Kept(w[0], first, bufferms, sent);
      if w[0].nonce != nonce {
        forall i | 0 <= i < |w[1..]| ensures Kept(w[1..][i], first + 1 + i, bufferms, sent) {
          assert Kept(w[i + 1], first + (i + 1), bufferms, sent);
        }
        FindExactly(w[1..], first + 1, bufferms, sent, nonce);
      }
    }
  }

  lemma RequestsServedExactly(s: Stream, bufferms: u16, sent: History, nonce: u32)
    requires WindowInv(s, bufferms, sent)
    ensures Find(s.window, nonce).Some? <==> s.nonce - |s.window| <= nonce < s.nonce
    ensures Find(s.window, nonce).Some? ==>
      sent[nonce].Sized() && Find(s.window, nonce).value == AssembleAudio(nonce, bufferms, sent[nonce])
  {
    FindExactly(s.window, |sent| - |s.window|, bufferms, sent, nonce);
  }

  // ----- The operations on the stream's own fields

  class AudioStream {
    var nonce: u32
    var packetBuffer: seq<AudioPacket>
    var clients: nat
    const bufferms: u16

    constructor (bufferms: u16)
      ensures State() == Stream(0, []) && clients == 0 && this.bufferms == bufferms
    {
      nonce, packetBuffer, clients := 0, [], 0;
      this.bufferms := bufferms;
    }

    function State(): Stream
      reads this
    {
      Stream(nonce, packetBuffer)
    }

    /** Writes the packet field by field behind a moving offset and keeps a copy. */
    method Send(c: PcmChunk) returns (packet: Bytes)
      requires c.Sized()
      modifies this`nonce, this`packetBuffer
      ensures (State(), packet) == SendAudio(old(State()), bufferms, c)
    {
      var (n, counter) := GetNonce(nonce);
      nonce := counter;
      packet := AssembleHeader(Header(PACKET_FORMAT_VERSION, AUDIO_DATA, 0, n));
      packet := packet + Be16(bufferms);
      var header := |packet|;
      packet := packet + Be32(c.playSec);
      packet := packet + Be32(c.playNsec);
      packet := packet + Be32(c.samples);
      packet := packet + [c.frameSize];
      packet := packet + [c.channels];
      packet := packet + Be16(|c.data|);
      packet := packet + [c.codec];
      packet := packet + c.data;
      assert packet[header..] == AssembleChunk(c);
      assert packet == AssembleAudio(n, bufferms, c);
      packetBuffer := packetBuffer + [AudioPacket(n, packet)];
    }

    method RemoveOldAudioData(ctime: Timespec)
      requires Normal(ctime)
      modifies this`packetBuffer
      ensures State() == Expire(old(State()), clients, ctime, bufferms)
    {
      if clients == 0 { return; }
      if |packetBuffer| == 0 { return; }
      var age := SubMs(ctime, bufferms);
      var more := true;
      while more
        invariant if more then packetBuffer != [] && Expired(packetBuffer, age) == Expired(old(packetBuffer), age)
                  else packetBuffer == Expired(old(packetBuffer), age)
        decreases more, |packetBuffer|
      {
        var playAt := PlayAt(packetBuffer[0]);
        ghost var w := packetBuffer;
        packetBuffer := packetBuffer[1..];  // always remove the oldest element
        more := |packetBuffer| > 0 && Cmp(age, playAt) > 0;
        ExpiredStep(w, age);
      }
    }

    method HandleRequest(wanted: u32) returns (resent: Option<Bytes>)
      ensures resent == Find(packetBuffer, wanted)
    {
      var i := 0;
      while i < |packetBuffer|
        invariant 0 <= i <= |packetBuffer|
        invariant Find(packetBuffer, wanted) == Find(packetBuffer[i..], wanted)
      {
        if packetBuffer[i].nonce == wanted {
          return Some(packetBuffer[i].data);
        }
        i := i + 1;
      }
      resent := None;
    }
  }

  lemma ExpiredStep(w: seq<AudioPacket>, age: Timespec)
    requires w != []
    ensures Expired(w, age) == if |w| > 1 && Overdue(w[0], age) then Expired(w[1..], age) else w[1..]
  {
    if |w| > 1 && Overdue(w[0], age) {
      var k := LeadingOverdue(w[1..], age);
      assert LeadingOverdue(w, age) == k + 1;
      if k + 1 < |w[1..]| { assert w[1..][k + 1..] == w[k + 2..]; }
    }
  }
}
