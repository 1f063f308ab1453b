/** The wire format shared by both pipes: a native 32-bit length, then that many bytes.
    Everything here is about byte strings; the loops that move them are in LinuxPipe and
    WindowsPipe. */
module Framing {
  newtype byte = x: int | 0 <= x < 256

  const HEADER_SIZE: nat := 4
  const MAX_PAYLOAD: nat := 0xFFFF_FFFF

  /** The four bytes of a `uint32_t` in memory, least significant first. */
  function Encode32(n: nat): (b: seq<byte>)
    requires n <= MAX_PAYLOAD
    ensures |b| == HEADER_SIZE
  {
    [(n % 256) as byte, (n / 256 % 256) as byte, (n / 65536 % 256) as byte, (n / 16777216) as byte]
  }

  function Decode32(b: seq<byte>): (n: nat)
    requires |b| == HEADER_SIZE
    ensures n <= MAX_PAYLOAD
  {
    b[0] as nat + 256 * b[1] as nat + 65536 * b[2] as nat + 16777216 * b[3] as nat
  }

  lemma DecodeEncode32(n: nat)
    requires n <= MAX_PAYLOAD
    ensures Decode32(Encode32(n)) == n
  {
    assert n / 256 == n / 65536 * 256 + n / 256 % 256;
    assert n / 65536 == n / 16777216 * 256 + n / 65536 % 256;
  }

  lemma EncodeDecode32(b: seq<byte>)
    requires |b| == HEADER_SIZE
    ensures Encode32(Decode32(b)) == b
  {
    var (b0, b1, b2, b3) := (b[0] as nat, b[1] as nat, b[2] as nat, b[3] as nat);
    var n := Decode32(b);
    assert n == b0 + 256 * (b1 + 256 * (b2 + 256 * b3));
    assert n / 256 == b1 + 256 * (b2 + 256 * b3);
    assert n / 65536 == b2 + 256 * b3;
    assert n / 16777216 == b3;
    assert Encode32(n)[3] == b[3];
  }

  type Payload = seq<byte>

  predicate Fits(p: Payload) {
    |p| <= MAX_PAYLOAD
  }

  predicate AllFit(ps: seq<Payload>) {
    forall p <- ps :: Fits(p)
  }

  /** What one successful SendMessage puts on the pipe. */
  function Frame(p: Payload): (f: seq<byte>)
    requires Fits(p)
    ensures |f| == HEADER_SIZE + |p|
    ensures f[..HEADER_SIZE] == Encode32(|p|) && f[HEADER_SIZE..] == p
  {
    Encode32(|p|) + p
  }

  function Stream(ps: seq<Payload>): seq<byte>
    requires AllFit(ps)
  {
    if ps == [] then [] else Frame(ps[0]) + Stream(ps[1..])
  }

  /** The receiver's view of one message: `got` is what RecvMessage has read of it so far. */
  function FrameLength(got: seq<byte>): (n: nat)
    requires |got| >= HEADER_SIZE
  {
    HEADER_SIZE + Decode32(got[..HEADER_SIZE])
  }

  predicate Complete(got: seq<byte>) {
    |got| >= HEADER_SIZE && |got| == FrameLength(got)
  }

  predicate Incomplete(got: seq<byte>) {
    |got| < HEADER_SIZE || |got| < FrameLength(got)
  }

  /** How many bytes the read in progress still asks for: first the rest of the header,
      then the rest of the body. */
  function Need(got: seq<byte>): (n: nat)
    requires Incomplete(got)
    ensures n > 0
  {
    if |got| < HEADER_SIZE then HEADER_SIZE - |got| else FrameLength(got) - |got|
  }

  /** Within one part of a message, what is read is no longer asked for. */
  lemma NeedAfter(got: seq<byte>, more: seq<byte>)
    requires Incomplete(got) && |more| < Need(got)
    ensures Incomplete(got + more) && Need(got + more) == Need(got) - |more|
  {
    if |got| >= HEADER_SIZE {
      assert (got + more)[..HEADER_SIZE] == got[..HEADER_SIZE];
    }
  }

  lemma CompleteIsFrame(got: seq<byte>)
    ensures Complete(got) <==> exists p: Payload :: Fits(p) && got == Frame(p)
    ensures Complete(got) ==> Fits(got[HEADER_SIZE..]) && got == Frame(got[HEADER_SIZE..])
  {
    if Complete(got) {
      EncodeDecode32(got[..HEADER_SIZE]);
      assert got == Frame(got[HEADER_SIZE..]) by {
        assert got == got[..HEADER_SIZE] + got[HEADER_SIZE..];
      }
    }
    if p: Payload :| Fits(p) && got == Frame(p) {
      DecodeEncode32(|p|);
    }
  }

  /** The states a receiver can be stuck in are exactly the strict prefixes of frames. */
  lemma IncompleteIsStrictPrefix(got: seq<byte>)
    ensures Incomplete(got) <==> exists p: Payload :: Fits(p) && got < Frame(p)
  {
    if Incomplete(got) {
      var p := Extension(got);
    }
    if p: Payload :| Fits(p) && got < Frame(p) {
      StrictPrefixIncomplete(got, p);
    }
  }

  lemma StrictPrefixIncomplete(got: seq<byte>, p: Payload)
    requires Fits(p) && got < Frame(p)
    ensures Incomplete(got)
    ensures |got| >= HEADER_SIZE ==> FrameLength(got) == |Frame(p)|
  {
    if |got| >= HEADER_SIZE {
      assert got[..HEADER_SIZE] == Frame(p)[..HEADER_SIZE];
      DecodeEncode32(|p|);
    }
  }

  lemma Extension(got: seq<byte>) returns (p: Payload)
    requires Incomplete(got)
    ensures Fits(p) && got < Frame(p)
  {
    if |got| >= HEADER_SIZE {
      var n := Decode32(got[..HEADER_SIZE]);
      EncodeDecode32(got[..HEADER_SIZE]);
      p := got[HEADER_SIZE..] + seq(n - (|got| - HEADER_SIZE), _ => 0 as byte);
    } else {
      // Pad the header with zeros and give the body the length that spells.
      var header := got + seq(HEADER_SIZE - |got|, _ => 0 as byte);
      EncodeDecode32(header);
      p := seq(Decode32(header), _ => 0 as byte);
    }
  }

  /** Splitting a byte string into whole frames from the left. */
  function Deframe(s: seq<byte>): (ps: seq<Payload>)
    ensures AllFit(ps)
  {
    if Incomplete(s) then [] else
      [s[HEADER_SIZE..FrameLength(s)]] + Deframe(s[FrameLength(s)..])
  }

  /** What is left after the whole frames. */
  function Leftover(s: seq<byte>): (t: seq<byte>)
    ensures Incomplete(t)
  {
    if Incomplete(s) then s else Leftover(s[FrameLength(s)..])
  }

  lemma FrameThen(p: Payload, t: seq<byte>)
    requires Fits(p)
    ensures !Incomplete(Frame(p) + t) && FrameLength(Frame(p) + t) == |Frame(p)|
    ensures Deframe(Frame(p) + t) == [p] + Deframe(t)
    ensures Leftover(Frame(p) + t) == Leftover(t)
  {
    var s := Frame(p) + t;
    assert s[..HEADER_SIZE] == Encode32(|p|);
    DecodeEncode32(|p|);
    assert s[HEADER_SIZE..FrameLength(s)] == p;
    assert s[FrameLength(s)..] == t;
  }

  /** Frames are prefix-free: k whole frames and then a cut-off one read back as exactly
      the k messages, with the cut-off part left over. */
  lemma {:induction false} DeframeStream(ps: seq<Payload>, t: seq<byte>)
    requires AllFit(ps) && Incomplete(t)
    ensures Deframe(Stream(ps) + t) == ps
    ensures Leftover(Stream(ps) + t) == t
  {
    if ps == [] {
      assert Stream(ps) + t == t;
    } else {
      DeframeStream(ps[1..], t);
      assert Stream(ps) + t == Frame(ps[0]) + (Stream(ps[1..]) + t);
      FrameThen(ps[0], Stream(ps[1..]) + t);
    }
  }

  /** Conversely every byte string is whole frames followed by a strict prefix of one. */
  lemma {:induction false} StreamDeframe(s: seq<byte>)
    ensures s == Stream(Deframe(s)) + Leftover(s)
  {
    if !Incomplete(s) {
      var n := FrameLength(s);
      StreamDeframe(s[n..]);
      assert s[..n][..HEADER_SIZE] == s[..HEADER_SIZE];
      CompleteIsFrame(s[..n]);
      assert s[..n][HEADER_SIZE..] == s[HEADER_SIZE..n];
      assert s == s[..n] + s[n..];
      assert Deframe(s)[1..] == Deframe(s[n..]);
    }
  }

  lemma PrefixFree(p: Payload, q: Payload)
    requires Fits(p) && Fits(q) && Frame(p) <= Frame(q)
    ensures p == q
  {
    FrameThen(p, Frame(q)[|Frame(p)|..]);
    assert Frame(p) + Frame(q)[|Frame(p)|..] == Frame(q);
    FrameThen(q, []);
    assert Frame(q) + [] == Frame(q);
  }

  lemma StreamInjective(ps: seq<Payload>, qs: seq<Payload>)
    requires AllFit(ps) && AllFit(qs) && Stream(ps) == Stream(qs)
    ensures ps == qs
  {
    DeframeStream(ps, []);
    DeframeStream(qs, []);
  }

  lemma {:induction false} StreamAppend(ps: seq<Payload>, qs: seq<Payload>)
    requires AllFit(ps) && AllFit(qs)
    ensures AllFit(ps + qs) && Stream(ps + qs) == Stream(ps) + Stream(qs)
  {
    if ps == [] {
      assert ps + qs == qs;
    } else {
      StreamAppend(ps[1..], qs);
      assert (ps + qs)[1..] == ps[1..] + qs;
    }
  }

  /** Seeing less of a stream never changes the messages already seen. */
  lemma {:induction false} DeframeMonotone(s: seq<byte>, t: seq<byte>)
    requires s <= t
    ensures Deframe(s) <= Deframe(t)
    ensures s == t || |s| < |t|
  {
    if !Incomplete(s) {
      var n := FrameLength(s);
      assert t[..HEADER_SIZE] == s[..HEADER_SIZE];
      assert s[HEADER_SIZE..n] == t[HEADER_SIZE..n];
      assert s[n..] <= t[n..];
      DeframeMonotone(s[n..], t[n..]);
    }
  }

  // ------------------------------------------------------------------ one end and the other

  lemma StreamSnoc(messages: seq<Payload>, message: Payload)
    requires AllFit(messages) && Fits(message)
    ensures AllFit(messages + [message]) && Stream(messages + [message]) == Stream(messages) + Frame(message)
  {
    StreamAppend(messages, [message]);
    assert Stream([message]) == Frame(message);
  }

  lemma StreamStep(payloads: seq<Payload>, sent: nat)
    requires AllFit(payloads) && sent < |payloads|
    ensures Stream(payloads[..sent + 1]) == Stream(payloads[..sent]) + Frame(payloads[sent])
  {
    assert payloads[..sent + 1] == payloads[..sent] + [payloads[sent]];
    StreamSnoc(payloads[..sent], payloads[sent]);
  }

  lemma SentSoFar(start: seq<byte>, sent: seq<Payload>, part: seq<byte>)
    requires AllFit(sent) && Incomplete(part)
    ensures Deframe((start + Stream(sent) + part)[|start|..]) == sent
  {
    AfterStart(start, Stream(sent), part);
    DeframeStream(sent, part);
  }

  lemma AfterStart(start: seq<byte>, s: seq<byte>, t: seq<byte>)
    ensures (start + s + t)[|start|..] == s + t
  {
  }

  /** What has been decoded of a stream that may go on. */
  lemma DecodedSoFar(start: seq<byte>, messages: seq<Payload>, part: seq<byte>, history: seq<byte>)
    requires AllFit(messages) && Incomplete(part)
    requires start + Stream(messages) + part <= history
    ensures messages <= Deframe(history[|start|..])
    ensures history == start + Stream(messages) + part ==> messages == Deframe(history[|start|..])
  {
    AfterStart(start, Stream(messages), part);
    DeframeStream(messages, part);
    assert Stream(messages) + part <= history[|start|..];
    DeframeMonotone(Stream(messages) + part, history[|start|..]);
  }

  /** How many whole messages there are when `sent` were sent and `part` is left of the next. */
  function WholeOnes(payloads: seq<Payload>, sent: nat, part: seq<byte>): nat
    requires AllFit(payloads) && sent <= |payloads|
  {
    if sent < |payloads| && part == Frame(payloads[sent]) then sent + 1 else sent
  }

  /** Both ends together. A sender that starts at `start` has put out the first `sent` of its
      payloads and, if one failed, some prefix of the next frame; the reader's end has come as
      far as `atReader`. What it received is a prefix of what was sent, in order and byte for
      byte, and all of it if the reader came as far as the writer. */
  lemma ReceivedAreSent(start: seq<byte>, payloads: seq<Payload>, sent: nat, part: seq<byte>,
                        atWriter: seq<byte>, atReader: seq<byte>, messages: seq<Payload>)
    requires AllFit(payloads) && sent <= |payloads|
    requires if sent == |payloads| then part == [] else part <= Frame(payloads[sent])
    requires atWriter == start + Stream(payloads[..sent]) + part
    requires start <= atReader <= atWriter && messages == Deframe(atReader[|start|..])
    ensures messages <= payloads[..WholeOnes(payloads, sent, part)]
    ensures atReader == atWriter ==> messages == payloads[..WholeOnes(payloads, sent, part)]
  {
    if WholeOnes(payloads, sent, part) > sent {
      StreamStep(payloads, sent);
      assert start + Stream(payloads[..sent]) + part == start + (Stream(payloads[..sent]) + part) + [];
      ReceivedOf(start, payloads[..sent + 1], [], atWriter, atReader);
    } else {
      if sent < |payloads| {
        StrictPrefixIncomplete(part, payloads[sent]);
      }
      ReceivedOf(start, payloads[..sent], part, atWriter, atReader);
    }
  }

  lemma ReceivedOf(start: seq<byte>, whole: seq<Payload>, part: seq<byte>, atWriter: seq<byte>, atReader: seq<byte>)
    requires AllFit(whole) && Incomplete(part)
    requires atWriter == start + Stream(whole) + part && start <= atReader <= atWriter
    ensures Deframe(atReader[|start|..]) <= whole
    ensures atReader == atWriter ==> Deframe(atReader[|start|..]) == whole
  {
    SentSoFar(start, whole, part);
    assert atReader[|start|..] <= atWriter[|start|..];
    DeframeMonotone(atReader[|start|..], atWriter[|start|..]);
  }
}
