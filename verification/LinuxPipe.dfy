/** Sending and receiving messages over a Linux stream socket whose calls may move only part
    of the data, be interrupted, or fail. */
module LinuxPipe {
  import opened Wrappers
  import opened Framing

  /** The result of `send` or `read`: a positive count, EINTR, or anything else. */
  datatype IoResult = Moved(count: nat) | Interrupted | Failed

  /** One direction of a connected socket. `history` is everything the kernel ever took from
      the writer, `taken` how much of it the reader got. Either side may act while the other
      is inside a call. */
  class Channel {
    var history: seq<byte>
    var taken: nat
    var closed: bool       // the writer's end is gone
    var broken: bool       // the reader was given an error other than EINTR
    var refused: bool      // so was the writer
    var interrupts: nat    // signals still to come

    predicate Valid()
      reads this
    {
      taken <= |history|
    }

    /** What the reader has been given, over all messages. */
    function Seen(): seq<byte>
      requires Valid()
      reads this
    {
      history[..taken]
    }

    constructor (interrupts: nat)
      ensures Valid() && history == [] && taken == 0 && !closed && !broken && !refused
    {
      history, taken, closed, broken, refused := [], 0, false, false, false;
      this.interrupts := interrupts;
    }

    /** The reader at work while the writer is scheduled out. */
    method ReaderTurn()
      requires Valid()
      modifies this`taken
      ensures Valid() && taken >= old(taken)
    {
      var n: nat :| true;
      taken := if n <= |history| - taken then taken + n else |history|;
    }

    /** The writer at work while the reader is scheduled out: it may send more, then close. */
    method WriterTurn()
      requires Valid()
      modifies this`history, this`closed
      ensures Valid() && old(history) <= history
      ensures old(closed) ==> closed && history == old(history)
    {
      if !closed {
        var more: seq<byte> :| true;
        history := history + more;
        var closing: bool := *;
        closed := closing;
      }
    }

    /** `send(fd, p, n)` on the `n` bytes starting at `data[p]`. */
    method Send(data: seq<byte>, p: nat, n: nat) returns (r: IoResult)
      requires Valid() && p + n == |data| && n > 0
      modifies this`history, this`taken, this`interrupts, this`refused
      ensures Valid() && taken >= old(taken) && refused == (old(refused) || r.Failed?)
      ensures r.Moved? ==> 0 < r.count <= n && history == old(history) + data[p..p + r.count]
      ensures !r.Moved? ==> history == old(history)
      ensures interrupts + (if r.Interrupted? then 1 else 0) == old(interrupts)
    {
      ReaderTurn();
      var interrupted: bool := *;
      var failed: bool := *;
      if interrupted && interrupts > 0 {
        interrupts := interrupts - 1;
        return Interrupted;
      }
      if failed {
        refused := true;
        return Failed;
      }
      var count: nat :| 0 < count <= n;
      history := history + data[p..p + count];
      return Moved(count);
    }

    /** `read(fd, p, n)` into `data[p..]`. A failure is an error, or the end of the stream. */
    method Read(data: array<byte>, p: nat, n: nat) returns (r: IoResult, ghost m: seq<byte>)
      requires Valid() && p + n <= data.Length && n > 0
      modifies this, data
      ensures Valid() && Seen() == old(Seen()) + m
      ensures interrupts + (if r.Interrupted? then 1 else 0) == old(interrupts)
      ensures r.Moved? ==> 0 < r.count == |m| <= n && data[..p + |m|] == old(data[..p]) + m
      ensures !r.Moved? ==> m == [] && data[..p] == old(data[..p])
      ensures r.Failed? ==> broken || (closed && Seen() == history)
    {
      WriterTurn();
      m := [];
      var interrupted: bool := *;
      var failed: bool := *;
      if interrupted && interrupts > 0 {
        interrupts := interrupts - 1;
        return Interrupted, [];
      }
      if failed || (taken == |history| && !closed) {
        broken := true;
        return Failed, [];
      }
      if taken == |history| {
        return Failed, [];
      }
      var count: nat :| 0 < count <= n && count <= |history| - taken;
      var chunk := history[taken..taken + count];
      forall i | 0 <= i < count {
        data[p + i] := chunk[i];
      }
      assert data[..p + count] == old(data[..p]) + chunk;
      assert history[..taken + count] == history[..taken] + chunk;
      taken := taken + count;
      return Moved(count), chunk;
    }

    method WriteAll(data: seq<byte>) returns (ok: bool)
      requires Valid()
      modifies this`history, this`taken, this`interrupts, this`refused
      ensures Valid() && taken >= old(taken) && interrupts <= old(interrupts)
      ensures ok ==> history == old(history) + data
      ensures !ok ==> refused && exists part :: part < data && history == old(history) + part
    {
      var p: nat, n: nat := 0, |data|;
      while n != 0
        invariant Valid() && p + n == |data| && taken >= old(taken) && interrupts <= old(interrupts)
        invariant history == old(history) + data[..p]
        decreases n, interrupts
      {
        var r := Send(data, p, n);
        if r.Moved? {
          assert data[..p] + data[p..p + r.count] == data[..p + r.count];
          p := p + r.count;
          n := n - r.count;
        } else if r.Interrupted? {
          continue;
        } else {
          assert data[..p] < data;
          return false;
        }
      }
      assert data[..p] == data;
      return true;
    }

    method ReadAll(data: array<byte>, size: nat) returns (ok: bool, ghost part: seq<byte>)
      requires Valid() && size == data.Length
      modifies this, data
      ensures Valid() && Seen() == old(Seen()) + part && interrupts <= old(interrupts)
      ensures ok ==> part == data[..]
      ensures !ok ==> |part| < size
      ensures !ok ==> broken || (closed && Seen() == history)
    {
      var p: nat, n: nat := 0, size;
      part := [];
      while n != 0
        invariant Valid() && Seen() == old(Seen()) + part && interrupts <= old(interrupts)
        invariant p + n == size && part == data[..p]
        decreases n, interrupts
      {
        var r, m := Read(data, p, n);
        part := part + m;
        if r.Moved? {
          p := p + r.count;
          n := n - r.count;
        } else if r.Interrupted? {
          continue;
        } else {
          return false, part;
        }
      }
      assert data[..p] == data[..];
      return true, part;
    }

    /** A message that is not sent leaves a strict prefix of its frame, which the receiver can
        never mistake for a message; one that is too long leaves nothing at all. */
    method SendMessage(payload: Payload) returns (ok: bool)
      requires Valid()
      modifies this`history, this`taken, this`interrupts, this`refused
      ensures Valid() && taken >= old(taken)
      ensures ok ==> Fits(payload) && history == old(history) + Frame(payload)
      ensures !ok && Fits(payload) ==> exists part :: part < Frame(payload) && history == old(history) + part
      ensures !Fits(payload) ==> !ok && history == old(history)
      ensures !ok ==> !Fits(payload) || refused
    {
      if |payload| > MAX_PAYLOAD {
        return false;
      }
      var length := Encode32(|payload|);
      ok := WriteAll(length);
      if !ok {
        ghost var part :| part < length && history == old(history) + part;
        assert part < Frame(payload);
        return;
      }
      assert history == old(history) + length;
      ok := WriteAll(payload);
      if ok {
        assert history == old(history) + Frame(payload);
      } else {
        ghost var part :| part < payload && history == old(history) + length + part;
        assert length + part < Frame(payload) && history == old(history) + (length + part);
      }
    }

    /** A received message is exactly one frame of the stream; a failure leaves the reader
        inside a frame. */
    method RecvMessage() returns (message: Option<Payload>, ghost part: seq<byte>)
      requires Valid()
      modifies this
      ensures Valid() && Seen() == old(Seen()) + part
      ensures message.Some? ==> Fits(message.value) && part == Frame(message.value)
      ensures message.None? ==> Incomplete(part)
      ensures message.None? ==> broken || (closed && Seen() == history)
    {
      var header := new byte[HEADER_SIZE];
      var ok;
      ok, part := ReadAll(header, HEADER_SIZE);
      if !ok {
        return None, part;
      }
      var n := Decode32(header[..]);
      EncodeDecode32(part);
      var payload := new byte[n];
      if n != 0 {
        ghost var body;
        ok, body := ReadAll(payload, n);
        assert (part + body)[..HEADER_SIZE] == part;
        part := part + body;
        if !ok {
          return None, part;
        }
      } else {
        assert part + payload[..] == part;
      }
      return Some(payload[..]), part;
    }
  }

  /** Sending a list of messages until one fails: the stream is the messages sent, and after a
      failure a strict prefix of the next frame. */
  method SendAll(channel: Channel, payloads: seq<Payload>) returns (sent: nat, ghost part: seq<byte>)
    requires channel.Valid() && AllFit(payloads)
    modifies channel
    ensures channel.Valid() && sent <= |payloads|
    ensures channel.history == old(channel.history) + Stream(payloads[..sent]) + part
    ensures if sent == |payloads| then part == [] else channel.refused && part < Frame(payloads[sent])
    ensures Deframe(channel.history[|old(channel.history)|..]) == payloads[..sent]
  {
    sent, part := 0, [];
    ghost var start := channel.history;
    while sent < |payloads|
      invariant channel.Valid() && sent <= |payloads| && part == []
      invariant channel.history == start + Stream(payloads[..sent])
    {
      var ok := channel.SendMessage(payloads[sent]);
      if !ok {
        part :| part < Frame(payloads[sent]) && channel.history == start + Stream(payloads[..sent]) + part;
        StrictPrefixIncomplete(part, payloads[sent]);
        SentSoFar(start, payloads[..sent], part);
        return;
      }
      StreamStep(payloads, sent);
      sent := sent + 1;
    }
    SentSoFar(start, payloads[..sent], []);
  }

  /** Receiving up to `limit` messages, stopping at the first failure. */
  method RecvUpTo(channel: Channel, limit: nat) returns (messages: seq<Payload>, ended: bool)
    requires channel.Valid()
    modifies channel
    ensures channel.Valid() && old(channel.taken) <= channel.taken <= |channel.history|
    ensures |messages| <= limit && (ended || |messages| == limit)
    // In order and byte for byte, all that the bytes read make; and all that were written if
    // the stream ended without an error.
    ensures messages == Deframe(channel.Seen()[old(channel.taken)..])
    ensures messages <= Deframe(channel.history[old(channel.taken)..])
    ensures ended && !channel.broken ==> channel.closed && channel.Seen() == channel.history
  {
    messages, ended := [], false;
    ghost var start := channel.Seen();
    assert start + Stream([]) == start;
    while |messages| < limit
      invariant channel.Valid() && AllFit(messages) && |messages| <= limit
      invariant channel.Seen() == start + Stream(messages)
      decreases limit - |messages|
    {
      var message, part := channel.RecvMessage();
      if message.None? {
        DecodedSoFar(start, messages, part, channel.Seen());
        DecodedSoFar(start, messages, part, channel.history);
        return messages, true;
      }
      StreamSnoc(messages, message.value);
      messages := messages + [message.value];
    }
    DecodedSoFar(start, messages, [], channel.Seen());
    DecodedSoFar(start, messages, [], channel.history);
  }
}
