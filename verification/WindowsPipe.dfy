/** Sending and receiving messages over a Windows pipe of message type: one write makes one pipe
    message. The server end also reads in message mode, where a read that asks for less than
    the message at the head reports "more data", which the program treats as failure. The
    client end reads in byte mode, where a read takes bytes from as many messages as it likes. */
module WindowsPipe {
  import opened Wrappers
  import opened Framing
  import opened WindowsTypes

  // ------------------------------------------------------------------ places in a frame

  datatype Stage = Header(got: seq<byte>) | Body(left: nat)

  /** Where in a frame one is: the header with some of its bytes, or so many bytes before the
      end of the body. */
  type Place = p: Stage | match p { case Header(got) => |got| < HEADER_SIZE case Body(left) => left > 0 }
    witness Header([])

  const BOUNDARY: Place := Header([])

  /** What is left of the current part, which is what ReadExact and WriteExact are asked for. */
  function Left(p: Place): (n: nat)
    ensures n > 0
  {
    match p
    case Header(got) => HEADER_SIZE - |got|
    case Body(left) => left
  }

  /** The place `m` further on within the current part. */
  function Advance(p: Place, m: seq<byte>): (q: Place)
    requires |m| <= Left(p)
    ensures |m| < Left(p) ==> Left(q) == Left(p) - |m|
  {
    match p
    case Body(left) => if |m| < left then Body(left - |m|) else BOUNDARY
    case Header(got) =>
      if |m| < Left(p) then Header(got + m)
      else if Decode32(got + m) == 0 then BOUNDARY else Body(Decode32(got + m))
  }

  lemma AdvanceNone(p: Place)
    ensures Advance(p, []) == p
  {
    if p.Header? {
      assert p.got + [] == p.got;
    }
  }

  /** Moving through one part of a frame in two goes is moving through it in one. */
  lemma AdvanceOn(p: Place, r: seq<byte>, m: seq<byte>)
    requires |r| < Left(p) && |r| + |m| <= Left(p)
    ensures Advance(Advance(p, r), m) == Advance(p, r + m)
  {
    if p.Header? {
      assert p.got + r + m == p.got + (r + m);
    }
  }

  /** A header, and after it a body of the length it says, lead from one frame to the next. */
  lemma FrameAdvance(header: seq<byte>, body: seq<byte>)
    requires |header| == HEADER_SIZE && |body| <= Decode32(header)
    ensures Advance(BOUNDARY, header) == if Decode32(header) == 0 then BOUNDARY else Body(Decode32(header))
    ensures |body| < Decode32(header) ==> Incomplete(header + body)
    ensures |body| == Decode32(header) ==> Fits(body) && header + body == Frame(body)
  {
    assert [] + header == header;
    assert (header + body)[..HEADER_SIZE] == header;
    EncodeDecode32(header);
  }

  // ------------------------------------------------------------------ queues

  /** No queued pipe message reaches past the part of a frame in which it begins. */
  predicate Aligned(p: Place, queue: seq<seq<byte>>)
    decreases |queue|
  {
    queue != [] ==> 0 < |queue[0]| <= Left(p) && Aligned(Advance(p, queue[0]), queue[1..])
  }

  /** Where the reader will be once it has read the whole queue: the writer's own place. */
  function After(p: Place, queue: seq<seq<byte>>): Place
    requires Aligned(p, queue)
    decreases |queue|
  {
    if queue == [] then p else After(Advance(p, queue[0]), queue[1..])
  }

  function Flat(queue: seq<seq<byte>>): seq<byte> {
    if queue == [] then [] else queue[0] + Flat(queue[1..])
  }

  lemma {:induction false} AlignedAppend(p: Place, queue: seq<seq<byte>>, m: seq<byte>)
    requires Aligned(p, queue) && 0 < |m| <= Left(After(p, queue))
    ensures Aligned(p, queue + [m])
    ensures After(p, queue + [m]) == Advance(After(p, queue), m)
    decreases |queue|
  {
    if queue == [] {
      assert [] + [m] == [m] && [m][1..] == [];
    } else {
      AlignedAppend(Advance(p, queue[0]), queue[1..], m);
      assert (queue + [m])[1..] == queue[1..] + [m];
    }
  }

  lemma {:induction false} FlatAppend(queue: seq<seq<byte>>, m: seq<byte>)
    ensures Flat(queue + [m]) == Flat(queue) + m
  {
    if queue == [] {
      assert [] + [m] == [m];
    } else {
      FlatAppend(queue[1..], m);
      assert (queue + [m])[1..] == queue[1..] + [m];
    }
  }

  /** Taking only the first bytes of the head message leaves the queue aligned, the writer where
      it was, and the bytes in their order. */
  lemma PartTaken(p: Place, m: seq<byte>, tail: seq<byte>, more: seq<seq<byte>>)
    requires m != [] && tail != [] && |m + tail| <= Left(p) && Aligned(Advance(p, m + tail), more)
    ensures Aligned(Advance(p, m), [tail] + more)
    ensures After(Advance(p, m), [tail] + more) == After(Advance(p, m + tail), more)
    ensures m + Flat([tail] + more) == m + tail + Flat(more)
  {
    AdvanceOn(p, m, tail);
    assert ([tail] + more)[1..] == more;
  }

  // ------------------------------------------------------------------ the pipe

  datatype ReadResult = Read(count: DWORD) | MoreData | NotRead
  /** `Abandoned`: the wait failed, the write was cancelled, and whatever it had moved by then
      was observed and ignored. */
  datatype WriteResult = Wrote(count: DWORD) | NotWritten | Abandoned

  /** One direction of a connected pipe, read in message or in byte mode. */
  class Pipe {
    const messageMode: bool
    var queue: seq<seq<byte>>
    var seen: seq<byte>        // what the reader has been given, over all messages
    var place: Place           // where in a frame the reader is
    ghost var moreData: bool         // some read came upon a longer message
    ghost var writeFailed: bool      // some write failed
    ghost var readFailed: bool       // some read failed
    ghost var unreported: bool       // some write moved all it was given and yet failed

    predicate Valid()
      reads this
    {
      Aligned(place, queue)
    }

    /** Where in a frame the writer is. */
    function WritePlace(): Place
      requires Valid()
      reads this
    {
      After(place, queue)
    }

    /** All bytes ever written. */
    function History(): seq<byte>
      reads this
    {
      seen + Flat(queue)
    }

    constructor (messageMode: bool)
      ensures Valid() && this.messageMode == messageMode && History() == []
      ensures place == BOUNDARY && WritePlace() == BOUNDARY
      ensures !moreData && !writeFailed && !readFailed && !unreported
    {
      this.messageMode, queue, seen, place := messageMode, [], [], BOUNDARY;
      moreData, writeFailed, readFailed, unreported := false, false, false, false;
    }

    /** The pipe message at the head is read as a whole. */
    method Take() returns (m: seq<byte>)
      requires Valid() && queue != []
      modifies this`queue, this`seen, this`place
      ensures Valid() && [m] + queue == old(queue) && seen == old(seen) + m && 0 < |m| <= Left(old(place))
      ensures place == Advance(old(place), m)
      ensures WritePlace() == old(WritePlace()) && History() == old(History())
    {
      m := queue[0];
      assert seen + (m + Flat(queue[1..])) == seen + m + Flat(queue[1..]);
      place := Advance(place, m);
      queue := queue[1..];
      seen := seen + m;
    }

    /** The first `n` bytes of the pipe message at the head are read. */
    method TakePart(n: nat) returns (m: seq<byte>)
      requires Valid() && queue != [] && 0 < n <= |queue[0]|
      modifies this`queue, this`seen, this`place
      ensures Valid() && |m| == n && seen == old(seen) + m && |m| <= Left(old(place))
      ensures place == Advance(old(place), m)
      ensures WritePlace() == old(WritePlace()) && History() == old(History())
    {
      if n == |queue[0]| {
        m := Take();
        return;
      }
      m := queue[0][..n];
      var tail, more := queue[0][n..], queue[1..];
      assert queue[0] == m + tail;
      PartTaken(place, m, tail, more);
      assert seen + (m + Flat([tail] + more)) == seen + m + Flat([tail] + more);
      place := Advance(place, m);
      queue := [tail] + more;
      seen := seen + m;
    }

    /** Up to `limit` bytes are read, from one pipe message or from several. */
    method TakeBytes(limit: nat) returns (m: seq<byte>)
      requires Valid() && queue != [] && 0 < limit <= Left(place)
      modifies this`queue, this`seen, this`place
      ensures Valid() && 0 < |m| <= limit && seen == old(seen) + m
      ensures place == Advance(old(place), m)
      ensures WritePlace() == old(WritePlace()) && History() == old(History())
    {
      var n: nat :| 0 < n <= |queue[0]| && n <= limit;
      m := TakePart(n);
      var more: bool := *;
      while more && queue != [] && |m| < limit
        invariant Valid() && 0 < |m| <= limit && seen == old(seen) + m
        invariant place == Advance(old(place), m)
        invariant WritePlace() == old(WritePlace()) && History() == old(History())
        decreases limit - |m|
      {
        n :| 0 < n <= |queue[0]| && n <= limit - |m|;
        var part := TakePart(n);
        AdvanceOn(old(place), m, part);
        m := m + part;
        more := *;
      }
    }

    /** A new pipe message, within the part of the frame being written. */
    method Put(m: seq<byte>)
      requires Valid() && 0 < |m| <= Left(WritePlace())
      modifies this`queue
      ensures Valid() && queue == old(queue) + [m] && History() == old(History()) + m
      ensures WritePlace() == Advance(old(WritePlace()), m)
    {
      AlignedAppend(place, queue, m);
      FlatAppend(queue, m);
      queue := queue + [m];
    }

    /** The reader at work while the writer waits. */
    method ReaderTurn()
      requires Valid()
      modifies this`queue, this`seen, this`place
      ensures Valid() && WritePlace() == old(WritePlace()) && History() == old(History())
    {
      var turns: nat :| true;
      while turns > 0 && queue != []
        invariant Valid() && WritePlace() == old(WritePlace()) && History() == old(History())
      {
        var n: nat :| 0 < n <= |queue[0]|;
        var _ := TakePart(n);
        turns := turns - 1;
      }
    }

    /** The writer at work while the reader waits: any writes a SendMessage could make. */
    method WriterTurn()
      requires Valid()
      modifies this`queue
      ensures Valid() && old(queue) <= queue
    {
      var turns: nat :| true;
      while turns > 0
        invariant Valid() && old(queue) <= queue
      {
        var m: seq<byte> :| true;
        if 0 < |m| <= Left(WritePlace()) {
          Put(m);
        }
        turns := turns - 1;
      }
    }

    /** The system serves a read of `limit` bytes; None if the head message does not go in. */
    method Serve(limit: nat) returns (m: Option<seq<byte>>)
      requires Valid() && queue != [] && 0 < limit && (!messageMode ==> limit <= Left(place))
      modifies this`queue, this`seen, this`place
      ensures Valid() && (m.None? <==> messageMode && limit < |old(queue)[0]|)
      ensures m.Some? ==> 0 < |m.value| <= limit && |m.value| <= Left(old(place))
      ensures m.Some? ==> seen == old(seen) + m.value && place == Advance(old(place), m.value)
      ensures m.Some? && messageMode ==> [m.value] + queue == old(queue)
      ensures m.None? ==> queue == old(queue) && seen == old(seen) && place == old(place)
    {
      var bytes;
      if !messageMode {
        bytes := TakeBytes(limit);
      } else if |queue[0]| > limit {
        return None;
      } else {
        bytes := Take();
      }
      return Some(bytes);
    }

    /** ReadFile for `size - offset` bytes, completed at once or after waiting; `queued` are the
        pipe messages when it is served. In message mode it takes the head message as a whole
        or, exactly when the request was shorter than that, reports more data. */
    method ReadFile(bytes: array<byte>, offset: DWORD, size: DWORD)
      returns (r: ReadResult, ghost m: seq<byte>, ghost queued: seq<seq<byte>>)
      requires Valid() && offset < size && size as int == bytes.Length
      requires !messageMode ==> size as int - offset as int <= Left(place)
      modifies this`queue, this`seen, this`place, this`moreData, this`readFailed, bytes
      ensures Valid() && old(queue) <= queued && (!r.NotRead? ==> queued != [])
      ensures !r.NotRead? ==> (r.MoreData? <==> messageMode && size as int - offset as int < |queued[0]|)
      ensures r.MoreData? ==> |queued[0]| <= Left(old(place))
      ensures r.Read? ==> 0 < r.count as int == |m| <= size as int - offset as int
      ensures r.Read? ==> bytes[..offset as int + |m|] == old(bytes[..offset]) + m
      ensures r.Read? && messageMode ==> [m] + queue == queued
      ensures !r.Read? ==> m == [] && queue == queued
      ensures |m| <= Left(old(place)) && seen == old(seen) + m && place == Advance(old(place), m)
      ensures moreData == (old(moreData) || r.MoreData?) && readFailed == (old(readFailed) || r.NotRead?)
    {
      AdvanceNone(place);
      WriterTurn();
      queued := queue;
      var failed: bool := *;
      if failed || queue == [] {
        readFailed := true;
        return NotRead, [], queued;
      }
      var message := Serve(size as int - offset as int);
      if message.None? {
        moreData := true;
        return MoreData, [], queued;
      }
      m := message.value;
      Store(bytes, offset as int, message.value);
      r := Read(|message.value| as DWORD);
    }

    /** WriteFile of `data[offset..]`, completed at once or after waiting. */
    method WriteFile(data: seq<byte>, offset: DWORD) returns (r: WriteResult, ghost moved: seq<byte>)
      requires Valid() && offset as int < |data| < 0x1_0000_0000
      requires |data| - offset as int <= Left(WritePlace())
      modifies this`queue, this`seen, this`place, this`writeFailed, this`unreported
      ensures Valid() && writeFailed == (old(writeFailed) || !r.Wrote?)
      ensures moved <= data[offset..] && History() == old(History()) + moved
      ensures r.Wrote? ==> 0 < r.count as int == |moved| && unreported == old(unreported)
      ensures r.Wrote? ==> WritePlace() == Advance(old(WritePlace()), moved)
      ensures r.NotWritten? ==> moved == [] && unreported == old(unreported)
      ensures r.Abandoned? ==> unreported == (moved == data[offset..])
    {
      ReaderTurn();
      var failed: bool := *;
      if failed {
        writeFailed := true;
        return NotWritten, [];
      }
      var abandoned: bool := *;
      var count: nat :| count <= |data| - offset as int;
      var m := data[offset..offset as int + count];
      if count > 0 {
        Put(m);
      }
      if abandoned {
        writeFailed, unreported := true, m == data[offset..];
        return Abandoned, m;
      }
      if count == 0 {
        writeFailed := true;
        return NotWritten, [];
      }
      return Wrote(count as DWORD), m;
    }

    /** Reading on from a place where the current part of the frame has `size` more bytes: no
        read ever comes upon a longer message. */
    method ReadExact(bytes: array<byte>, size: DWORD) returns (ok: bool, ghost read: seq<byte>)
      requires Valid() && size as int == bytes.Length
      requires 0 < size ==> Left(place) == size as int
      modifies this`queue, this`seen, this`place, this`moreData, this`readFailed, bytes
      ensures Valid() && moreData == old(moreData)
      ensures seen == old(seen) + read && |read| <= size as int
      ensures ok ==> read == bytes[..]
      ensures !ok ==> readFailed && |read| < size as int
      ensures place == if size > 0 then Advance(old(place), read) else old(place)
    {
      var offset: DWORD := 0;
      ghost var from := place;
      read := [];
      AdvanceNone(from);
      while offset < size
        invariant Valid() && offset <= size && moreData == old(moreData)
        invariant |read| == offset as int && seen == old(seen) + read && read == bytes[..offset]
        invariant place == if size > 0 then Advance(from, read) else from
      {
        var r, m, _ := ReadFile(bytes, offset, size);
        AdvanceOn(from, read, m);
        read := read + m;
        if !r.Read? {
          return false, read;
        }
        offset := offset + r.count;
      }
      assert bytes[..offset] == bytes[..];
      return true, read;
    }

    method WriteExact(data: seq<byte>, size: DWORD) returns (ok: bool, ghost part: seq<byte>)
      requires Valid() && size as int == |data|
      requires 0 < size ==> Left(WritePlace()) == size as int
      modifies this`queue, this`seen, this`place, this`writeFailed, this`unreported
      ensures Valid() && (!ok ==> writeFailed)
      ensures History() == old(History()) + part && part <= data
      ensures ok ==> part == data && unreported == old(unreported)
      ensures ok ==> WritePlace() == if size > 0 then Advance(old(WritePlace()), data) else old(WritePlace())
      ensures !ok && part == data ==> unreported
    {
      var offset: DWORD := 0;
      ghost var from := WritePlace();
      part := [];
      AdvanceNone(from);
      while offset < size
        invariant Valid() && offset <= size && unreported == old(unreported)
        invariant part == data[..offset] && History() == old(History()) + part
        invariant WritePlace() == if size > 0 then Advance(from, part) else from
      {
        var r, moved := WriteFile(data, offset);
        PrefixOn(data, offset as int, moved);
        AdvanceOn(from, part, moved);
        part := part + moved;
        if !r.Wrote? {
          return false, part;
        }
        offset := offset + r.count;
      }
      return true, part;
    }

    /** A sender at a frame boundary keeps every pipe message within its part of the frame. When
        it fails, what it leaves is a strict prefix of the frame, unless the failing write was
        abandoned after it had moved everything it was given. */
    method SendMessage(payload: Payload) returns (ok: bool, ghost part: seq<byte>)
      requires Valid() && WritePlace() == BOUNDARY && !unreported
      modifies this`queue, this`seen, this`place, this`writeFailed, this`unreported
      ensures Valid() && History() == old(History()) + part
      ensures ok ==> Fits(payload) && part == Frame(payload) && WritePlace() == BOUNDARY && !unreported
      ensures !ok && Fits(payload) ==> writeFailed && part <= Frame(payload)
      ensures !ok && Fits(payload) && part == Frame(payload) ==> unreported
      ensures !Fits(payload) ==> !ok && part == []
    {
      if |payload| > 0xFFFF_FFFF {
        return false, [];
      }
      var length := Encode32(|payload|);
      DecodeEncode32(|payload|);
      FrameAdvance(length, payload);
      ok, part := WriteExact(length, 4);
      if !ok {
        assert part <= length + payload;
        return;
      }
      ghost var body;
      ok, body := WriteExact(payload, |payload| as DWORD);
      part := part + body;
    }

    /** A receiver at a frame boundary never meets "more data", however the sender's writes
        were split. What it returns is exactly one frame, and a failure leaves it inside one. */
    method RecvMessage() returns (message: Option<Payload>, ghost part: seq<byte>)
      requires Valid() && place == BOUNDARY
      modifies this`queue, this`seen, this`place, this`moreData, this`readFailed
      ensures Valid() && moreData == old(moreData) && seen == old(seen) + part
      ensures message.Some? ==> place == BOUNDARY && Fits(message.value) && part == Frame(message.value)
      ensures message.None? ==> readFailed && Incomplete(part)
    {
      var header := new byte[4];
      var ok;
      ok, part := ReadExact(header, 4);
      if !ok {
        return None, part;
      }
      var length := Decode32(header[..]);
      FrameAdvance(part, []);
      var payload := new byte[length];
      ghost var body;
      ok, body := ReadExact(payload, length as DWORD);
      FrameAdvance(part, body);
      part := part + body;
      if !ok {
        return None, part;
      }
      return Some(payload[..]), part;
    }
  }

  /** The system puts what was read into the caller's buffer. */
  method Store(bytes: array<byte>, offset: nat, m: seq<byte>)
    requires offset + |m| <= bytes.Length
    modifies bytes
    ensures bytes[..offset + |m|] == old(bytes[..offset]) + m
  {
    forall i | 0 <= i < |m| {
      bytes[offset + i] := m[i];
    }
    assert bytes[..offset + |m|] == old(bytes[..offset]) + m;
  }

  lemma PrefixOn(data: seq<byte>, offset: nat, moved: seq<byte>)
    requires offset <= |data| && moved <= data[offset..]
    ensures data[..offset] + moved <= data
    ensures data[..offset] + moved == data[..offset + |moved|]
    ensures data[..offset] + moved == data <==> moved == data[offset..]
  {
    assert data == data[..offset] + data[offset..];
    if data[..offset] + moved == data {
      assert |moved| == |data[offset..]|;
    }
  }

  // ------------------------------------------------------------------ lists of messages

  /** Sending a list of messages until one fails. Unless a write was abandoned after it had moved
      all it was given, what is left of the failed message is a strict prefix of its frame. */
  method SendAll(pipe: Pipe, payloads: seq<Payload>) returns (sent: nat, ghost part: seq<byte>)
    requires pipe.Valid() && pipe.WritePlace() == BOUNDARY && !pipe.unreported && AllFit(payloads)
    modifies pipe
    ensures pipe.Valid() && sent <= |payloads|
    ensures pipe.History() == old(pipe.History()) + Stream(payloads[..sent]) + part
    ensures sent == |payloads| ==> part == []
    ensures sent < |payloads| ==> pipe.writeFailed && part <= Frame(payloads[sent])
    ensures sent < |payloads| && part == Frame(payloads[sent]) ==> pipe.unreported
  {
    sent, part := 0, [];
    while sent < |payloads|
      invariant pipe.Valid() && sent <= |payloads| && part == []
      invariant pipe.WritePlace() == BOUNDARY && !pipe.unreported
      invariant pipe.History() == old(pipe.History()) + Stream(payloads[..sent])
    {
      var ok;
      ok, part := pipe.SendMessage(payloads[sent]);
      if !ok {
        return;
      }
      StreamStep(payloads, sent);
      sent, part := sent + 1, [];
    }
  }

  /** Receiving up to `limit` messages, stopping at the first failure. */
  method RecvUpTo(pipe: Pipe, limit: nat) returns (messages: seq<Payload>, ended: bool)
    requires pipe.Valid() && pipe.place == BOUNDARY
    modifies pipe
    ensures pipe.Valid() && old(pipe.seen) <= pipe.seen
    ensures |messages| <= limit && (ended || |messages| == limit)
    ensures pipe.moreData == old(pipe.moreData) && (ended ==> pipe.readFailed)
    // In order and byte for byte: all that the bytes read make, so a prefix of what was sent.
    ensures messages == Deframe(pipe.seen[|old(pipe.seen)|..])
    ensures messages <= Deframe(pipe.History()[|old(pipe.seen)|..])
  {
    messages, ended := [], false;
    ghost var start := pipe.seen;
    assert start + Stream([]) == start;
    while |messages| < limit
      invariant pipe.Valid() && pipe.place == BOUNDARY && AllFit(messages) && |messages| <= limit
      invariant pipe.seen == start + Stream(messages) && pipe.moreData == old(pipe.moreData)
      decreases limit - |messages|
    {
      var message, part := pipe.RecvMessage();
      if message.None? {
        DecodedSoFar(start, messages, part, pipe.seen);
        DecodedSoFar(start, messages, part, pipe.History());
        return messages, true;
      }
      StreamSnoc(messages, message.value);
      messages := messages + [message.value];
    }
    DecodedSoFar(start, messages, [], pipe.seen);
    DecodedSoFar(start, messages, [], pipe.History());
  }
}
