// The segment queue between a producer and a streaming consumer, as a byte stream.

module AsyncQueue {
  import opened Errors
  import opened Bytes

  // What callers can see: every method runs under the queue's mutex, so an
  // interleaving of threads is a sequence of these transitions.
  datatype Queue = Queue(open: bool, closed: bool, queued: bytes, pos: nat)

  const CONSTRUCTED: Queue := Queue(false, false, [], 0)

  datatype Mode = Mode(read: bool, write: bool)

  datatype Op =
    | Open(mode: Mode)
    | Close
    | Enqueue(segment: bytes)
    | CloseWriting
    | Read(max: int)

  // The error or byte count a call reports, the bytes it hands over, and whether
  // it raises the ready-to-read signal.
  datatype Reply = Reply(err: Error, count: int, bytes: bytes, signal: bool)

  function Plain(err: Error): Reply {
    Reply(err, 0, [], false)
  }

  function Opened(q: Queue, mode: Mode): Error {
    if q.open then AlreadyOpen else if mode.write then NotSupported else if !mode.read then Invalid else Ok
  }

  function Fetched(q: Queue, max: int): bytes {
    if !q.open || max <= 0 then [] else if max < |q.queued| then q.queued[..max] else q.queued
  }

  function Next(q: Queue, op: Op): Queue {
    match op
    case Open(mode) => if Opened(q, mode) == Ok then Queue(true, false, [], 0) else q
    case Close => if q.open then q.(open := false, closed := true, queued := []) else q
    case Enqueue(s) => if q.closed then q else q.(queued := q.queued + s)
    case CloseWriting => q.(closed := true)
    case Read(max) =>
      var n := |Fetched(q, max)|;
      q.(queued := q.queued[n..], pos := q.pos + n)
  }

  function ReplyTo(q: Queue, op: Op): Reply {
    match op
    case Open(mode) => Plain(Opened(q, mode))
    case Close => Plain(if q.open then Ok else NotOpen)
    case Enqueue(s) => if s == [] then Plain(Ok) else if q.closed then Plain(NotOpen) else Reply(Ok, 0, [], true)
    case CloseWriting => Reply(Ok, 0, [], !q.closed)
    case Read(max) => Reply(Ok, if q.open then |Fetched(q, max)| else -1, Fetched(q, max), false)
  }

  predicate AtEnd(q: Queue) {
    q.closed && q.queued == []
  }

  // ---------------------------------------------------------------------
  // The queue itself
  // ---------------------------------------------------------------------

  datatype Segment = Segment(buffer: bytes, offset: nat)

  predicate Unread(segments: seq<Segment>) {
    forall i :: 0 <= i < |segments| ==> segments[i].offset < |segments[i].buffer|
  }

  function Contents(segments: seq<Segment>): bytes {
    if segments == [] then []
    else
      var s := segments[0];
      (if s.offset <= |s.buffer| then s.buffer[s.offset..] else []) + Contents(segments[1..])
  }

  lemma {:induction false} ContentsSnoc(segments: seq<Segment>, s: Segment)
    requires s.offset == 0
    ensures Contents(segments + [s]) == Contents(segments) + s.buffer
  {
    if segments == [] {
      assert ([s])[1..] == [] && s.buffer[0..] + [] == s.buffer && [] + [s] == [s];
      assert [] + s.buffer == s.buffer;
    } else {
      var t := segments[0];
      assert (segments + [s])[1..] == segments[1..] + [s];
      ContentsSnoc(segments[1..], s);
      Assoc(if t.offset <= |t.buffer| then t.buffer[t.offset..] else [], Contents(segments[1..]), s.buffer);
    }
  }

  class AsyncBufferQueue {
    var isOpen: bool
    var segments: seq<Segment>
    var queuedBytes: int
    var readPos: nat
    var writingClosed: bool

    ghost predicate Valid() reads this {
      Unread(segments) && queuedBytes == |Contents(segments)|
    }

    ghost function View(): Queue reads this {
      Queue(isOpen, writingClosed, Contents(segments), readPos)
    }

    constructor ()
      ensures Valid() && View() == CONSTRUCTED
    {
      isOpen, segments, queuedBytes, readPos, writingClosed := false, [], 0, 0, false;
    }

    method DoOpen(mode: Mode) returns (err: Error)
      requires Valid()
      modifies this
      ensures Valid() && View() == Next(old(View()), Open(mode)) && Plain(err) == ReplyTo(old(View()), Open(mode))
    {
      if isOpen { return AlreadyOpen; }
      if mode.write { return NotSupported; }
      if !mode.read { return Invalid; }
      isOpen, segments, queuedBytes, readPos, writingClosed := true, [], 0, 0, false;
      return Ok;
    }

    method DoClose() returns (err: Error)
      requires Valid()
      modifies this
      ensures Valid() && View() == Next(old(View()), Close) && Plain(err) == ReplyTo(old(View()), Close)
    {
      if !isOpen { return NotOpen; }
      isOpen, segments, queuedBytes, writingClosed := false, [], 0, true;
      return Ok;
    }

    method DoEnqueue(segment: bytes) returns (r: Reply)
      requires Valid()
      modifies this
      ensures Valid() && View() == Next(old(View()), Enqueue(segment)) && r == ReplyTo(old(View()), Enqueue(segment))
    {
      if |segment| == 0 {
        assert Contents(segments) + segment == Contents(segments);
        return Plain(Ok);
      }
      if writingClosed { return Plain(NotOpen); }
      ContentsSnoc(segments, Segment(segment, 0));
      segments := segments + [Segment(segment, 0)];
      queuedBytes := queuedBytes + |segment|;
      return Reply(Ok, 0, [], true);
    }

    method DoCloseWriting() returns (r: Reply)
      requires Valid()
      modifies this
      ensures Valid() && View() == Next(old(View()), CloseWriting) && r == ReplyTo(old(View()), CloseWriting)
    {
      var wasOpen := !writingClosed;
      writingClosed := true;
      return Reply(Ok, 0, [], wasOpen);
    }

    // Drains whole and partial segments until the request or the queue runs out.
    method DoRead(max: int) returns (r: Reply)
      requires Valid()
      modifies this
      ensures Valid() && View() == Next(old(View()), Read(max)) && r == ReplyTo(old(View()), Read(max))
    {
      hide Contents;
      ghost var all := Contents(segments);
      assert all[0..] == all;
      if !isOpen { return Reply(Ok, -1, [], false); }
      if max <= 0 { return Reply(Ok, 0, [], false); }
      var dst: bytes := [];
      assert all == dst + all;
      while |dst| < max && segments != []
        invariant isOpen == old(isOpen) && writingClosed == old(writingClosed) && readPos == old(readPos)
        invariant Valid()
        invariant |dst| <= max && all == dst + Contents(segments)
        decreases max - |dst|
      {
        var front := segments[0];
        var avail := |front.buffer| - front.offset;
        var take := if avail > max - |dst| then max - |dst| else avail;
        var piece := front.buffer[front.offset..front.offset + take];
        FrontTaken(segments, take);
        Assoc(dst, piece, Contents(After(segments, take)));
        dst := dst + piece;
        queuedBytes := queuedBytes - take;
        segments := if take == avail then segments[1..] else [front.(offset := front.offset + take)] + segments[1..];
      }
      NoContents(segments);
      Taken(all, dst, Contents(segments), max);
      readPos := readPos + |dst|;
      return Reply(Ok, |dst|, dst, false);
    }

    method IsAtEnd() returns (b: bool)
      requires Valid()
      ensures b == AtEnd(View())
    {
      b := writingClosed && queuedBytes == 0;
    }

    method BytesAvailable() returns (n: int)
      requires Valid()
      ensures n == |View().queued|
    {
      n := queuedBytes;
    }
  }

  // The segments once `take` more bytes of the first have been read.
  function After(segments: seq<Segment>, take: nat): seq<Segment>
    requires segments != []
  {
    var front := segments[0];
    if front.offset + take == |front.buffer| then segments[1..]
    else [front.(offset := front.offset + take)] + segments[1..]
  }

  lemma {:induction false} FrontTaken(segments: seq<Segment>, take: nat)
    requires Unread(segments) && segments != []
    requires segments[0].offset + take <= |segments[0].buffer|
    ensures var front := segments[0];
            && Contents(segments) == front.buffer[front.offset..front.offset + take] + Contents(After(segments, take))
            && Unread(After(segments, take))
  {
    var front, rest := segments[0], segments[1..];
    var b, i, j := front.buffer, front.offset, front.offset + take;
    assert b[i..] == b[i..j] + b[j..];
    Assoc(b[i..j], b[j..], Contents(rest));
    if j == |b| {
      assert b[j..] + Contents(rest) == Contents(rest);
    } else {
      SplitContents(front.(offset := j), rest);
    }
  }

  lemma {:induction false} SplitContents(front: Segment, rest: seq<Segment>)
    requires front.offset <= |front.buffer|
    ensures Contents([front] + rest) == front.buffer[front.offset..] + Contents(rest)
    ensures Unread([front] + rest) <==> front.offset < |front.buffer| && Unread(rest)
  {
    assert ([front] + rest)[1..] == rest;
  }

  lemma {:induction false} NoContents(segments: seq<Segment>)
    ensures segments == [] ==> Contents(segments) == []
  {
  }

  lemma Taken(all: bytes, dst: bytes, rest: bytes, max: int)
    requires all == dst + rest && |dst| <= max && (|dst| == max || rest == [])
    ensures dst == (if max < |all| then all[..max] else all) && rest == all[|dst|..]
  {
  }
}
