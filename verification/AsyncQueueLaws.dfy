// A run of the queue, in any interleaving, as one byte stream per session.

module AsyncQueueLaws {
  import opened Errors
  import opened Bytes
  import opened AsyncQueue

  // ---------------------------------------------------------------------
  // A session as a byte stream
  // ---------------------------------------------------------------------

  // The queue after a run, the segments accepted and the bytes handed over since
  // it was last opened.
  datatype Session = Session(queue: Queue, accepted: bytes, read: bytes)

  function Run(ops: seq<Op>): Session {
    if ops == [] then Session(CONSTRUCTED, [], [])
    else
      var s := Run(ops[..|ops| - 1]);
      Then(s, ops[|ops| - 1])
  }

  function Then(s: Session, op: Op): Session {
    var q, r := Next(s.queue, op), ReplyTo(s.queue, op);
    match op
    case Open(_) => if r.err == Ok then Session(q, [], []) else Session(q, s.accepted, s.read)
    case Enqueue(x) => Session(q, if r.err == Ok then s.accepted + x else s.accepted, s.read)
    case _ => Session(q, s.accepted, s.read + r.bytes)
  }

  ghost predicate Streams(s: Session) {
    && (s.queue.open ==> s.read + s.queue.queued == s.accepted)
    && s.queue.pos == |s.read| && s.read <= s.accepted
  }

  lemma ThenStreams(s: Session, op: Op)
    requires Streams(s)
    ensures Streams(Then(s, op))
  {
    var q := s.queue;
    match op {
      case Enqueue(x) =>
        Assoc(s.read, q.queued, x);
        if !q.closed || x == [] { assert s.accepted + x == s.accepted + x; }
      case Read(max) =>
        var n := |Fetched(q, max)|;
        assert q.queued == q.queued[..n] + q.queued[n..];
        assert Fetched(q, max) == q.queued[..n];
        Assoc(s.read, q.queued[..n], q.queued[n..]);
      case _ =>
    }
  }

  // While the queue is open, the bytes read so far followed by the bytes still
  // queued are the accepted segments end to end, whatever the interleaving; and
  // the consumer sees the end exactly when the writer has closed and every
  // accepted byte has been read.
  lemma {:induction false} OpenQueueIsAStream(ops: seq<Op>)
    ensures Streams(Run(ops))
    ensures var s := Run(ops);
            s.queue.open ==> (AtEnd(s.queue) <==> s.queue.closed && s.read == s.accepted)
  {
    if ops == [] {
    } else {
      hide Then, Streams;
      OpenQueueIsAStream(ops[..|ops| - 1]);
      ThenStreams(Run(ops[..|ops| - 1]), ops[|ops| - 1]);
    }
    EndIsReached(Run(ops));
  }

  lemma EndIsReached(s: Session)
    requires Streams(s)
    ensures s.queue.open ==> (AtEnd(s.queue) <==> s.queue.closed && s.read == s.accepted)
  {
    if s.queue.open {
      assert |s.accepted| == |s.read| + |s.queue.queued|;
      if s.queue.queued == [] { assert s.read + [] == s.read; }
    }
  }

  // After the writer closes, nothing more is accepted until the queue is reopened.
  lemma {:induction false} NothingAfterClose(before: seq<Op>, after: seq<Op>)
    requires Run(before).queue.closed
    requires forall i :: 0 <= i < |after| ==> !after[i].Open?
    ensures Run(before + after).queue.closed && Run(before + after).accepted == Run(before).accepted
  {
    if after == [] {
      assert before + after == before;
    } else {
      var n := |after| - 1;
      assert (before + after)[..|before + after| - 1] == before + after[..n];
      NothingAfterClose(before, after[..n]);
      if after[n].Enqueue? && after[n].segment == [] {
        assert Run(before).accepted + [] == Run(before).accepted;
      }
    }
  }

  // ---------------------------------------------------------------------
  // Replies
  // ---------------------------------------------------------------------

  // The ready signal is raised by exactly the calls that give the consumer something
  // new to see: more bytes, or the end of the writing.
  lemma SignalsWhatIsNew(q: Queue, op: Op)
    ensures ReplyTo(q, op).signal <==>
            |Next(q, op).queued| > |q.queued| || (op.CloseWriting? && Next(q, op).closed && !q.closed)
  {
  }

  // A call that fails changes nothing, and each error has one cause.
  lemma FailedCallsChangeNothing(q: Queue, op: Op)
    ensures ReplyTo(q, op).err != Ok ==> Next(q, op) == q
    ensures match op
            case Open(mode) =>
              && (ReplyTo(q, op).err == AlreadyOpen <==> q.open)
              && (ReplyTo(q, op).err == NotSupported <==> !q.open && mode.write)
              && (ReplyTo(q, op).err == Invalid <==> !q.open && !mode.write && !mode.read)
            case Close => ReplyTo(q, op).err == NotOpen <==> !q.open
            case Enqueue(s) => ReplyTo(q, op).err == NotOpen <==> q.closed && s != []
            case _ => ReplyTo(q, op).err == Ok
    ensures ReplyTo(q, op).err in {Ok, AlreadyOpen, NotSupported, Invalid, NotOpen}
  {
  }

  // A read hands over the front of the queue, no more than asked for and no less than
  // there is; a queue that is not open answers -1.
  lemma ReadsTheFront(q: Queue, max: int)
    ensures var r, rest := ReplyTo(q, Read(max)), Next(q, Read(max)).queued;
            && r.bytes + rest == q.queued && (r.bytes == [] || |r.bytes| <= max)
            && (q.open && |r.bytes| < max ==> rest == [])
            && r.count == (if q.open then |r.bytes| else -1) && (!q.open ==> r.bytes == [])
  {
    assert [] + q.queued == q.queued;
    assert q.queued + [] == q.queued;
  }

  // ---------------------------------------------------------------------
  // Segments that opening throws away
  // ---------------------------------------------------------------------

  function After(q: Queue, ops: seq<Op>): Queue {
    if ops == [] then q else Next(After(q, ops[..|ops| - 1]), ops[|ops| - 1])
  }

  // The bytes handed to the consumer along the way.
  function Delivered(q: Queue, ops: seq<Op>): bytes {
    if ops == [] then []
    else
      var n := |ops| - 1;
      Delivered(q, ops[..n]) + ReplyTo(After(q, ops[..n]), ops[n]).bytes
  }

  predicate NoneOpens(q: Queue, ops: seq<Op>) {
    ops == [] ||
    var n := |ops| - 1;
    NoneOpens(q, ops[..n])
    && !(ops[n].Open? && ReplyTo(After(q, ops[..n]), ops[n]).err == Ok)
  }

  // Until it is opened, a queue that is not open delivers nothing and drops
  // nothing; once it has been closed, an open one holds nothing.
  lemma {:induction false} UntilOpened(q: Queue, ops: seq<Op>)
    requires NoneOpens(q, ops)
    ensures !q.open ==> !After(q, ops).open && q.queued <= After(q, ops).queued && Delivered(q, ops) == []
    ensures q.open ==> After(q, ops).open || (After(q, ops).closed && After(q, ops).queued == [])
  {
    if ops == [] {
    } else {
      UntilOpened(q, ops[..|ops| - 1]);
    }
  }

  // The next open to succeed finds bytes to throw away exactly when an accepted
  // segment came while the queue was not open; that segment is among them, and
  // no byte of it was ever delivered.
  lemma {:induction false} OpeningDropsExactlyEarlySegments(q: Queue, segment: bytes, ops: seq<Op>, mode: Mode)
    requires segment != [] && ReplyTo(q, Enqueue(segment)).err == Ok
    requires NoneOpens(Next(q, Enqueue(segment)), ops)
    requires ReplyTo(After(Next(q, Enqueue(segment)), ops), Open(mode)).err == Ok
    ensures var q1 := Next(q, Enqueue(segment));
            var q2 := After(q1, ops);
            && (q2.queued != [] <==> !q.open)
            && (!q.open ==> q.queued + segment <= q2.queued && Delivered(q1, ops) == [])
            && Next(q2, Open(mode)).queued == []
  {
    UntilOpened(Next(q, Enqueue(segment)), ops);
  }

  // Straight from construction: accepted, then gone.
  lemma EarlySegmentsAreDropped(segment: bytes, mode: Mode)
    requires segment != [] && mode == Mode(true, false)
    ensures ReplyTo(CONSTRUCTED, Enqueue(segment)).err == Ok
    ensures Next(Next(CONSTRUCTED, Enqueue(segment)), Open(mode)).queued == []
  {
  }
}
