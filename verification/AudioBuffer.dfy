// The ring buffer behind the audio FIFO, updated in place: a fixed array read
// and written across its wrap-around, and a deque of PTS anchors pruned as
// samples leave. Every method is proved against the value model in AudioFifo.

module AudioBuffer {
  import opened Bytes
  import opened Numbers
  import opened Errors
  import opened Timeline
  import opened AudioFifo
  import opened ChannelRoles

  // The `count` elements of a ring store that start at `head`.
  function Ring<T>(store: seq<T>, head: nat, count: nat): (r: seq<T>)
    requires count <= |store| && (head < |store| || head == count == 0)
    ensures |r| == count
  {
    if head + count <= |store| then store[head..head + count]
    else store[head..] + store[..head + count - |store|]
  }

  // Where the element `k` places after `i` sits, for k up to one lap.
  function Wrap(i: nat, cap: nat): nat {
    if i < cap then i else i - cap
  }

  lemma WrapIsMod(i: nat, cap: nat)
    requires 0 < cap && i < 2 * cap
    ensures i % cap == Wrap(i, cap) < cap
  {
    SameQuotient(cap, i / cap, i % cap, if i < cap then 0 else 1, Wrap(i, cap));
  }

  lemma RingAt<T>(store: seq<T>, head: nat, count: nat, k: nat)
    requires count <= |store| && head < |store| && k < count
    ensures Ring(store, head, count)[k] == store[Wrap(head + k, |store|)]
  {
  }

  lemma RingFromZero<T>(store: seq<T>, count: nat)
    requires count <= |store| && |store| > 0
    ensures Ring(store, 0, count) == store[..count]
  {
  }

  // Where the backward search stops is the anchor that dates the sample.
  lemma FoundAnchor(anchors: seq<Anchor>, index: nat, i: nat, rate: real)
    requires rate > 0.0 && i <= |anchors|
    requires forall j :: i <= j < |anchors| ==> anchors[j].index > index
    requires i > 0 ==> anchors[i - 1].index <= index
    ensures StampAt(anchors, index, rate) ==
            if i == 0 then NoStamp else At(anchors[i - 1].ns + Step(index - anchors[i - 1].index, rate))
  {
    hide Step;
    assert Latest(anchors, index) == i - 1;
  }

  // An anchor and then samples, as one state.
  lemma LaidAndAccepted<T>(f: Fifo<T>, pts: Stamp, data: seq<T>)
    ensures f.Lay(pts).Accept(data) ==
            Fifo(f.format, f.capacity, f.buffered + data, f.produced + |data|, f.consumed,
                 f.history + (if pts.At? then [Anchor(f.produced, pts.ns)] else []), f.drift, f.shaped)
  {
    if pts.NoStamp? { assert f.history + [] == f.history; }
  }

  lemma NoFrames<T>(store: seq<T>, head: nat)
    requires head < |store| || head == 0
    ensures Ring(store, head, 0) == []
  {
  }

  lemma NoAnchorsBounded()
    ensures Bounded([], 0)
  {
  }

  lemma NoStampLaysNothing<T>(f: Fifo<T>)
    ensures f.Lay(NoStamp) == f
  {
  }

  // Laying an anchor takes no room.
  lemma LayKeepsRoom<T>(f: Fifo<T>, pts: Stamp)
    ensures forall n :: SilenceResult(f.Lay(pts), n) == SilenceResult(f, n)
    ensures f.Lay(pts).format == f.format
  {
  }

  // How far past the tail cell `j` lies, going round.
  function Gap(tail: nat, j: nat, cap: nat): nat
    requires tail < cap
  {
    if j >= tail then j - tail else j + cap - tail
  }

  // The store after writing `data` from the tail on.
  ghost predicate Overwritten<T>(before: seq<T>, after: seq<T>, tail: nat, data: seq<T>)
    requires tail < |before| == |after|
  {
    forall j :: 0 <= j < |after| ==>
      after[j] == var g := Gap(tail, j, |before|); if g < |data| then data[g] else before[j]
  }

  // Overwriting the free cells after the tail extends the ring's contents.
  lemma RingAppend<T>(before: seq<T>, after: seq<T>, head: nat, count: nat, data: seq<T>)
    requires head < |before| == |after| && count + |data| <= |before|
    requires Wrap(head + count, |before|) < |before|
    requires Overwritten(before, after, Wrap(head + count, |before|), data)
    ensures Ring(after, head, count + |data|) == Ring(before, head, count) + data
  {
    hide Ring;
    forall k | 0 <= k < count + |data|
      ensures Ring(after, head, count + |data|)[k] == (Ring(before, head, count) + data)[k]
    {
      var j := Wrap(head + k, |before|);
      RingAt(after, head, count + |data|, k);
      if k < count {
        RingAt(before, head, count, k);
      } else {
        assert Gap(Wrap(head + count, |before|), j, |before|) == k - count;
      }
    }
  }

  lemma RingDrop<T>(store: seq<T>, head: nat, count: nat, n: nat)
    requires count <= |store| && head < |store| && n <= count
    ensures Ring(store, Wrap(head + n, |store|), count - n) == Ring(store, head, count)[n..]
  {
    hide Ring;
    var h := Wrap(head + n, |store|);
    forall k | 0 <= k < count - n
      ensures Ring(store, h, count - n)[k] == Ring(store, head, count)[n..][k]
    {
      RingAt(store, h, count - n, k);
      RingAt(store, head, count, n + k);
    }
  }

  class AudioBuffer<T(0)> {
    const silence: T
    var format: Format
    var storage: array<T>
    var capacity: nat
    var head: nat
    var tail: nat
    var count: nat
    var anchors: seq<Anchor>
    var produced: nat
    var consumed: nat
    var drift: bool
    var shaped: bool
    ghost var history: seq<Anchor>
    ghost var forgotten: nat

    ghost predicate RingValid()
      reads this
    {
      && storage.Length == capacity
      && count <= capacity
      && (capacity == 0 ==> head == 0 && tail == 0)
      && (capacity > 0 ==> head < capacity && tail == Wrap(head + count, capacity))
    }

    // The anchors still held are a suffix of all those laid, and the one in
    // front covers the next sample to leave.
    ghost predicate AnchorsValid()
      reads this`anchors, this`history, this`forgotten, this`produced, this`consumed
    {
      && forgotten <= |history| && anchors == history[forgotten..]
      && (forgotten > 0 ==> forgotten < |history| && history[forgotten].index <= consumed)
      && Bounded(history, produced)
    }

    ghost predicate Valid()
      reads this, storage
    {
      RingValid() && AnchorsValid() && produced == consumed + count
    }

    ghost function Contents(): seq<T>
      requires RingValid()
      reads this, storage
    {
      Ring(storage[..], head, count)
    }

    ghost function Model(): (f: Fifo<T>)
      requires Valid()
      reads this, storage
      ensures f.Valid()
    {
      Fifo(format, capacity, Contents(), produced, consumed, history, drift, shaped)
    }

    constructor (format: Format, silence: T)
      ensures Valid() && fresh(storage)
      ensures Model() == Fifo(format, 0, [], 0, 0, [], false, false)
    {
      this.format, this.silence := format, silence;
      drift, shaped := false, false;
      storage := new T[0];
      capacity, head, tail, count := 0, 0, 0, 0;
      anchors, history, forgotten, produced, consumed := [], [], 0, 0, 0;
    }

    // -------------------------------------------------------------------
    // Ring reads and writes
    // -------------------------------------------------------------------

    method WriteAtTail(data: seq<T>)
      requires RingValid() && |data| <= capacity - count
      modifies this`tail, this`count, storage
      ensures RingValid()
      ensures count == old(count) + |data|
      ensures Contents() == old(Contents()) + data
    {
      hide Ring;
      if data == [] { return; }
      ghost var before := storage[..];
      var firstChunk := |data|;
      if tail + |data| > capacity { firstChunk := capacity - tail; }
      forall i | 0 <= i < firstChunk { storage[tail + i] := data[i]; }
      var remainder := |data| - firstChunk;
      if remainder > 0 {
        forall i | 0 <= i < remainder { storage[i] := data[firstChunk + i]; }
      }
      assert Overwritten(before, storage[..], tail, data);
      RingAppend(before, storage[..], head, count, data);
      WrapIsMod(tail + |data|, capacity);
      tail := (tail + |data|) % capacity;
      count := count + |data|;
    }

    // Copies `samples` frames, starting `skip` after the head, to the front of `dst`.
    method ReadFromHead(dst: array<T>, samples: nat, skip: nat)
      requires RingValid() && skip + samples <= count && samples <= dst.Length && dst != storage
      modifies dst
      ensures dst[..samples] == Contents()[skip..skip + samples]
      ensures dst[samples..] == old(dst[samples..])
    {
      hide Ring;
      if samples == 0 { return; }
      WrapIsMod(head + skip, capacity);
      var start := (head + skip) % capacity;
      var firstChunk := samples;
      if start + samples > capacity { firstChunk := capacity - start; }
      forall i | 0 <= i < firstChunk { dst[i] := storage[start + i]; }
      var remainder := samples - firstChunk;
      if remainder > 0 {
        forall i | 0 <= i < remainder { dst[firstChunk + i] := storage[i]; }
      }
      forall k | 0 <= k < samples
        ensures dst[k] == Contents()[skip + k]
      {
        RingAt(storage[..], head, count, skip + k);
      }
    }

    // -------------------------------------------------------------------
    // Anchors
    // -------------------------------------------------------------------

    // Lays an anchor at the next sample to be produced, back by the delay of the
    // resampler's filter.
    method LayAnchor(pts: Stamp, delay: int)
      requires AnchorsValid()
      modifies this`anchors, this`history
      ensures AnchorsValid()
      ensures history == old(history) + (if pts.At? then [Anchor(produced, pts.ns - delay)] else [])
    {
      if pts.NoStamp? { return; }
      var a := Anchor(produced, pts.ns - delay);
      anchors := anchors + [a];
      history := history + [a];
    }

    method PtsAt(index: nat) returns (pts: Stamp)
      requires Valid() && index >= consumed
      ensures pts == Model().Pts(index)
    {
      if anchors == [] || !format.Valid() { return NoStamp; }
      hide Step, Ring, StampAt, Latest, Bounded;
      PrunedAgrees(history, forgotten, index, format.rate);
      var i := |anchors|;
      while i > 0
        invariant 0 <= i <= |anchors|
        invariant forall j :: i <= j < |anchors| ==> anchors[j].index > index
      {
        if anchors[i - 1].index <= index { break; }
        i := i - 1;
      }
      FoundAnchor(anchors, index, i, format.rate);
      if i == 0 { return NoStamp; }
      var a := anchors[i - 1];
      NoStepNoTime(format.rate);
      pts := if index == a.index then At(a.ns) else At(a.ns + Step(index - a.index, format.rate));
    }

    method PruneAnchors()
      requires Valid()
      modifies this`anchors, this`forgotten
      ensures Valid() && Model() == old(Model())
      ensures |anchors| >= 2 ==> anchors[1].index > consumed
    {
      while |anchors| >= 2
        invariant AnchorsValid()
        decreases |anchors|
      {
        if anchors[1].index > consumed { break; }
        anchors, forgotten := anchors[1..], forgotten + 1;
      }
    }

    // -------------------------------------------------------------------
    // Public operations
    // -------------------------------------------------------------------

    // Copies the source's channel map over the storage format's.
    method RefreshMap(src: Format)
      requires Valid()
      modifies this`format
      ensures Valid() && Model() == Refreshed(old(Model()), src)
    {
      hide Ring;
      var source := src.channelMap;
      var entries: ChannelMap := [];
      var c := 0;
      while c < format.channels
        invariant 0 <= c <= format.channels && |entries| == c
        invariant forall k :: 0 <= k < c ==>
                    entries[k] == if k < |source| then source[k] else Entry(Undefined, UNUSED)
      {
        entries := entries + [if c < |source| then source[c] else Entry(Undefined, UNUSED)];
        c := c + 1;
      }
      assert entries == Candidate(format.channels, source);
      if entries != format.channelMap {
        format := format.(channelMap := entries);
      }
    }

    method Push(b: Batch<T>) returns (err: Error)
      requires Valid()
      modifies this`format, this`tail, this`count, this`produced, this`anchors, this`history, this`forgotten, storage
      ensures Valid()
      ensures err == PushResult(old(Model()), b)
      ensures Model() == Pushed(old(Model()), b)
    {
      hide Ring, Candidate, Fifo.Lay, Fifo.Accept, Valid, Bounded;
      if !format.Valid() || !b.src.Valid() { return InvalidArgument; }
      if b.frames == [] { return Ok; }
      if b.src.channels != format.channels { return NotSupported; }
      RefreshMap(b.src);
      if drift || b.src.rate != format.rate {
        if b.src.compressed { return NotSupported; }
        if b.resampled.err != Ok { return b.resampled.err; }
        if capacity - count < |b.resampled.frames| { return NoSpace; }
        StoreResampled(b.resampled.frames, b.pts, b.delay);
        return Ok;
      }
      if capacity - count < |b.frames| { return NoSpace; }
      Mark(b.pts, b.delay);
      if shaped {
        if b.src.compressed { return NotSupported; }
      } else if b.src.id != format.id {
        if b.src.compressed || format.compressed { return NotSupported; }
      }
      Store(b.frames);
      return Ok;
    }

    // An anchor between two whole states of the buffer.
    method Mark(pts: Stamp, delay: int)
      requires Valid()
      modifies this`anchors, this`history
      ensures Valid() && Model() == old(Model()).Lay(Delayed(pts, delay))
    {
      hide Ring;
      LayAnchor(pts, delay);
    }

    method Store(data: seq<T>)
      requires Valid() && |data| <= capacity - count
      modifies this`tail, this`count, this`produced, storage
      ensures Valid() && Model() == old(Model()).Accept(data)
    {
      hide Ring;
      WriteAtTail(data);
      produced := produced + |data|;
    }

    // The resampler path: samples first, then the anchor at the first of them.
    method StoreResampled(data: seq<T>, pts: Stamp, delay: int)
      requires Valid() && |data| <= capacity - count
      modifies this`tail, this`count, this`produced, this`anchors, this`history, storage
      ensures Valid() && Model() == old(Model()).Lay(Delayed(pts, delay)).Accept(data)
    {
      hide Ring, Fifo.Lay, Fifo.Accept, AnchorsValid;
      LaidAndAccepted(Model(), Delayed(pts, delay), data);
      if |data| > 0 { WriteAtTail(data); }
      assert Contents() == old(Contents()) + data;
      LayAndCount(pts, delay, |data|);
    }

    method LayAndCount(pts: Stamp, delay: int, samples: nat)
      requires AnchorsValid()
      modifies this`anchors, this`history, this`produced
      ensures AnchorsValid() && produced == old(produced) + samples
      ensures history == old(history) + (if pts.At? then [Anchor(old(produced), pts.ns - delay)] else [])
    {
      LayAnchor(pts, delay);
      produced := produced + samples;
    }

    // Turns drift correction, or gains and metering, on or off.
    method Configure(drift: bool, shaped: bool)
      requires Valid()
      modifies this`drift, this`shaped
      ensures Valid() && Model() == old(Model()).(drift := drift, shaped := shaped)
    {
      this.drift, this.shaped := drift, shaped;
    }

    method PushSilence(samples: nat, pts: Stamp, delay: int) returns (err: Error)
      requires Valid() && SilenceEnds(Model(), samples)
      modifies this`tail, this`count, this`produced, this`anchors, this`history, storage
      ensures Valid()
      ensures err == SilenceResult(old(Model()), samples)
      ensures Model() == Silenced(old(Model()), samples, silence, Delayed(pts, delay))
    {
      hide Ring, Repeat, Fifo.Lay, Fifo.Accept, Valid, Bounded;
      assert old(Model()).Lay(NoStamp) == old(Model()) by { NoStampLaysNothing(old(Model())); }
      LayKeepsRoom(Model(), Delayed(pts, delay));
      if pts.At? { Mark(pts, delay); }
      err := StoreSilence(samples);
    }

    method StoreSilence(samples: nat) returns (err: Error)
      requires Valid() && SilenceEnds(Model(), samples)
      modifies this`tail, this`count, this`produced, storage
      ensures Valid() && err == SilenceResult(old(Model()), samples)
      ensures Model() == if err == Ok then old(Model()).Accept(Repeat(silence, samples)) else old(Model())
    {
      hide Ring, Repeat;
      err := PushSilenceFrames(samples);
      if err == Ok { produced := produced + samples; }
    }

    method PushSilenceFrames(samples: nat) returns (err: Error)
      requires RingValid()
      requires format.Valid() && 0 < samples <= capacity - count ==> format.channels <= 4096
      modifies this`tail, this`count, storage
      ensures RingValid()
      ensures err == if !format.Valid() then InvalidArgument
                     else if samples > 0 && capacity - old(count) < samples then NoSpace else Ok
      ensures count == old(count) + (if err == Ok then samples else 0)
      ensures err == Ok ==> Contents() == old(Contents()) + Repeat(silence, samples)
      ensures err != Ok ==> Contents() == old(Contents())
    {
      hide Ring, Repeat;
      if !format.Valid() { return InvalidArgument; }
      if samples == 0 { return Ok; }
      if capacity - count < samples { return NoSpace; }
      var maxChunk := 4096 / format.channels;
      var remaining := samples;
      while remaining > 0
        invariant 0 <= remaining <= samples && count == old(count) + samples - remaining
        invariant RingValid() && capacity - count >= remaining
        invariant Contents() == old(Contents()) + Repeat(silence, samples - remaining)
      {
        var chunk := remaining;
        if chunk > maxChunk { chunk := maxChunk; }
        var toWrap := capacity - tail;
        if chunk > toWrap { chunk := toWrap; }
        ChunkIsEmptyExactlyPast4096(format.channels, toWrap, remaining);
        Assoc(old(Contents()), Repeat(silence, samples - remaining), Repeat(silence, chunk));
        WriteSilentRun(chunk);
        remaining := remaining - chunk;
      }
      return Ok;
    }

    // One chunk of silence, which stops short of the wrap.
    method WriteSilentRun(chunk: nat)
      requires RingValid() && capacity > 0 && chunk <= capacity - tail && chunk <= capacity - count
      modifies this`tail, this`count, storage
      ensures RingValid() && count == old(count) + chunk
      ensures Contents() == old(Contents()) + Repeat(silence, chunk)
    {
      hide Ring;
      ghost var before := storage[..];
      forall i | 0 <= i < chunk { storage[tail + i] := silence; }
      assert Overwritten(before, storage[..], tail, Repeat(silence, chunk));
      RingAppend(before, storage[..], head, count, Repeat(silence, chunk));
      WrapIsMod(tail + chunk, capacity);
      tail := (tail + chunk) % capacity;
      count := count + chunk;
    }

    method Pop(dst: array<T>, samples: nat) returns (got: nat, firstPts: Stamp)
      requires Valid() && samples <= dst.Length && dst != storage
      modifies this`head, this`count, this`consumed, this`anchors, this`forgotten, dst
      ensures Valid()
      ensures firstPts == old(Model().Pts(consumed))
      ensures got == Taken(old(Model()), samples)
      ensures dst[..got] == old(Contents()[..Taken(Model(), samples)])
      ensures dst[got..] == old(dst[Taken(Model(), samples)..])
      ensures Model() == Removed(old(Model()), samples)
    {
      hide Ring;
      firstPts := PtsAt(consumed);
      if count == 0 || samples == 0 { return 0, firstPts; }
      got := if samples > count then count else samples;
      ReadFromHead(dst, got, 0);
      Advance(got);
    }

    // Between `least` and `most` frames as a payload of their own.
    method PopPayload(least: nat, most: nat) returns (err: Error, payload: Payload<T>)
      requires Valid()
      modifies this`head, this`count, this`consumed, this`anchors, this`forgotten
      ensures Valid() && err == PayloadResult(old(Model()), least, most)
      ensures err == Ok ==> payload == PayloadOf(old(Model()), most) && Model() == Removed(old(Model()), most)
      ensures err != Ok ==> Model() == old(Model())
    {
      hide Ring;
      payload := Payload(format, [], NoStamp);
      if most == 0 || least > most { return InvalidArgument, payload; }
      if !format.Valid() { return InvalidArgument, payload; }
      if count < least { return TryAgain, payload; }
      var want := if count < most then count else most;
      if want > 0 {
        var buffer := new T[want];
        var got, firstPts := Pop(buffer, want);
        assert buffer[..got] == buffer[..];
        payload := Payload(format, buffer[..], firstPts);
      }
      return Ok, payload;
    }

    method Peek(dst: array<T>, samples: nat) returns (got: nat, firstPts: Stamp)
      requires Valid() && samples <= dst.Length && dst != storage
      modifies dst
      ensures Valid() && Model() == old(Model())
      ensures firstPts == if count > 0 then Model().Pts(consumed) else NoStamp
      ensures got == Taken(Model(), samples)
      ensures dst[..got] == Contents()[..got]
      ensures dst[got..] == old(dst[Taken(Model(), samples)..])
    {
      hide Ring;
      firstPts := NoStamp;
      if count > 0 { firstPts := PtsAt(consumed); }
      if count == 0 || samples == 0 { return 0, firstPts; }
      got := if samples > count then count else samples;
      ReadFromHead(dst, got, 0);
    }

    method Drop(samples: nat) returns (got: nat)
      requires Valid()
      modifies this`head, this`count, this`consumed, this`anchors, this`forgotten
      ensures Valid()
      ensures got == Taken(old(Model()), samples)
      ensures Model() == Removed(old(Model()), samples)
    {
      if count == 0 || samples == 0 { return 0; }
      got := if samples > count then count else samples;
      Advance(got);
    }

    // The tail end of pop and drop: move the head on and forget spent anchors.
    method Advance(n: nat)
      requires Valid() && 0 < n <= count
      modifies this`head, this`count, this`consumed, this`anchors, this`forgotten
      ensures Valid()
      ensures Model() == Removed(old(Model()), n)
    {
      hide Ring;
      RingDrop(storage[..], head, count, n);
      WrapIsMod(head + n, capacity);
      head := (head + n) % capacity;
      count := count - n;
      consumed := consumed + n;
      PruneAnchors();
    }

    method NextSamplePts() returns (pts: Stamp)
      requires Valid()
      ensures pts == if count == 0 then NoStamp else Model().Pts(consumed)
    {
      if count == 0 { return NoStamp; }
      pts := PtsAt(consumed);
    }

    method Reserve(samples: nat) returns (err: Error)
      requires Valid()
      modifies this
      ensures Valid() && (storage == old(storage) || fresh(storage))
      ensures err == if old(format).Valid() then Ok else InvalidArgument
      ensures Model() == Reserved(old(Model()), samples)
      ensures samples > old(capacity) && err == Ok ==> head == 0
    {
      hide Ring;
      if !format.Valid() { return InvalidArgument; }
      if samples <= capacity { return Ok; }
      var newStorage := new T[samples];
      if count > 0 { ReadFromHead(newStorage, count, 0); }
      RingFromZero(newStorage[..], count);
      storage, capacity, head, tail := newStorage, samples, 0, count;
      return Ok;
    }

    method Clear()
      requires Valid()
      modifies this`head, this`tail, this`count, this`anchors, this`history, this`forgotten
      modifies this`produced, this`consumed
      ensures Valid() && Model() == Cleared(old(Model()))
      ensures head == tail == count == 0 && history == []
    {
      hide Ring, Bounded;
      NoAnchorsBounded();
      NoFrames(storage[..], 0);
      head, tail, count := 0, 0, 0;
      anchors, history, forgotten, produced, consumed := [], [], 0, 0, 0;
    }

    method SetFormat(newFormat: Format)
      requires Valid()
      modifies this`format, this`storage, this`capacity, this`head, this`tail, this`count, this`anchors,
               this`history, this`forgotten, this`produced, this`consumed
      ensures Valid() && fresh(storage) && Model() == Reformatted(old(Model()), newFormat)
    {
      hide Ring, Bounded;
      Clear();
      storage := new T[0];
      format, capacity := newFormat, 0;
      NoFrames(storage[..], 0);
    }

    method SetInputFormat()
      requires Valid()
      modifies this`anchors, this`history, this`forgotten
      ensures Valid() && Model() == InputChanged(old(Model()))
    {
      hide Ring;
      anchors, history, forgotten := [], [], 0;
    }
  }
}
