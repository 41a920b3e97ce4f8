// The audio FIFO as a value: what every operation does to the buffered
// samples, the sample counters and the full history of PTS anchors.

module AudioFifo {
  import opened Errors
  import opened Numbers
  import opened Timeline
  import opened ChannelRoles

  // The parts of an AudioDesc that the FIFO looks at.
  datatype Format = Format(id: nat, compressed: bool, rate: real, channels: nat, channelMap: ChannelMap) {
    predicate Valid() { id > 0 && rate > 0.0 && channels > 0 }
  }

  // What a push brings: the frames as they read in the storage format, what the
  // resampler makes of them should it be asked, and the delay of its filter.
  datatype Batch<T> = Batch(frames: seq<T>, src: Format, pts: Stamp, resampled: Resampled<T>, delay: int)

  datatype Resampled<T> = Resampled(frames: seq<T>, err: Error)

  // An anchor dates its sample at the source, before the filter delayed it.
  function Delayed(pts: Stamp, delay: int): Stamp {
    if pts.At? then At(pts.ns - delay) else NoStamp
  }

  // The channel map a push hands on: the source's entry for each channel, and an
  // unused channel where the source has none.
  function Candidate(channels: nat, source: ChannelMap): (m: ChannelMap)
    ensures |m| == channels
    ensures |source| == channels ==> m == source
  {
    seq(channels, c requires 0 <= c => if c < |source| then source[c] else Entry(Undefined, UNUSED))
  }

  // No anchor points past the samples produced so far.
  predicate Bounded(anchors: seq<Anchor>, produced: nat) {
    forall k :: 0 <= k < |anchors| ==> anchors[k].index <= produced
  }

  // `history` holds every anchor laid since the last reset; the class keeps
  // only a suffix of it. `drift` is set while drift correction is on, and
  // `shaped` while gains or a meter make every push go through floats.
  datatype Fifo<T> = Fifo(
    format: Format,
    capacity: nat,
    buffered: seq<T>,
    produced: nat,
    consumed: nat,
    history: seq<Anchor>,
    drift: bool,
    shaped: bool)
  {
    predicate Valid() {
      && |buffered| <= capacity
      && produced == consumed + |buffered|
      && Bounded(history, produced)
    }

    function Free(): int { capacity - |buffered| }

    // The PTS the buffer reports for an absolute sample index.
    function Pts(i: nat): Stamp {
      if format.Valid() then StampAt(history, i, format.rate) else NoStamp
    }

    function Lay(pts: Stamp): Fifo<T> {
      if pts.At? then this.(history := history + [Anchor(produced, pts.ns)]) else this
    }

    function Accept(frames: seq<T>): Fifo<T> {
      this.(buffered := buffered + frames, produced := produced + |frames|)
    }
  }

  function Repeat<T>(x: T, n: nat): (r: seq<T>)
    ensures |r| == n
    ensures forall k :: 0 <= k < n ==> r[k] == x
  {
    seq(n, _ => x)
  }

  predicate NeedsResampler<T>(f: Fifo<T>, src: Format) {
    f.drift || src.rate != f.format.rate
  }

  // Which formats convert into one another sample by sample: a compressed one
  // only into itself, and then only if the samples need not be looked at.
  predicate Convertible<T>(f: Fifo<T>, src: Format) {
    if f.shaped then !src.compressed
    else src.id == f.format.id || (!src.compressed && !f.format.compressed)
  }

  function PushResult<T>(f: Fifo<T>, b: Batch<T>): Error {
    if !f.format.Valid() || !b.src.Valid() then InvalidArgument
    else if b.frames == [] then Ok
    else if b.src.channels != f.format.channels then NotSupported
    else if NeedsResampler(f, b.src) then
      if b.src.compressed then NotSupported
      else if b.resampled.err != Ok then b.resampled.err
      else if f.Free() < |b.resampled.frames| then NoSpace
      else Ok
    else if f.Free() < |b.frames| then NoSpace
    else if !Convertible(f, b.src) then NotSupported
    else Ok
  }

  // The frames a push that succeeds adds.
  function Incoming<T>(f: Fifo<T>, b: Batch<T>): seq<T> {
    if b.frames == [] then [] else if NeedsResampler(f, b.src) then b.resampled.frames else b.frames
  }

  // A push gets as far as refreshing the channel map once the formats are valid,
  // there is something to push and the channel counts agree.
  predicate ReachesRefresh<T>(f: Fifo<T>, b: Batch<T>) {
    f.format.Valid() && b.src.Valid() && b.frames != [] && b.src.channels == f.format.channels
  }

  // It gets as far as its anchor once the resampler is done, or, without one, as
  // soon as there is room - before the conversion, which may still fail.
  predicate ReachesAnchor<T>(f: Fifo<T>, b: Batch<T>) {
    ReachesRefresh(f, b)
    && if NeedsResampler(f, b.src) then PushResult(f, b) == Ok else |b.frames| <= f.Free()
  }

  function Refreshed<T>(f: Fifo<T>, src: Format): Fifo<T> {
    f.(format := f.format.(channelMap := Candidate(f.format.channels, src.channelMap)))
  }

  // The refresh and the anchor stay when a later check fails.
  function Marked<T>(f: Fifo<T>, b: Batch<T>): Fifo<T> {
    if !ReachesRefresh(f, b) then f
    else if !ReachesAnchor(f, b) then Refreshed(f, b.src)
    else Refreshed(f, b.src).Lay(Delayed(b.pts, b.delay))
  }

  function Pushed<T>(f: Fifo<T>, b: Batch<T>): Fifo<T> {
    if PushResult(f, b) != Ok || b.frames == [] then Marked(f, b) else Marked(f, b).Accept(Incoming(f, b))
  }

  function SilenceResult<T>(f: Fifo<T>, n: nat): Error {
    if !f.format.Valid() then InvalidArgument
    else if n > 0 && f.Free() < n then NoSpace
    else Ok
  }

  // Silence is written in chunks that fit a scratch of 4096 floats and stop short
  // of the wrap. With more than 4096 channels a chunk is no frames at all, and the
  // loop never ends: such a call does not return, and no run gets past it.
  function Chunk(channels: nat, toWrap: nat, remaining: nat): nat
    requires channels > 0
  {
    var most := 4096 / channels;
    var chunk := if remaining > most then most else remaining;
    if chunk > toWrap then toWrap else chunk
  }

  lemma ChunkIsEmptyExactlyPast4096(channels: nat, toWrap: nat, remaining: nat)
    requires channels > 0 && toWrap > 0 && remaining > 0
    ensures Chunk(channels, toWrap, remaining) == 0 <==> channels > 4096
    ensures Chunk(channels, toWrap, remaining) <= toWrap && Chunk(channels, toWrap, remaining) <= remaining
  {
    AtLeastOneEach(channels);
  }

  lemma AtLeastOneEach(channels: nat)
    requires channels > 0
    ensures 4096 / channels == 0 <==> channels > 4096
  {
    var q, r := 4096 / channels, 4096 % channels;
    assert 4096 == channels * q + r;
    if channels > 4096 && q > 0 { AtLeastOnce(channels, q); }
  }

  // Where the chunk loop stands: what is still to write, and the fill and tail.
  datatype SilenceLoop = SilenceLoop(remaining: nat, count: nat, tail: nat)

  function NextChunk(l: SilenceLoop, channels: nat, capacity: nat): SilenceLoop
    requires channels > 0 && l.tail < capacity
  {
    var chunk := Chunk(channels, capacity - l.tail, l.remaining);
    SilenceLoop(if chunk <= l.remaining then l.remaining - chunk else 0, l.count + chunk,
                (l.tail + chunk) % capacity)
  }

  // An iteration changes nothing at all, so that the next one is the same, exactly
  // when there are more than 4096 channels.
  lemma SilenceStallsExactlyPast4096(l: SilenceLoop, channels: nat, capacity: nat)
    requires channels > 0 && l.tail < capacity && l.remaining > 0
    ensures NextChunk(l, channels, capacity) == l <==> channels > 4096
  {
    ChunkIsEmptyExactlyPast4096(channels, capacity - l.tail, l.remaining);
  }

  predicate SilenceEnds<T>(f: Fifo<T>, n: nat) {
    SilenceResult(f, n) == Ok && n > 0 ==> f.format.channels <= 4096
  }

  // The anchor is laid before the checks, so it stays even when they fail.
  function Silenced<T>(f: Fifo<T>, n: nat, silence: T, pts: Stamp): Fifo<T> {
    if SilenceResult(f, n) != Ok then f.Lay(pts) else f.Lay(pts).Accept(Repeat(silence, n))
  }

  function Taken<T>(f: Fifo<T>, n: nat): nat {
    if n < |f.buffered| then n else |f.buffered|
  }

  function Removed<T>(f: Fifo<T>, n: nat): Fifo<T> {
    var k := Taken(f, n);
    f.(buffered := f.buffered[k..], consumed := f.consumed + k)
  }

  // A payload taken off the front carries the format as it is at that moment.
  datatype Payload<T> = Payload(format: Format, frames: seq<T>, pts: Stamp)

  function PayloadResult<T>(f: Fifo<T>, least: nat, most: nat): Error {
    if most == 0 || least > most || !f.format.Valid() then InvalidArgument
    else if |f.buffered| < least then TryAgain
    else Ok
  }

  function PayloadOf<T>(f: Fifo<T>, most: nat): Payload<T> {
    var k := Taken(f, most);
    Payload(f.format, f.buffered[..k], if k > 0 then f.Pts(f.consumed) else NoStamp)
  }

  function Reserved<T>(f: Fifo<T>, n: nat): Fifo<T> {
    if !f.format.Valid() || n <= f.capacity then f else f.(capacity := n)
  }

  function Cleared<T>(f: Fifo<T>): Fifo<T> {
    f.(buffered := [], produced := 0, consumed := 0, history := [])
  }

  function Reformatted<T>(f: Fifo<T>, format: Format): Fifo<T> {
    Fifo(format, 0, [], 0, 0, [], f.drift, f.shaped)
  }

  // The anchors go; the samples and both counters stay.
  function InputChanged<T>(f: Fifo<T>): Fifo<T> {
    f.(history := [])
  }
}
