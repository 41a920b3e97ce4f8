// What the audio FIFO promises over whole runs: samples leave in the order
// they were accepted, and each is dated by the stamped push it belongs to.

module AudioFifoLaws {
  import opened Errors
  import opened Timeline
  import opened AudioFifo
  import opened ChannelRoles

  datatype Op<T> =
    | Push(batch: Batch<T>)
    | PushSilence(n: nat, pts: Stamp, delay: int)
    | Take(n: nat) // pop or drop
    | Reserve(n: nat)
    | SetInputFormat
    | Clear
    | SetFormat(format: Format)
    | Configure(drift: bool, shaped: bool)

  function Apply<T>(f: Fifo<T>, op: Op<T>, silence: T): Fifo<T> {
    match op
    case Push(b) => Pushed(f, b)
    case PushSilence(n, pts, delay) => Silenced(f, n, silence, Delayed(pts, delay))
    case Take(n) => Removed(f, n)
    case Reserve(n) => Reserved(f, n)
    case SetInputFormat => InputChanged(f)
    case Clear => Cleared(f)
    case SetFormat(format) => Reformatted(f, format)
    case Configure(drift, shaped) => f.(drift := drift, shaped := shaped)
  }

  // The calls that can fail, the ones that get as far as their anchor, and the
  // date they bring.
  function Result<T>(f: Fifo<T>, op: Op<T>): Error {
    match op
    case Push(b) => PushResult(f, b)
    case PushSilence(n, _, _) => SilenceResult(f, n)
    case _ => Ok
  }

  predicate LaysAnchor<T>(f: Fifo<T>, op: Op<T>) {
    match op
    case Push(b) => ReachesAnchor(f, b)
    case PushSilence(_, _, _) => true
    case _ => false
  }

  function StampOf<T>(op: Op<T>): Stamp {
    match op
    case Push(b) => Delayed(b.pts, b.delay)
    case PushSilence(_, pts, delay) => Delayed(pts, delay)
    case _ => NoStamp
  }

  // ---------------------------------------------------------------------
  // An independent account of the same run
  // ---------------------------------------------------------------------

  // The frames an operation adds to the stream, judged from the outside.
  function Added<T>(f: Fifo<T>, op: Op<T>, silence: T): seq<T> {
    match op
    case Push(b) => if PushResult(f, b) == Ok then Incoming(f, b) else []
    case PushSilence(n, _, _) => if SilenceResult(f, n) == Ok then Repeat(silence, n) else []
    case _ => []
  }

  // `dates[i]` is the date given to accepted frame i when it was accepted;
  // `clock` is the stamped call that later unstamped frames continue.
  datatype Ledger<T> = Ledger(accepted: seq<T>, delivered: seq<T>, dates: seq<Stamp>, clock: Clock)

  datatype Clock = NoClock | Running(since: nat, ns: int)

  function Reading(c: Clock, i: nat, rate: real): Stamp
    requires rate > 0.0 && (c.Running? ==> c.since <= i)
  {
    if c.NoClock? then NoStamp else At(c.ns + Step(i - c.since, rate))
  }

  function Readings(c: Clock, from: nat, n: nat, rate: real): (s: seq<Stamp>)
    requires rate > 0.0 && (c.Running? ==> c.since <= from)
    ensures |s| == n
    ensures forall k :: 0 <= k < n ==> s[k] == Reading(c, from + k, rate)
  {
    seq(n, k requires 0 <= k < n => Reading(c, from + k, rate))
  }

  function Set(c: Clock, at: nat, pts: Stamp): Clock {
    if pts.At? then Running(at, pts.ns) else c
  }

  ghost predicate LedgerValid<T>(l: Ledger<T>) {
    |l.dates| == |l.accepted| && (l.clock.Running? ==> l.clock.since <= |l.accepted|)
  }

  // A call that gets as far as its anchor sets the clock even when it fails. A
  // stamped push of nothing does not; stamped silence of no length does.
  function Clocked<T>(l: Ledger<T>, f: Fifo<T>, op: Op<T>): (r: Ledger<T>)
    requires LedgerValid(l)
    ensures LedgerValid(r)
  {
    if LaysAnchor(f, op) then l.(clock := Set(l.clock, |l.accepted|, StampOf(op))) else l
  }

  function Extended<T>(l: Ledger<T>, added: seq<T>, rate: real): (r: Ledger<T>)
    requires LedgerValid(l) && rate > 0.0
    ensures LedgerValid(r)
  {
    Ledger(l.accepted + added, l.delivered, l.dates + Readings(l.clock, |l.accepted|, |added|, rate), l.clock)
  }

  lemma NothingExtended<T>(l: Ledger<T>, rate: real)
    requires LedgerValid(l) && rate > 0.0
    ensures Extended(l, [], rate) == l
  {
  }

  function Record<T>(l: Ledger<T>, f: Fifo<T>, op: Op<T>, silence: T): (r: Ledger<T>)
    requires LedgerValid(l)
    ensures LedgerValid(r)
  {
    match op
    case Clear => Empty()
    case SetFormat(_) => Empty()
    case SetInputFormat => l.(dates := seq(|l.accepted|, _ => NoStamp), clock := NoClock)
    case Take(k) => l.(delivered := l.delivered + f.buffered[..Taken(f, k)])
    case Reserve(_) => l
    case Configure(_, _) => l
    case Push(_) | PushSilence(_, _, _) =>
      var m := Clocked(l, f, op);
      if Result(f, op) != Ok then m else Extended(m, Added(f, op, silence), f.format.rate)
  }

  // Samples: what went out and what is still buffered is what came in.
  ghost predicate Conserves<T>(f: Fifo<T>, l: Ledger<T>) {
    && f.Valid()
    && l.delivered + f.buffered == l.accepted
    && f.produced == |l.accepted| && f.consumed == |l.delivered|
  }

  // Dates: looking an index up in the anchors finds the recorded date, and
  // for frames still to come, what the clock will read. An invalid format
  // accepts nothing and dates nothing.
  ghost predicate Dated<T>(f: Fifo<T>, l: Ledger<T>) {
    && LedgerValid(l) && f.produced == |l.accepted|
    && (!f.format.Valid() ==> l.accepted == [])
    && (f.format.Valid() ==>
          && (forall i :: 0 <= i < |l.accepted| ==> f.Pts(i) == l.dates[i])
          && (forall i :: |l.accepted| <= i ==> f.Pts(i) == Reading(l.clock, i, f.format.rate)))
  }

  // ---------------------------------------------------------------------
  // One step
  // ---------------------------------------------------------------------

  lemma LayConserves<T>(f: Fifo<T>, l: Ledger<T>, pts: Stamp)
    requires Conserves(f, l)
    ensures Conserves(f.Lay(pts), l.(clock := Set(l.clock, |l.accepted|, pts)))
  {
  }

  lemma AcceptConserves<T>(f: Fifo<T>, l: Ledger<T>, added: seq<T>, rate: real)
    requires LedgerValid(l) && Conserves(f, l) && |added| <= f.Free() && rate > 0.0
    ensures Conserves(f.Accept(added), Extended(l, added, rate))
  {
    Regroup(l.delivered, f.buffered, added);
  }

  lemma StepConserves<T>(f: Fifo<T>, l: Ledger<T>, op: Op<T>, silence: T)
    requires LedgerValid(l) && Conserves(f, l)
    ensures Conserves(Apply(f, op, silence), Record(l, f, op, silence))
  {
    match op
    case Take(n) =>
      var k := Taken(f, n);
      assert l.delivered + f.buffered[..k] + f.buffered[k..] == l.delivered + f.buffered;
    case Push(b) => PushConserves(f, l, b, silence);
    case PushSilence(n, _, _) =>
      hide Conserves;
      LayConserves(f, l, StampOf(op));
      if SilenceResult(f, n) == Ok {
        AcceptConserves(f.Lay(StampOf(op)), Clocked(l, f, op), Repeat(silence, n), f.format.rate);
      }
    case _ =>
  }

  lemma PushConserves<T>(f: Fifo<T>, l: Ledger<T>, b: Batch<T>, silence: T)
    requires LedgerValid(l) && Conserves(f, l)
    ensures Conserves(Pushed(f, b), Record(l, f, Push(b), silence))
  {
    hide Candidate, Readings, Extended;
    MarkConserves(f, l, b);
    if PushResult(f, b) == Ok {
      hide Conserves;
      assert Marked(f, b).Free() == f.Free();
      AcceptConserves(Marked(f, b), Clocked(l, f, Push(b)), Incoming(f, b), f.format.rate);
      NothingAccepted(Marked(f, b));
    }
  }

  lemma MarkConserves<T>(f: Fifo<T>, l: Ledger<T>, b: Batch<T>)
    requires LedgerValid(l) && Conserves(f, l)
    ensures Conserves(Marked(f, b), Clocked(l, f, Push(b)))
  {
    hide Candidate, PushResult;
    if ReachesAnchor(f, b) {
      assert Conserves(Refreshed(f, b.src), l);
      LayConserves(Refreshed(f, b.src), l, StampOf(Push(b)));
    }
  }

  lemma NothingAccepted<T>(f: Fifo<T>)
    ensures f.Accept([]) == f
  {
    assert f.buffered + [] == f.buffered;
  }

  lemma Regroup<T>(a: seq<T>, b: seq<T>, c: seq<T>)
    ensures a + b + c == a + (b + c)
  {
  }

  // Laying an anchor at the end of the stream restarts the clock there.
  lemma LayDates<T>(f: Fifo<T>, l: Ledger<T>, pts: Stamp)
    requires Dated(f, l)
    ensures Dated(f.Lay(pts), l.(clock := Set(l.clock, |l.accepted|, pts)))
  {
    if pts.At? && f.format.Valid() {
      var a := Anchor(f.produced, pts.ns);
      forall i: nat
        ensures f.Lay(pts).Pts(i) ==
                if f.produced <= i then At(pts.ns + Step(i - f.produced, f.format.rate)) else f.Pts(i)
      {
        NewAnchorDates(f.history, a, i, f.format.rate);
      }
    }
  }

  // Accepting frames turns the clock's readings into recorded dates.
  lemma AcceptDates<T>(f: Fifo<T>, l: Ledger<T>, added: seq<T>)
    requires Dated(f, l) && f.format.Valid()
    ensures Dated(f.Accept(added), Extended(l, added, f.format.rate))
  {
    hide Step, StampAt, Readings;
    var n, g := |l.accepted|, f.Accept(added);
    var later := Readings(l.clock, n, |added|, f.format.rate);
    forall i | 0 <= i < n + |added|
      ensures g.Pts(i) == (l.dates + later)[i]
    {
      if i >= n {
        assert (l.dates + later)[i] == later[i - n] == Reading(l.clock, i, f.format.rate);
      }
      assert g.Pts(i) == f.Pts(i);
    }
    forall i | n + |added| <= i
      ensures g.Pts(i) == Reading(l.clock, i, f.format.rate)
    {
      assert g.Pts(i) == f.Pts(i);
    }
  }

  // A new channel map dates nothing.
  lemma RefreshDates<T>(f: Fifo<T>, l: Ledger<T>, src: Format)
    requires Dated(f, l)
    ensures Dated(Refreshed(f, src), l)
  {
    hide Step, Candidate;
    forall i: nat ensures Refreshed(f, src).Pts(i) == f.Pts(i) {
    }
  }

  lemma StepDates<T>(f: Fifo<T>, l: Ledger<T>, op: Op<T>, silence: T)
    requires Dated(f, l)
    ensures Dated(Apply(f, op, silence), Record(l, f, op, silence))
  {
    hide Step, Candidate, Extended, Repeat;
    match op
    case Push(b) =>
      if ReachesRefresh(f, b) {
        RefreshDates(f, l, b.src);
        if ReachesAnchor(f, b) {
          var g, pts := Refreshed(f, b.src), StampOf(op);
          LayDates(g, l, pts);
          if PushResult(f, b) == Ok {
            AcceptDates(g.Lay(pts), l.(clock := Set(l.clock, |l.accepted|, pts)), Incoming(f, b));
          }
        }
      } else if PushResult(f, b) == Ok {
        NothingExtended(l, f.format.rate);
      }
    case PushSilence(n, _, _) =>
      var pts := StampOf(op);
      LayDates(f, l, pts);
      if SilenceResult(f, n) == Ok {
        AcceptDates(f.Lay(pts), l.(clock := Set(l.clock, |l.accepted|, pts)), Repeat(silence, n));
      }
    case _ =>
      var g := Apply(f, op, silence);
      forall i: nat
        ensures g.Pts(i) == if op.Take? || op.Reserve? || op.Configure? then f.Pts(i) else NoStamp
      {
      }
  }

  // ---------------------------------------------------------------------
  // Whole runs
  // ---------------------------------------------------------------------

  function Fresh<T>(format: Format): Fifo<T> { Fifo(format, 0, [], 0, 0, [], false, false) }

  function Empty<T>(): Ledger<T> { Ledger([], [], [], NoClock) }

  function Run<T>(f: Fifo<T>, ops: seq<Op<T>>, silence: T): Fifo<T>
    decreases |ops|
  {
    if ops == [] then f else Run(Apply(f, ops[0], silence), ops[1..], silence)
  }

  function Account<T>(f: Fifo<T>, l: Ledger<T>, ops: seq<Op<T>>, silence: T): Ledger<T>
    requires LedgerValid(l)
    decreases |ops|
  {
    if ops == [] then l
    else Account(Apply(f, ops[0], silence), Record(l, f, ops[0], silence), ops[1..], silence)
  }

  lemma {:induction false} RunConserves<T>(f: Fifo<T>, l: Ledger<T>, ops: seq<Op<T>>, silence: T)
    requires LedgerValid(l) && Conserves(f, l)
    ensures Conserves(Run(f, ops, silence), Account(f, l, ops, silence))
    decreases |ops|
  {
    hide Apply, Record, Conserves;
    if ops == [] {
    } else {
      StepConserves(f, l, ops[0], silence);
      RunConserves(Apply(f, ops[0], silence), Record(l, f, ops[0], silence), ops[1..], silence);
    }
  }

  lemma {:induction false} RunDates<T>(f: Fifo<T>, l: Ledger<T>, ops: seq<Op<T>>, silence: T)
    requires Dated(f, l)
    ensures Dated(Run(f, ops, silence), Account(f, l, ops, silence))
    decreases |ops|
  {
    hide Apply, Record, Dated;
    DatedIsValid(f, l);
    if ops == [] {
    } else {
      StepDates(f, l, ops[0], silence);
      DatedIsValid(Apply(f, ops[0], silence), Record(l, f, ops[0], silence));
      RunDates(Apply(f, ops[0], silence), Record(l, f, ops[0], silence), ops[1..], silence);
    }
  }

  lemma DatedIsValid<T>(f: Fifo<T>, l: Ledger<T>)
    requires Dated(f, l)
    ensures LedgerValid(l)
  {
  }

  // From a fresh buffer: everything accepted since the last reset is either
  // delivered, in order, or still buffered, in order.
  lemma {:induction false} FifoOrder<T>(format: Format, ops: seq<Op<T>>, silence: T)
    ensures var f, l := Run(Fresh(format), ops, silence), Account(Fresh(format), Empty(), ops, silence);
            && f.consumed <= |l.accepted|
            && f.buffered == l.accepted[f.consumed..]
            && l.delivered == l.accepted[..f.consumed]
            && f.produced - f.consumed == |f.buffered| <= f.capacity
  {
    RunConserves(Fresh(format), Empty(), ops, silence);
  }

  // Every buffered frame carries the date it was accepted with, over any run.
  lemma {:induction false} BufferedFramesKeepTheirDates<T>(format: Format, ops: seq<Op<T>>, silence: T, k: nat)
    ensures var f, l := Run(Fresh(format), ops, silence), Account(Fresh(format), Empty(), ops, silence);
            k < |f.buffered| ==> f.consumed + k < |l.dates| && f.Pts(f.consumed + k) == l.dates[f.consumed + k]
  {
    RunConserves(Fresh(format), Empty(), ops, silence);
    RunDates(Fresh(format), Empty(), ops, silence);
  }

  // ---------------------------------------------------------------------
  // A second account, in which a failed call leaves no mark
  // ---------------------------------------------------------------------

  function RecordSuccesses<T>(l: Ledger<T>, f: Fifo<T>, op: Op<T>, silence: T): (r: Ledger<T>)
    requires LedgerValid(l)
    ensures LedgerValid(r)
  {
    if Result(f, op) != Ok then l else Record(l, f, op, silence)
  }

  // Two accounts that tell the same past and the same future.
  ghost predicate Agree<T>(k: Ledger<T>, l: Ledger<T>, format: Format) {
    && LedgerValid(k) && LedgerValid(l)
    && k.accepted == l.accepted && k.delivered == l.delivered && k.dates == l.dates
    && (format.Valid() ==> SameClock(k.clock, l.clock, |k.accepted|, format.rate))
  }

  ghost predicate SameClock(c: Clock, d: Clock, from: nat, rate: real)
    requires rate > 0.0 && (c.Running? ==> c.since <= from) && (d.Running? ==> d.since <= from)
  {
    forall i :: from <= i ==> Reading(c, i, rate) == Reading(d, i, rate)
  }

  // A failed call that lays its anchor does no harm when its stamp is what the
  // clock reads from here on anyway.
  ghost predicate Harmless<T>(f: Fifo<T>, l: Ledger<T>, op: Op<T>)
    requires LedgerValid(l)
  {
    Result(f, op) != Ok && LaysAnchor(f, op) && f.format.Valid() ==>
      SameClock(Set(l.clock, |l.accepted|, StampOf(op)), l.clock, |l.accepted|, f.format.rate)
  }

  lemma SameClockLater(c: Clock, d: Clock, from: nat, n: nat, rate: real)
    requires rate > 0.0 && (c.Running? ==> c.since <= from) && (d.Running? ==> d.since <= from)
    requires SameClock(c, d, from, rate)
    ensures Readings(c, from, n, rate) == Readings(d, from, n, rate)
    ensures SameClock(c, d, from + n, rate)
  {
    hide Reading;
  }

  lemma StampsAgree<T>(k: Ledger<T>, l: Ledger<T>, format: Format, pts: Stamp, added: seq<T>)
    requires Agree(k, l, format) && format.Valid()
    ensures var n := |k.accepted|;
            Agree(Extended(k.(clock := Set(k.clock, n, pts)), added, format.rate),
                  Extended(l.(clock := Set(l.clock, n, pts)), added, format.rate),
                  format)
  {
    hide Reading, Readings, SameClock;
    var n, rate := |k.accepted|, format.rate;
    var c, d := Set(k.clock, n, pts), Set(l.clock, n, pts);
    assert SameClock(c, d, n, rate) by { ClockIsItself(c, n, rate); }
    SameClockLater(c, d, n, |added|, rate);
  }

  lemma ClockIsItself(c: Clock, from: nat, rate: real)
    requires rate > 0.0 && (c.Running? ==> c.since <= from)
    ensures SameClock(c, c, from, rate)
  {
  }

  lemma StepAgrees<T>(f: Fifo<T>, k: Ledger<T>, l: Ledger<T>, op: Op<T>, silence: T)
    requires Agree(k, l, f.format) && Conserves(f, k)
    ensures Agree(Record(k, f, op, silence), RecordSuccesses(l, f, op, silence), Apply(f, op, silence).format)
            <==> Harmless(f, k, op)
  {
    hide Reading, Readings, Candidate, SameClock, Extended, Repeat;
    match op
    case Push(b) => PushAgrees(f, k, l, b, silence);
    case PushSilence(n, _, _) =>
      if SilenceResult(f, n) == Ok {
        StampsAgree(k, l, f.format, StampOf(op), Repeat(silence, n));
      } else if f.format.Valid() {
        SameClockChain(Set(k.clock, |k.accepted|, StampOf(op)), k.clock, l.clock, |k.accepted|, f.format.rate);
      }
    case Clear => if f.format.Valid() { ClockIsItself(NoClock, 0, f.format.rate); }
    case SetFormat(format) => if format.Valid() { ClockIsItself(NoClock, 0, format.rate); }
    case SetInputFormat => if f.format.Valid() { ClockIsItself(NoClock, |k.accepted|, f.format.rate); }
    case _ =>
  }

  lemma PushAgrees<T>(f: Fifo<T>, k: Ledger<T>, l: Ledger<T>, b: Batch<T>, silence: T)
    requires Agree(k, l, f.format)
    ensures Agree(Record(k, f, Push(b), silence), RecordSuccesses(l, f, Push(b), silence), f.format)
            <==> Harmless(f, k, Push(b))
  {
    hide Reading, Readings, SameClock, Extended, Convertible, NeedsResampler;
    var pts := StampOf<T>(Push(b));
    if PushResult(f, b) == Ok {
      if b.frames == [] {
        NothingExtended(k, f.format.rate);
        NothingExtended(l, f.format.rate);
      } else {
        StampsAgree(k, l, f.format, pts, Incoming(f, b));
      }
    } else if ReachesAnchor(f, b) {
      SameClockChain(Set(k.clock, |k.accepted|, pts), k.clock, l.clock, |k.accepted|, f.format.rate);
    }
  }

  lemma SameClockChain(a: Clock, c: Clock, d: Clock, from: nat, rate: real)
    requires rate > 0.0 && (a.Running? ==> a.since <= from)
    requires (c.Running? ==> c.since <= from) && (d.Running? ==> d.since <= from)
    requires SameClock(c, d, from, rate)
    ensures SameClock(a, d, from, rate) <==> SameClock(a, c, from, rate)
  {
    hide Reading;
  }

  // The accounts agree after every operation of a run.
  ghost predicate AgreeThroughout<T>(f: Fifo<T>, k: Ledger<T>, l: Ledger<T>, ops: seq<Op<T>>, silence: T)
    decreases |ops|
  {
    && Agree(k, l, f.format)
    && (ops == [] ||
        AgreeThroughout(Apply(f, ops[0], silence), Record(k, f, ops[0], silence),
                        RecordSuccesses(l, f, ops[0], silence), ops[1..], silence))
  }

  // No failed call of a run that lays its anchor says anything new.
  ghost predicate AllHarmless<T>(f: Fifo<T>, k: Ledger<T>, ops: seq<Op<T>>, silence: T)
    requires LedgerValid(k)
    decreases |ops|
  {
    ops == [] ||
    (Harmless(f, k, ops[0]) && AllHarmless(Apply(f, ops[0], silence), Record(k, f, ops[0], silence), ops[1..], silence))
  }

  // Failed calls leave the dates of a run alone, throughout it, exactly when every
  // one that got as far as its anchor repeats what the clock reads.
  lemma {:induction false} FailuresDateNothingExactlyWhenHarmless<T>(
    f: Fifo<T>, k: Ledger<T>, l: Ledger<T>, ops: seq<Op<T>>, silence: T)
    requires Agree(k, l, f.format) && Conserves(f, k)
    ensures AgreeThroughout(f, k, l, ops, silence) <==> AllHarmless(f, k, ops, silence)
    decreases |ops|
  {
    if ops == [] {
    } else {
      hide Apply, Record, RecordSuccesses, Agree, Harmless, Conserves;
      StepAgrees(f, k, l, ops[0], silence);
      StepConserves(f, k, ops[0], silence);
      var f', k', l' := Apply(f, ops[0], silence), Record(k, f, ops[0], silence),
                        RecordSuccesses(l, f, ops[0], silence);
      if Agree(k', l', f'.format) {
        FailuresDateNothingExactlyWhenHarmless(f', k', l', ops[1..], silence);
      } else {
      }
    }
  }

  // ---------------------------------------------------------------------
  // What a failed call leaves behind
  // ---------------------------------------------------------------------

  // A failed push of silence leaves the buffer as it was exactly when it
  // carried no timestamp.
  lemma FailedSilenceChangesNothing<T>(f: Fifo<T>, n: nat, silence: T, pts: Stamp)
    requires SilenceResult(f, n) != Ok
    ensures Silenced(f, n, silence, pts) == f <==> pts.NoStamp?
  {
    assert f.Lay(pts).history != f.history <==> pts.At?;
  }

  // A failed push of samples leaves the buffer as it was exactly when it failed
  // before the channel map is refreshed, or had no new map to hand on and laid no
  // anchor. A source that describes each of its channels hands on its own map.
  lemma FailedPushChangesNothing<T>(f: Fifo<T>, b: Batch<T>)
    requires PushResult(f, b) != Ok
    ensures Pushed(f, b) == f <==>
            !ReachesRefresh(f, b)
            || (Candidate(f.format.channels, b.src.channelMap) == f.format.channelMap
                && (b.pts.NoStamp? || !ReachesAnchor(f, b)))
    ensures |b.src.channelMap| == b.src.channels ==>
            (Pushed(f, b) == f <==>
             !ReachesRefresh(f, b)
             || (b.src.channelMap == f.format.channelMap && (b.pts.NoStamp? || !ReachesAnchor(f, b))))
  {
    hide Candidate;
    var m := Candidate(f.format.channels, b.src.channelMap);
    assert Refreshed(f, b.src).format.channelMap == m;
    assert b.pts.At? ==> |f.history + [Anchor(f.produced, b.pts.ns - b.delay)]| != |f.history|;
    if m == f.format.channelMap {
      assert Refreshed(f, b.src) == f;
    }
  }

  // All that a failed push can leave behind: a new label, and an anchor for what
  // is yet to come. What is buffered keeps its frames and its dates.
  lemma FailedPushLeavesMarksOnly<T>(f: Fifo<T>, b: Batch<T>, most: nat)
    requires PushResult(f, b) != Ok
    ensures var g := Pushed(f, b);
            && g.(format := f.format, history := f.history) == f
            && g.format.(channelMap := f.format.channelMap) == f.format
            && (if ReachesAnchor(f, b) && b.pts.At?
                then g.history == f.history + [Anchor(f.produced, b.pts.ns - b.delay)]
                else g.history == f.history)
            && (f.Valid() ==> PayloadOf(g, most) == PayloadOf(f, most).(format := g.format))
  {
    hide Candidate, Step;
    var g := Pushed(f, b);
    if f.Valid() && f.format.Valid() && Taken(f, most) > 0 && ReachesAnchor(f, b) && b.pts.At? {
      NewAnchorDates(f.history, Anchor(f.produced, b.pts.ns - b.delay), f.consumed, f.format.rate);
    }
  }

  // When a push succeeds, in terms of the fields themselves.
  lemma PushSucceedsExactlyWhen<T>(f: Fifo<T>, b: Batch<T>)
    ensures PushResult(f, b) == Ok <==>
            && f.format.id > 0 && f.format.rate > 0.0 && f.format.channels > 0
            && b.src.id > 0 && b.src.rate > 0.0 && b.src.channels > 0
            && (b.frames == []
                || (b.src.channels == f.format.channels
                    && if f.drift || b.src.rate != f.format.rate
                       then !b.src.compressed && b.resampled.err == Ok
                            && |f.buffered| + |b.resampled.frames| <= f.capacity
                       else |f.buffered| + |b.frames| <= f.capacity
                            && (if b.src.compressed then !f.shaped && b.src.id == f.format.id
                                else f.shaped || b.src.id == f.format.id || !f.format.compressed)))
  {
  }

  // And why one fails, where no resampler is asked: each error has one cause.
  lemma PushErrors<T>(f: Fifo<T>, b: Batch<T>)
    requires !f.drift && b.src.rate == f.format.rate
    ensures PushResult(f, b) == InvalidArgument <==> !f.format.Valid() || !b.src.Valid()
    ensures f.format.Valid() && b.src.Valid() && b.frames != [] ==>
              && (PushResult(f, b) == NoSpace <==>
                    b.src.channels == f.format.channels && |f.buffered| + |b.frames| > f.capacity)
              && (PushResult(f, b) == NotSupported <==>
                    b.src.channels != f.format.channels
                    || (|f.buffered| + |b.frames| <= f.capacity
                        && (if b.src.compressed then f.shaped || b.src.id != f.format.id
                            else !f.shaped && b.src.id != f.format.id && f.format.compressed)))
  {
  }

  // What a pop, a drop or a payload takes: as much as was asked for or as there is,
  // whichever is less, off the front.
  lemma TakesTheLesser<T>(f: Fifo<T>, n: nat)
    requires f.Valid()
    ensures var g := Removed(f, n);
            && g.consumed - f.consumed == |f.buffered| - |g.buffered| == (if n < |f.buffered| then n else |f.buffered|)
            && PayloadOf(f, n).frames + g.buffered == f.buffered
            && g.produced == f.produced
            && (n >= |f.buffered| ==> g.buffered == [])
  {
  }

  // Which failures those are: with room and without the resampler, a format that
  // does not convert into the storage format.
  lemma FailsAfterAnchorExactlyWhenUnconvertible<T>(f: Fifo<T>, b: Batch<T>)
    ensures PushResult(f, b) != Ok && ReachesAnchor(f, b) <==>
            ReachesRefresh(f, b) && !NeedsResampler(f, b.src) && |b.frames| <= f.Free() && !Convertible(f, b.src)
  {
  }

  // A full stereo buffer refuses one more frame, and the frame it holds leaves as
  // a payload labelled with the refused push's channel map.
  lemma RefusedPushRelabels()
    ensures var mine := [Entry(Undefined, FRONT_LEFT), Entry(Undefined, FRONT_RIGHT)];
            var theirs := [Entry(Undefined, LEFT_TOTAL), Entry(Undefined, RIGHT_TOTAL)];
            var f := Fifo(Format(1, false, 48000.0, 2, mine), 1, ["old"], 1, 0, [], false, false);
            var b := Batch(["new"], Format(1, false, 48000.0, 2, theirs), NoStamp, Resampled([], NotSupported), 0);
            && f.Valid() && PushResult(f, b) == NoSpace
            && PayloadOf(Pushed(f, b), 1).frames == ["old"]
            && PayloadOf(f, 1).format.channelMap == mine
            && PayloadOf(Pushed(f, b), 1).format.channelMap == theirs
  {
    var mine := [Entry(Undefined, FRONT_LEFT), Entry(Undefined, FRONT_RIGHT)];
    var theirs := [Entry(Undefined, LEFT_TOTAL), Entry(Undefined, RIGHT_TOTAL)];
    var f := Fifo(Format(1, false, 48000.0, 2, mine), 1, ["old"], 1, 0, [], false, false);
    var b := Batch(["new"], Format(1, false, 48000.0, 2, theirs), NoStamp, Resampled([], NotSupported), 0);
    FailedPushLeavesMarksOnly(f, b, 1);
  }

  // The anchor a failed call leaves lets buffered samples alone, and redates
  // whatever is accepted next without a timestamp, unless it agrees with the
  // running clock.
  lemma StrayAnchorRedatesTheFuture<T>(f: Fifo<T>, op: Op<T>, silence: T, i: nat)
    requires f.Valid() && f.format.Valid()
    requires Result(f, op) != Ok && LaysAnchor(f, op) && StampOf(op).At?
    ensures var g, ns := Apply(f, op, silence), StampOf(op).ns;
            && g.buffered == f.buffered && g.produced == f.produced && g.consumed == f.consumed
            && (i < f.produced ==> g.Pts(i) == f.Pts(i))
            && (i >= f.produced ==> g.Pts(i) == At(ns + Step(i - f.produced, f.format.rate)))
            && (g.Pts(f.produced) == f.Pts(f.produced) <==> f.Pts(f.produced) == StampOf(op))
  {
    hide Candidate, Step, StampAt;
    var ns := StampOf(op).ns;
    NewAnchorDates(f.history, Anchor(f.produced, ns), i, f.format.rate);
    NewAnchorDates(f.history, Anchor(f.produced, ns), f.produced, f.format.rate);
    NoStepNoTime(f.format.rate);
  }

  lemma {:induction false} RunThree<T>(f: Fifo<T>, a: Op<T>, b: Op<T>, c: Op<T>, silence: T)
    ensures Run(f, [a, b, c], silence) == Apply(Apply(Apply(f, a, silence), b, silence), c, silence)
  {
    hide Apply;
    assert [a, b, c][1..] == [b, c] && [b, c][1..] == [c] && [c][1..] == [];
    var f1 := Apply(f, a, silence);
    var f2 := Apply(f1, b, silence);
    assert Run(f2, [c], silence) == Run(Apply(f2, c, silence), [], silence);
    assert Run(f1, [b, c], silence) == Run(f2, [c], silence);
  }

  // Ten frames of room, a stamped silence of twenty that fails, then one
  // unstamped frame: it comes out dated by the call that failed.
  lemma StrayAnchorExample()
    ensures var format := Format(1, false, 48000.0, 2, [Entry(Undefined, FRONT_LEFT), Entry(Undefined, FRONT_RIGHT)]);
            var next := Batch(["x"], format, NoStamp, Resampled([], NotSupported), 0);
            var f := Run(Fresh(format), [Reserve(10), PushSilence(20, At(77), 0), Push(next)], "silence");
            f.buffered == ["x"] && f.Pts(0) == At(77)
  {
    hide Run, Candidate, StampAt;
    var format := Format(1, false, 48000.0, 2, [Entry(Undefined, FRONT_LEFT), Entry(Undefined, FRONT_RIGHT)]);
    var next := Batch(["x"], format, NoStamp, Resampled([], NotSupported), 0);
    RunThree(Fresh(format), Reserve(10), PushSilence(20, At(77), 0), Push(next), "silence");
    var f2 := Silenced(Reserved(Fresh<string>(format), 10), 20, "silence", At(77));
    assert f2.history == [] + [Anchor(0, 77)] == [Anchor(0, 77)];
    NewAnchorDates([], Anchor(0, 77), 0, 48000.0);
    NoStepNoTime(48000.0);
  }

  // The same with a push: room enough, but a compressed source, which is refused
  // only after its anchor is laid.
  lemma UnconvertiblePushExample()
    ensures var pcm := Format(1, false, 48000.0, 2, [Entry(Undefined, FRONT_LEFT), Entry(Undefined, FRONT_RIGHT)]);
            var aac := pcm.(id := 2, compressed := true);
            var refused := Batch(["y"], aac, At(77), Resampled([], NotSupported), 0);
            var next := Batch(["x"], pcm, NoStamp, Resampled([], NotSupported), 0);
            var ops := [Reserve(10), Push(refused), Push(next)];
            var f := Run(Fresh(pcm), ops, "silence");
            && PushResult(Reserved(Fresh(pcm), 10), refused) == NotSupported
            && f.buffered == ["x"] && f.Pts(0) == At(77)
  {
    hide Run, Candidate, StampAt;
    var pcm := Format(1, false, 48000.0, 2, [Entry(Undefined, FRONT_LEFT), Entry(Undefined, FRONT_RIGHT)]);
    var refused := Batch(["y"], pcm.(id := 2, compressed := true), At(77), Resampled([], NotSupported), 0);
    var next := Batch(["x"], pcm, NoStamp, Resampled([], NotSupported), 0);
    RunThree(Fresh(pcm), Reserve(10), Push(refused), Push(next), "silence");
    var f2 := Pushed(Reserved(Fresh<string>(pcm), 10), refused);
    assert f2.history == [] + [Anchor(0, 77)] == [Anchor(0, 77)];
    NewAnchorDates([], Anchor(0, 77), 0, 48000.0);
    NoStepNoTime(48000.0);
  }
}
