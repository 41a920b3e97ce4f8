// The copy-on-write packet handle under any interleaving of threads: each handle
// is used by one thread at a time, but handles share their bodies, and a setter
// is several atomic steps - probe the reference count, clone, release, write.

module CowPacket {
  import opened Bytes

  // The fields a packet body carries; format, transport and metadata are opaque.
  datatype Packet = Packet(
    format: nat, transport: nat, data: bytes, meta: nat,
    line: u16, hOffset: u16, fieldB: bool, cBit: bool, streamNum: byte)

  const BLANK: Packet := Packet(0, 0, [], 0, 0x7FE, 0xFFF, false, false, 0)

  datatype Change =
    | SetFormat(format: nat)
    | SetTransport(transport: nat)
    | SetData(data: bytes)
    | SetMeta(meta: nat)
    | SetLine(line: u16)
    | SetHOffset(hOffset: u16)
    | SetFieldB(fieldB: bool)
    | SetCBit(cBit: bool)
    | SetStreamNum(streamNum: byte)
    | SetFraming(line: u16, hOffset: u16, fieldB: bool, cBit: bool, streamNum: byte)

  function Changed(p: Packet, c: Change): Packet {
    match c
    case SetFormat(x) => p.(format := x)
    case SetTransport(x) => p.(transport := x)
    case SetData(x) => p.(data := x)
    case SetMeta(x) => p.(meta := x)
    case SetLine(x) => p.(line := x)
    case SetHOffset(x) => p.(hOffset := x)
    case SetFieldB(x) => p.(fieldB := x)
    case SetCBit(x) => p.(cBit := x)
    case SetStreamNum(x) => p.(streamNum := x)
    case SetFraming(l, h, f, c, n) => p.(line := l, hOffset := h, fieldB := f, cBit := c, streamNum := n)
  }

  function ChangedAll(p: Packet, cs: seq<Change>): Packet
    decreases |cs|
  {
    if cs == [] then p else ChangedAll(Changed(p, cs[0]), cs[1..])
  }

  // ---------------------------------------------------------------------
  // The shared heap
  // ---------------------------------------------------------------------

  type Handle = nat
  type Loc = nat

  // A body: its atomic reference count and its fields.
  datatype Body = Body(refs: int, packet: Packet)

  // What a handle's thread is doing with it.
  datatype Phase =
    | Idle(at: Loc)
    | Cloning(at: Loc, change: Change)                  // probed: shared
    | Releasing(at: Loc, copy: Loc, change: Change)     // cloned, still holding `at`
    | Writing(at: Loc, change: Change)                  // probed: sole owner

  datatype State = State(heap: map<Loc, Body>, handles: map<Handle, Phase>, freed: seq<Loc>)

  const NOTHING: State := State(map[], map[], [])

  datatype Step =
    | Create(h: Handle, loc: Loc)
    | Copy(h: Handle, src: Handle)
    | Destroy(h: Handle)
    | Probe(h: Handle, change: Change)
    | Clone(h: Handle, loc: Loc)
    | Release(h: Handle)
    | Write(h: Handle)

  function Inc(heap: map<Loc, Body>, l: Loc): map<Loc, Body>
    requires l in heap
  {
    heap[l := heap[l].(refs := heap[l].refs + 1)]
  }

  // Drops one reference; the one that brings the count to zero frees the body.
  function Dec(s: State, l: Loc): State
    requires l in s.heap
  {
    if s.heap[l].refs == 1 then s.(heap := s.heap - {l}, freed := s.freed + [l])
    else s.(heap := s.heap[l := s.heap[l].(refs := s.heap[l].refs - 1)])
  }

  predicate Used(s: State, l: Loc) {
    l in s.heap || l in s.freed
  }

  // Which steps the threads can take; nothing here says the body is still there.
  predicate Enabled(s: State, step: Step) {
    match step
    case Create(h, l) => h !in s.handles && !Used(s, l)
    case Copy(h, src) => h !in s.handles && src in s.handles && s.handles[src].Idle?
    case Destroy(h) => h in s.handles && s.handles[h].Idle?
    case Probe(h, _) => h in s.handles && s.handles[h].Idle?
    case Clone(h, l) => h in s.handles && s.handles[h].Cloning? && !Used(s, l)
    case Release(h) => h in s.handles && s.handles[h].Releasing?
    case Write(h) => h in s.handles && s.handles[h].Writing?
  }

  // The body a step reads, counts or writes, if any.
  function Accessed(s: State, step: Step): set<Loc>
    requires Enabled(s, step)
  {
    match step
    case Create(_, _) => {}
    case Copy(_, src) => {s.handles[src].at}
    case _ => {s.handles[step.h].at}
  }

  predicate Live(s: State, step: Step)
    requires Enabled(s, step)
  {
    Accessed(s, step) <= s.heap.Keys && (step.Release? ==> s.handles[step.h].copy in s.heap)
  }

  function Act(s: State, step: Step): State
    requires Enabled(s, step) && Live(s, step)
  {
    match step
    case Create(h, l) => s.(heap := s.heap[l := Body(1, BLANK)], handles := s.handles[h := Idle(l)])
    case Copy(h, src) =>
      var l := s.handles[src].at;
      s.(heap := Inc(s.heap, l), handles := s.handles[h := Idle(l)])
    case Destroy(h) =>
      Dec(s, s.handles[h].at).(handles := s.handles - {h})
    case Probe(h, c) =>
      var l := s.handles[h].at;
      s.(handles := s.handles[h := if s.heap[l].refs < 2 then Writing(l, c) else Cloning(l, c)])
    case Clone(h, l) =>
      var p := s.handles[h];
      s.(heap := s.heap[l := Body(1, s.heap[p.at].packet)],
         handles := s.handles[h := Releasing(p.at, l, p.change)])
    case Release(h) =>
      var p := s.handles[h];
      Dec(s, p.at).(handles := s.handles[h := Writing(p.copy, p.change)])
    case Write(h) =>
      var p := s.handles[h];
      s.(heap := s.heap[p.at := s.heap[p.at].(packet := Changed(s.heap[p.at].packet, p.change))],
         handles := s.handles[h := Idle(p.at)])
  }

  // One step of a run; a step that is not enabled, or would touch a freed body,
  // goes nowhere.
  function Do(s: State, step: Step): State {
    if Enabled(s, step) && Live(s, step) then Act(s, step) else s
  }

  // ---------------------------------------------------------------------
  // The specification: independent plain values
  // ---------------------------------------------------------------------

  type Values = map<Handle, Packet>

  // A setter takes effect at its write; the steps before it change nothing.
  function Plain(v: Values, s: State, step: Step): Values {
    if !Enabled(s, step) then v
    else
      match step
      case Create(h, _) => v[h := BLANK]
      case Copy(h, src) => if src in v then v[h := v[src]] else v
      case Destroy(h) => v - {h}
      case Write(h) => if h in v then v[h := Changed(v[h], s.handles[h].change)] else v
      case _ => v
  }

  // ---------------------------------------------------------------------
  // The invariant
  // ---------------------------------------------------------------------

  function Holders(hs: map<Handle, Phase>, l: Loc): set<Handle> {
    set h | h in hs && hs[h].at == l
  }

  // Bodies a thread has cloned but not yet installed.
  function Copies(hs: map<Handle, Phase>, l: Loc): set<Handle> {
    set h | h in hs && hs[h].Releasing? && hs[h].copy == l
  }

  // The count is the number of holders, and a body nobody holds is gone.
  ghost predicate Counted(s: State, l: Loc) {
    l in s.heap ==>
      s.heap[l].refs > 0 && s.heap[l].refs == |Holders(s.handles, l)| + |Copies(s.handles, l)|
  }

  // A handle's body is there and holds its value; a writer is alone on its body,
  // and a clone belongs to the thread that made it.
  ghost predicate Sound(s: State, v: Values, h: Handle) {
    h in s.handles ==>
      var p := s.handles[h];
      && h in v && p.at in s.heap && s.heap[p.at].packet == v[h]
      && (p.Writing? ==> Holders(s.handles, p.at) == {h} && Copies(s.handles, p.at) == {})
      && (p.Releasing? ==>
            && p.copy in s.heap && s.heap[p.copy].packet == v[h] && p.copy != p.at
            && Holders(s.handles, p.copy) == {} && Copies(s.handles, p.copy) == {h})
  }

  ghost predicate FreedOnce(s: State) {
    && (forall l :: l in s.freed ==> l !in s.heap)
    && (forall i, j :: 0 <= i < j < |s.freed| ==> s.freed[i] != s.freed[j])
  }

  ghost predicate Inv(s: State, v: Values) {
    && (forall l :: Counted(s, l)) && (forall h :: Sound(s, v, h))
    && v.Keys == s.handles.Keys && FreedOnce(s)
  }
}
