// ANC frame synchronisation as values: what a slot's disposition does to a
// frame's ancillary packets and to the stash that carries dropped cues over.

module FrameSync {
  import opened Errors

  type FormatId = nat

  datatype Packet = Packet(format: FormatId, data: seq<nat>)

  datatype Payload =
    | Missing                        // an empty payload slot
    | Media(content: nat)            // video or audio
    | Anc(packets: seq<Packet>)

  type Frame = seq<Payload>

  datatype Disposition = Play | Drop | Repeat(count: nat)

  type Failure = e: Error | e != Ok witness Failed

  datatype PolicyResult = Packets(list: seq<Packet>) | PolicyError(error: Failure)

  // The per-format policies, as the translator dispatches to them.
  datatype Policies = Policies(
    registered: FormatId -> bool,
    run: (Packet, Disposition, nat) -> PolicyResult)
  {
    function Apply(p: Packet, d: Disposition, repeatIndex: nat): PolicyResult {
      if registered(p.format) then run(p, d, repeatIndex)
      else Packets(if d.Drop? then [] else [p])
    }
  }

  // One stashed format; the stash lists them by ascending format.
  datatype Entry = Entry(format: FormatId, packets: seq<Packet>)

  function Insert(stash: seq<Entry>, e: Entry): seq<Entry> {
    if stash == [] || e.format < stash[0].format then [e] + stash
    else if e.format == stash[0].format then [e] + stash[1..]
    else [stash[0]] + Insert(stash[1..], e)
  }

  function Flatten(stash: seq<Entry>): seq<Packet> {
    if stash == [] then [] else stash[0].packets + Flatten(stash[1..])
  }

  // ---------------------------------------------------------------------
  // Surviving slots
  // ---------------------------------------------------------------------

  // A packet list after the policy walk; a packet whose policy fails is lost.
  function Walked(pol: Policies, packets: seq<Packet>, d: Disposition, repeatIndex: nat): seq<Packet> {
    if packets == [] then []
    else
      var n := |packets| - 1;
      var r := pol.Apply(packets[n], d, repeatIndex);
      Walked(pol, packets[..n], d, repeatIndex) + (if r.Packets? then r.list else [])
  }

  function WalkedPayload(pol: Policies, p: Payload, d: Disposition, repeatIndex: nat): Payload {
    if p.Anc? then Anc(Walked(pol, p.packets, d, repeatIndex)) else p
  }

  function WalkedFrame(pol: Policies, f: Frame, d: Disposition, repeatIndex: nat): (g: Frame)
    ensures |g| == |f|
    ensures forall i :: 0 <= i < |f| ==> g[i] == WalkedPayload(pol, f[i], d, repeatIndex)
  {
    seq(|f|, i requires 0 <= i < |f| => WalkedPayload(pol, f[i], d, repeatIndex))
  }

  // The first ANC payload of a frame, or its length.
  function FirstAnc(f: Frame): (i: nat)
    ensures i <= |f| && (i < |f| ==> f[i].Anc?)
    ensures forall j :: 0 <= j < i ==> !f[j].Anc?
  {
    if f == [] || f[0].Anc? then 0 else 1 + FirstAnc(f[1..])
  }

  function Drained(f: Frame, stash: seq<Entry>): Frame {
    if stash == [] then f
    else
      var i := FirstAnc(f);
      if i < |f| then f[i := Anc(f[i].packets + Flatten(stash))] else f + [Anc(Flatten(stash))]
  }

  // ---------------------------------------------------------------------
  // Dropped slots
  // ---------------------------------------------------------------------

  function PacketsOf(p: Payload): seq<Packet> {
    if p.Anc? then p.packets else []
  }

  // The ANC packets of a frame in walking order.
  function AncPackets(f: Frame): seq<Packet> {
    if f == [] then []
    else
      var n := |f| - 1;
      AncPackets(f[..n]) + PacketsOf(f[n])
  }

  // How many packets the drop walk reaches, and what it hands to the stash on
  // the way: it stops at the first packet whose policy fails.
  datatype DropWalk = DropWalk(reached: nat, returned: seq<Entry>, err: Error)

  function Dropped(pol: Policies, packets: seq<Packet>): (w: DropWalk)
    ensures w.reached <= |packets|
    ensures w.err == Ok ==> w.reached == |packets|
    ensures forall e :: e in w.returned ==> e.packets != []
  {
    if packets == [] then DropWalk(0, [], Ok)
    else
      var n := |packets| - 1;
      var before := Dropped(pol, packets[..n]);
      if before.err != Ok then before
      else
        var r := pol.Apply(packets[n], Drop, 0);
        if r.PolicyError? then DropWalk(n + 1, before.returned, r.error)
        else if r.list == [] then DropWalk(n + 1, before.returned, Ok)
        else DropWalk(n + 1, before.returned + [Entry(packets[n].format, r.list)], Ok)
  }

  function InsertAll(stash: seq<Entry>, es: seq<Entry>): seq<Entry> {
    if es == [] then stash else Insert(InsertAll(stash, es[..|es| - 1]), es[|es| - 1])
  }

  // ---------------------------------------------------------------------
  // Slots
  // ---------------------------------------------------------------------

  datatype Output = Output(frames: seq<Frame>, err: Error)

  function Repeats(pol: Policies, f: Frame, d: Disposition, n: nat, stash: seq<Entry>): (out: seq<Frame>)
    ensures |out| == n
  {
    if n == 0 then []
    else
      var g := WalkedFrame(pol, f, d, n - 1);
      Repeats(pol, f, d, n - 1, stash) + [if n == 1 then Drained(g, stash) else g]
  }

  function Emitted(pol: Policies, f: Frame, d: Disposition, stash: seq<Entry>): Output {
    match d
    case Drop => Output([], Dropped(pol, AncPackets(f)).err)
    case Play => Output([Drained(WalkedFrame(pol, f, Play, 0), stash)], Ok)
    case Repeat(n) => Output(Repeats(pol, f, d, n, stash), Ok)
  }

  function NextStash(pol: Policies, f: Frame, d: Disposition, stash: seq<Entry>): seq<Entry> {
    match d
    case Drop => InsertAll(stash, Dropped(pol, AncPackets(f)).returned)
    case Play => []
    case Repeat(n) => if n == 0 then stash else []
  }

  // ---------------------------------------------------------------------
  // Warnings
  // ---------------------------------------------------------------------

  function Unregistered(pol: Policies, packets: seq<Packet>): set<FormatId> {
    set p | p in packets && !pol.registered(p.format) :: p.format
  }

  // The packets a slot sends through the policies.
  function Visited(pol: Policies, f: Frame, d: Disposition): seq<Packet> {
    match d
    case Drop => AncPackets(f)[..Dropped(pol, AncPackets(f)).reached]
    case Play => AncPackets(f)
    case Repeat(n) => if n == 0 then [] else AncPackets(f)
  }

  // ---------------------------------------------------------------------
  // One more packet, payload or entry
  // ---------------------------------------------------------------------

  lemma {:induction false} DropStops(pol: Policies, a: seq<Packet>, b: seq<Packet>)
    requires Dropped(pol, a).err != Ok
    ensures Dropped(pol, a + b) == Dropped(pol, a)
  {
    if b == [] {
      assert a + b == a;
    } else {
      assert (a + b)[..|a + b| - 1] == a + b[..|b| - 1];
      DropStops(pol, a, b[..|b| - 1]);
    }
  }

  lemma {:induction false} DropStep(pol: Policies, a: seq<Packet>, p: Packet)
    requires Dropped(pol, a).err == Ok
    ensures var r := pol.Apply(p, Drop, 0);
            Dropped(pol, a + [p]) ==
              if r.PolicyError? then DropWalk(|a| + 1, Dropped(pol, a).returned, r.error)
              else DropWalk(|a| + 1, Dropped(pol, a).returned
                                     + (if r.list == [] then [] else [Entry(p.format, r.list)]), Ok)
  {
    assert (a + [p])[..|a|] == a;
  }

  lemma {:induction false} InsertStep(stash: seq<Entry>, es: seq<Entry>, e: Entry)
    ensures InsertAll(stash, es + [e]) == Insert(InsertAll(stash, es), e)
  {
    assert (es + [e])[..|es|] == es;
  }

  lemma {:induction false} WalkStep(pol: Policies, a: seq<Packet>, p: Packet, d: Disposition, k: nat)
    ensures var r := pol.Apply(p, d, k);
            Walked(pol, a + [p], d, k) == Walked(pol, a, d, k) + (if r.Packets? then r.list else [])
  {
    assert (a + [p])[..|a|] == a;
  }

  lemma UnregisteredStep(pol: Policies, a: seq<Packet>, p: Packet)
    ensures Unregistered(pol, a + [p])
            == Unregistered(pol, a) + (if pol.registered(p.format) then {} else {p.format})
  {
  }

  lemma UnregisteredJoin(pol: Policies, a: seq<Packet>, b: seq<Packet>)
    ensures Unregistered(pol, a + b) == Unregistered(pol, a) + Unregistered(pol, b)
  {
  }

  lemma {:induction false} AncStep(f: Frame, p: Payload)
    ensures AncPackets(f + [p]) == AncPackets(f) + PacketsOf(p)
  {
    assert (f + [p])[..|f|] == f;
  }

  lemma {:induction false} AncJoin(f: Frame, g: Frame)
    ensures AncPackets(f + g) == AncPackets(f) + AncPackets(g)
  {
    if g == [] {
      assert f + g == f;
    } else {
      var n := |g| - 1;
      assert f + g == (f + g[..n]) + [g[n]];
      assert g == g[..n] + [g[n]];
      AncStep(f + g[..n], g[n]);
      AncStep(g[..n], g[n]);
      AncJoin(f, g[..n]);
    }
  }
}
