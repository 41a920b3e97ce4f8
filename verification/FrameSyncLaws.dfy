// What whole runs of the synchroniser keep: the stash holds the latest word on
// each format since the last surviving slot, no packet a policy returns is lost
// or doubled, and drained packets appear in one place only.

module FrameSyncLaws {
  import opened Errors
  import opened Bytes
  import opened FrameSync

  datatype Slot = Slot(frame: Frame, disposition: Disposition)

  function StashAfter(pol: Policies, slots: seq<Slot>): seq<Entry> {
    if slots == [] then []
    else
      var n := |slots| - 1;
      NextStash(pol, slots[n].frame, slots[n].disposition, StashAfter(pol, slots[..n]))
  }

  // ---------------------------------------------------------------------
  // The stash as a map
  // ---------------------------------------------------------------------

  ghost predicate Ascending(stash: seq<Entry>) {
    forall i, j :: 0 <= i < j < |stash| ==> stash[i].format < stash[j].format
  }

  lemma InFront(e: Entry, rest: seq<Entry>)
    ensures forall x :: x in [e] + rest <==> x == e || x in rest
    ensures Ascending([e] + rest) <==> Ascending(rest) && forall x <- rest :: e.format < x.format
  {
    var s := [e] + rest;
    if Ascending(s) {
      forall i, j | 0 <= i < j < |rest| ensures rest[i].format < rest[j].format {
        assert s[i + 1].format < s[j + 1].format;
      }
      forall j | 0 <= j < |rest| ensures e.format < rest[j].format {
        assert s[0].format < s[j + 1].format;
      }
    }
  }

  lemma {:induction false} InsertKeepsOnePerFormat(stash: seq<Entry>, e: Entry)
    requires Ascending(stash)
    ensures Ascending(Insert(stash, e))
    ensures forall x :: x in Insert(stash, e) <==> x == e || (x in stash && x.format != e.format)
  {
    hide Ascending;
    if stash == [] {
      InFront(e, []);
      assert [e] + [] == [e];
    } else {
      var rest := stash[1..];
      assert stash == [stash[0]] + rest;
      InFront(stash[0], rest);
      InFront(e, stash);
      InFront(e, rest);
      if e.format > stash[0].format {
        InsertKeepsOnePerFormat(rest, e);
        InFront(stash[0], Insert(rest, e));
      }
    }
  }

  // ---------------------------------------------------------------------
  // Latest wins
  // ---------------------------------------------------------------------

  datatype Mark = Stashed(entry: Entry) | Survived

  function Marks(es: seq<Entry>): seq<Mark> {
    if es == [] then [] else Marks(es[..|es| - 1]) + [Stashed(es[|es| - 1])]
  }

  // What a slot does that the stash can see.
  function SlotMarks(pol: Policies, s: Slot): seq<Mark> {
    match s.disposition
    case Drop => Marks(Dropped(pol, AncPackets(s.frame)).returned)
    case Play => [Survived]
    case Repeat(n) => if n == 0 then [] else [Survived]
  }

  function History(pol: Policies, slots: seq<Slot>): seq<Mark> {
    if slots == [] then []
    else
      var n := |slots| - 1;
      History(pol, slots[..n]) + SlotMarks(pol, slots[n])
  }

  // Mark k stashed e, and is the last word on e's format since the last
  // surviving slot.
  ghost predicate Latest(h: seq<Mark>, k: int, e: Entry) {
    && 0 <= k < |h| && h[k] == Stashed(e)
    && forall j :: k < j < |h| ==> h[j].Stashed? && h[j].entry.format != e.format
  }

  ghost predicate HoldsLatest(h: seq<Mark>, stash: seq<Entry>) {
    && Ascending(stash)
    && (forall e :: e in stash <==> exists k :: Latest(h, k, e))
  }

  lemma LatestBefore(h: seq<Mark>, m: Mark, k: int, e: Entry)
    ensures Latest(h + [m], k, e) <==>
            || (k == |h| && m == Stashed(e))
            || (Latest(h, k, e) && m.Stashed? && m.entry.format != e.format)
  {
    if 0 <= k < |h| && Latest(h + [m], k, e) {
      assert (h + [m])[|h|] == m;
      forall j | k < j < |h| ensures h[j].Stashed? && h[j].entry.format != e.format {
        assert (h + [m])[j] == h[j];
      }
    }
  }

  lemma {:induction false} StashingHoldsLatest(h: seq<Mark>, stash: seq<Entry>, e: Entry)
    requires HoldsLatest(h, stash)
    ensures HoldsLatest(h + [Stashed(e)], Insert(stash, e))
  {
    hide Latest, Insert;
    InsertKeepsOnePerFormat(stash, e);
    var h' := h + [Stashed(e)];
    forall x ensures x in Insert(stash, e) <==> exists k :: Latest(h', k, x) {
      forall k ensures Latest(h', k, x) <==>
        (k == |h| && x == e) || (Latest(h, k, x) && e.format != x.format)
      {
        LatestBefore(h, Stashed(e), k, x);
      }
      if x in stash && x.format != e.format {
        var k :| Latest(h, k, x);
        assert Latest(h', k, x);
      }
      assert x == e ==> Latest(h', |h|, x);
    }
  }

  lemma SurvivingHoldsNothing(h: seq<Mark>)
    ensures HoldsLatest(h + [Survived], [])
  {
    forall k, e ensures !Latest(h + [Survived], k, e) {
      LatestBefore(h, Survived, k, e);
    }
  }

  lemma {:induction false} StashingAllHoldsLatest(h: seq<Mark>, stash: seq<Entry>, es: seq<Entry>)
    requires HoldsLatest(h, stash)
    ensures HoldsLatest(h + Marks(es), InsertAll(stash, es))
  {
    hide HoldsLatest, Insert;
    if es == [] {
      assert h + Marks(es) == h;
    } else {
      var init, e := es[..|es| - 1], es[|es| - 1];
      StashingAllHoldsLatest(h, stash, init);
      StashingHoldsLatest(h + Marks(init), InsertAll(stash, init), e);
      Assoc(h, Marks(init), [Stashed(e)]);
    }
  }

  // After any run, the stash for a format is the last non-empty result of its
  // drop policy since the last slot that produced output, one entry per format.
  lemma {:induction false} StashIsTheLatestWord(pol: Policies, slots: seq<Slot>)
    ensures HoldsLatest(History(pol, slots), StashAfter(pol, slots))
  {
    if slots == [] {
      assert HoldsLatest([], []);
    } else {
      hide HoldsLatest, Dropped, AncPackets, InsertAll, Marks;
      var n := |slots| - 1;
      StashIsTheLatestWord(pol, slots[..n]);
      var h := History(pol, slots[..n]);
      match slots[n].disposition {
        case Drop =>
          StashingAllHoldsLatest(h, StashAfter(pol, slots[..n]),
                                 Dropped(pol, AncPackets(slots[n].frame)).returned);
        case Play => SurvivingHoldsNothing(h);
        case Repeat(r) =>
          if r == 0 { assert h + [] == h; } else { SurvivingHoldsNothing(h); }
      }
    }
  }

  // ---------------------------------------------------------------------
  // How much of a dropped frame is dispatched
  // ---------------------------------------------------------------------

  // Every packet of a dropped frame goes through its policy exactly when none but
  // possibly the last one fails there.
  lemma {:induction false} WholeFrameDispatched(pol: Policies, packets: seq<Packet>)
    ensures Dropped(pol, packets).reached == |packets|
            <==> forall i :: 0 <= i < |packets| - 1 ==> pol.Apply(packets[i], Drop, 0).Packets?
    ensures Dropped(pol, packets).err == Ok
            <==> forall i :: 0 <= i < |packets| ==> pol.Apply(packets[i], Drop, 0).Packets?
  {
    if packets == [] {
    } else {
      var n := |packets| - 1;
      WholeFrameDispatched(pol, packets[..n]);
      assert forall i :: 0 <= i < n ==> packets[..n][i] == packets[i];
    }
  }

  // ---------------------------------------------------------------------
  // Output frames
  // ---------------------------------------------------------------------

  lemma {:induction false} RepeatsAt(pol: Policies, f: Frame, d: Disposition, n: nat, stash: seq<Entry>, k: nat)
    requires k < n
    ensures Repeats(pol, f, d, n, stash)[k] ==
            (var g := WalkedFrame(pol, f, d, k); if k == 0 then Drained(g, stash) else g)
  {
    if k == n - 1 {
    } else {
      RepeatsAt(pol, f, d, n - 1, stash, k);
    }
  }

  lemma {:induction false} WalkedFirstAnc(pol: Policies, f: Frame, d: Disposition, k: nat)
    ensures FirstAnc(WalkedFrame(pol, f, d, k)) == FirstAnc(f)
  {
    var g := WalkedFrame(pol, f, d, k);
    assert |g| == |f| && forall m :: 0 <= m < |f| ==> g[m].Anc? == f[m].Anc?;
  }

  // Payload i of a frame the slot walks and drains `extra` into.
  function Expected(pol: Policies, p: Payload, d: Disposition, k: nat, extra: seq<Packet>): Payload {
    if p.Anc? then Anc(Walked(pol, p.packets, d, k) + extra) else p
  }

  // Every output frame, payload by payload: media untouched on all of them, each
  // ANC payload walked with its own repeat index, and the stash on frame 0
  // alone, at the end of the first ANC payload or in a fresh one.
  lemma {:induction false} OutputFrames(pol: Policies, f: Frame, d: Disposition, stash: seq<Entry>)
    ensures var out := Emitted(pol, f, d, stash).frames;
            && |out| == (match d case Drop => 0 case Play => 1 case Repeat(n) => n)
            && forall k :: 0 <= k < |out| ==>
                 && out[k] == Drained(WalkedFrame(pol, f, d, k), if k == 0 then stash else [])
                 && |out[k]| == |f| + (if k == 0 && stash != [] && FirstAnc(f) == |f| then 1 else 0)
                 && (|out[k]| > |f| ==> out[k][|f|] == Anc(Flatten(stash)))
                 && forall i :: 0 <= i < |f| ==>
                      out[k][i] == Expected(pol, f[i], d, k,
                                            if k == 0 && i == FirstAnc(f) then Flatten(stash) else [])
  {
    hide Walked, FirstAnc, Flatten;
    var out := Emitted(pol, f, d, stash).frames;
    forall k | 0 <= k < |out|
      ensures out[k] == Drained(WalkedFrame(pol, f, d, k), if k == 0 then stash else [])
    {
      if d.Repeat? { RepeatsAt(pol, f, d, d.count, stash, k); }
    }
    forall k | 0 <= k < |out|
      ensures && |out[k]| == |f| + (if k == 0 && stash != [] && FirstAnc(f) == |f| then 1 else 0)
              && (|out[k]| > |f| ==> out[k][|f|] == Anc(Flatten(stash)))
              && forall i :: 0 <= i < |f| ==>
                   out[k][i] == Expected(pol, f[i], d, k,
                                         if k == 0 && i == FirstAnc(f) then Flatten(stash) else [])
    {
      DrainedFrame(pol, f, d, k, if k == 0 then stash else []);
      if k == 0 && stash == [] { NothingFlat(); }
    }
  }

  lemma NothingFlat()
    ensures Flatten([]) == [] && multiset(Flatten([])) == multiset{}
  {
  }

  lemma {:induction false} DrainedFrame(pol: Policies, f: Frame, d: Disposition, k: nat, stash: seq<Entry>)
    ensures var g := Drained(WalkedFrame(pol, f, d, k), stash);
            && |g| == |f| + (if stash != [] && FirstAnc(f) == |f| then 1 else 0)
            && (|g| > |f| ==> g[|f|] == Anc(Flatten(stash)))
            && forall i :: 0 <= i < |f| ==>
                 g[i] == Expected(pol, f[i], d, k, if i == FirstAnc(f) then Flatten(stash) else [])
  {
    hide Walked, FirstAnc, Flatten;
    WalkedFirstAnc(pol, f, d, k);
    NothingFlat();
    forall p: Payload ensures Expected(pol, p, d, k, []) == WalkedPayload(pol, p, d, k) {
      if p.Anc? { assert Walked(pol, p.packets, d, k) + [] == Walked(pol, p.packets, d, k); }
    }
  }

  // ---------------------------------------------------------------------
  // Formats with and without a policy
  // ---------------------------------------------------------------------

  // No format of these packets has a policy, or each one has.
  ghost predicate NoneRegistered(pol: Policies, packets: seq<Packet>) {
    forall p <- packets :: !pol.registered(p.format)
  }

  ghost predicate AllRegistered(pol: Policies, packets: seq<Packet>) {
    forall p <- packets :: pol.registered(p.format)
  }

  // What the policies themselves make of the packets, one after the other; a packet
  // whose policy fails leaves nothing.
  function RunEach(pol: Policies, packets: seq<Packet>, d: Disposition, k: nat): seq<Packet> {
    if packets == [] then []
    else
      var n := |packets| - 1;
      var r := pol.run(packets[n], d, k);
      RunEach(pol, packets[..n], d, k) + (if r.PolicyError? then [] else r.list)
  }

  lemma {:induction false} CopiedWithoutPolicy(pol: Policies, packets: seq<Packet>, d: Disposition, k: nat)
    requires NoneRegistered(pol, packets) && !d.Drop?
    ensures Walked(pol, packets, d, k) == packets
  {
    if packets == [] {
    } else {
      var n := |packets| - 1;
      assert packets == packets[..n] + [packets[n]];
      CopiedWithoutPolicy(pol, packets[..n], d, k);
    }
  }

  lemma {:induction false} RunByPolicy(pol: Policies, packets: seq<Packet>, d: Disposition, k: nat)
    requires AllRegistered(pol, packets)
    ensures Walked(pol, packets, d, k) == RunEach(pol, packets, d, k)
  {
    if packets == [] {
    } else {
      var n := |packets| - 1;
      assert packets == packets[..n] + [packets[n]];
      RunByPolicy(pol, packets[..n], d, k);
    }
  }

  // On every output frame a payload of formats without a policy is copied, and one of
  // formats with a policy holds what their policies return for that disposition and
  // repeat index; the first ANC payload of frame 0 has the stash behind that.
  lemma {:induction false} PayloadsByPolicy(pol: Policies, f: Frame, d: Disposition, stash: seq<Entry>, k: nat, i: nat)
    requires k < |Emitted(pol, f, d, stash).frames| && i < |f| && f[i].Anc?
    ensures var extra := if k == 0 && (forall j :: 0 <= j < i ==> !f[j].Anc?) then Flatten(stash) else [];
            var g := Emitted(pol, f, d, stash).frames[k];
            && i < |g|
            && (NoneRegistered(pol, f[i].packets) ==> g[i] == Anc(f[i].packets + extra))
            && (AllRegistered(pol, f[i].packets) ==> g[i] == Anc(RunEach(pol, f[i].packets, d, k) + extra))
  {
    hide Emitted, Walked, Flatten, Drained;
    OutputFrames(pol, f, d, stash);
    if d.Drop? { NothingOut(pol, f, stash); }
    if NoneRegistered(pol, f[i].packets) { CopiedWithoutPolicy(pol, f[i].packets, d, k); }
    if AllRegistered(pol, f[i].packets) { RunByPolicy(pol, f[i].packets, d, k); }
    if forall j :: 0 <= j < i ==> !f[j].Anc? {
      assert FirstAnc(f) == i;
    } else {
      assert FirstAnc(f) < i;
    }
  }

  lemma NothingOut(pol: Policies, f: Frame, stash: seq<Entry>)
    ensures Emitted(pol, f, Drop, stash).frames == []
  {
  }

  // A dropped frame of formats without a policy leaves the stash alone.
  lemma {:induction false} UnregisteredDropLeavesNothing(pol: Policies, f: Frame, stash: seq<Entry>)
    requires NoneRegistered(pol, AncPackets(f))
    ensures NextStash(pol, f, Drop, stash) == stash
    ensures Emitted(pol, f, Drop, stash) == Output([], Ok)
  {
    NothingDropped(pol, AncPackets(f));
  }

  lemma {:induction false} NothingDropped(pol: Policies, packets: seq<Packet>)
    requires NoneRegistered(pol, packets)
    ensures Dropped(pol, packets) == DropWalk(|packets|, [], Ok)
  {
    if packets == [] {
    } else {
      var n := |packets| - 1;
      assert packets == packets[..n] + [packets[n]];
      NothingDropped(pol, packets[..n]);
    }
  }

  // A dropped packet whose format has a policy: what that policy returns for a drop
  // takes the format's place in the stash, nothing leaves it as it was, and its
  // error ends the walk.
  lemma {:induction false} RegisteredDropStashesItsResult(pol: Policies, p: Packet, stash: seq<Entry>)
    requires pol.registered(p.format)
    ensures var f, r := [Anc([p])], pol.run(p, Drop, 0);
            && Emitted(pol, f, Drop, stash).err == (if r.PolicyError? then r.error else Ok)
            && NextStash(pol, f, Drop, stash)
               == if r.PolicyError? || r.list == [] then stash else Insert(stash, Entry(p.format, r.list))
  {
    hide Dropped, Insert, AncPackets;
    OneDropped(pol, p);
    var r := pol.run(p, Drop, 0);
    if r.Packets? && r.list != [] { OneInserted(stash, Entry(p.format, r.list)); }
  }

  lemma {:induction false} OneDropped(pol: Policies, p: Packet)
    requires pol.registered(p.format)
    ensures AncPackets([Anc([p])]) == [p]
    ensures var r := pol.run(p, Drop, 0);
            Dropped(pol, [p]) == if r.PolicyError? then DropWalk(1, [], r.error)
                                 else DropWalk(1, if r.list == [] then [] else [Entry(p.format, r.list)], Ok)
  {
    AncStep([], Anc([p]));
    assert [] + [Anc([p])] == [Anc([p])] && [] + [p] == [p];
    DropStep(pol, [], p);
    var r := pol.run(p, Drop, 0);
    if r.Packets? { assert [] + [Entry(p.format, r.list)] == [Entry(p.format, r.list)]; }
  }

  lemma {:induction false} OneInserted(stash: seq<Entry>, e: Entry)
    ensures InsertAll(stash, [e]) == Insert(stash, e)
  {
    InsertStep(stash, [], e);
    assert [] + [e] == [e];
  }

  // ---------------------------------------------------------------------
  // Conservation
  // ---------------------------------------------------------------------

  // What a later entry of the same format takes out of the stash.
  function Replaced(stash: seq<Entry>, id: FormatId): seq<Packet> {
    if stash == [] then []
    else if stash[0].format == id then stash[0].packets
    else Replaced(stash[1..], id)
  }

  function ReplacedByAll(stash: seq<Entry>, es: seq<Entry>): multiset<Packet> {
    if es == [] then multiset{}
    else
      var n := |es| - 1;
      ReplacedByAll(stash, es[..n]) + multiset(Replaced(InsertAll(stash, es[..n]), es[n].format))
  }

  function AncOf(frames: seq<Frame>): multiset<Packet> {
    if frames == [] then multiset{}
    else AncOf(frames[..|frames| - 1]) + multiset(AncPackets(frames[|frames| - 1]))
  }

  // What the policies return for the slot: from the drop walk, or from every
  // walk of a surviving slot.
  function Returned(pol: Policies, f: Frame, d: Disposition): multiset<Packet> {
    match d
    case Drop => multiset(Flatten(Dropped(pol, AncPackets(f)).returned))
    case Play => multiset(AncPackets(WalkedFrame(pol, f, d, 0)))
    case Repeat(n) => AncOf(Repeats(pol, f, d, n, []))
  }

  function Superseded(pol: Policies, f: Frame, d: Disposition, stash: seq<Entry>): multiset<Packet> {
    if d.Drop? then ReplacedByAll(stash, Dropped(pol, AncPackets(f)).returned) else multiset{}
  }

  lemma {:induction false} ReplacedAbsent(stash: seq<Entry>, id: FormatId)
    requires Ascending(stash) && (stash != [] ==> id < stash[0].format)
    ensures Replaced(stash, id) == []
  {
    if stash == [] {
    } else {
      ReplacedAbsent(stash[1..], id);
    }
  }

  lemma {:induction false} FlattenJoin(a: seq<Entry>, b: seq<Entry>)
    ensures Flatten(a + b) == Flatten(a) + Flatten(b)
  {
    if a == [] {
      assert a + b == b;
    } else {
      assert (a + b)[1..] == a[1..] + b;
      FlattenJoin(a[1..], b);
      Assoc(a[0].packets, Flatten(a[1..]), Flatten(b));
    }
  }

  lemma Shift<T>(s: multiset<T>, a: multiset<T>, b: multiset<T>, c: multiset<T>, d: multiset<T>)
    requires a + b == c + d
    ensures s + a + b == s + c + d
  {
    assert s + a + b == s + (a + b);
    assert s + (c + d) == s + c + d;
  }

  lemma {:induction false} FlattenCons(e: Entry, rest: seq<Entry>)
    ensures Flatten([e] + rest) == e.packets + Flatten(rest)
    ensures multiset(Flatten([e] + rest)) == multiset(e.packets) + multiset(Flatten(rest))
  {
    assert ([e] + rest)[1..] == rest;
  }

  lemma {:induction false} InsertConserves(stash: seq<Entry>, e: Entry)
    requires Ascending(stash)
    ensures multiset(Flatten(Insert(stash, e))) + multiset(Replaced(stash, e.format))
            == multiset(Flatten(stash)) + multiset(e.packets)
  {
    hide Flatten;
    if stash == [] {
      FlattenCons(e, stash);
    } else {
      var rest := stash[1..];
      assert stash == [stash[0]] + rest;
      FlattenCons(stash[0], rest);
      FlattenCons(e, stash);
      FlattenCons(e, rest);
      if e.format < stash[0].format {
        ReplacedAbsent(stash, e.format);
      } else if e.format > stash[0].format {
        InsertConserves(rest, e);
        FlattenCons(stash[0], Insert(rest, e));
        Shift(multiset(stash[0].packets), multiset(Flatten(Insert(rest, e))),
              multiset(Replaced(rest, e.format)), multiset(Flatten(rest)), multiset(e.packets));
      }
    }
  }

  lemma {:induction false} FlattenSnoc(es: seq<Entry>, e: Entry)
    ensures multiset(Flatten(es + [e])) == multiset(Flatten(es)) + multiset(e.packets)
  {
    FlattenJoin(es, [e]);
    assert Flatten([e]) == e.packets + Flatten([]) == e.packets;
  }

  lemma Chain<T>(a: multiset<T>, a': multiset<T>, b: multiset<T>, c: multiset<T>,
                 d: multiset<T>, e: multiset<T>, r: multiset<T>)
    requires a + b == c + d && a' + r == a + e
    ensures a' + (b + r) == c + (d + e)
  {
    assert a' + (b + r) == a' + r + b == a + b + e;
    assert c + d + e == c + (d + e);
  }

  lemma ChainRun<T>(r: multiset<T>, r': multiset<T>, m: multiset<T>, m': multiset<T>,
                    s: multiset<T>, s': multiset<T>, h: multiset<T>, h': multiset<T>)
    requires r == m + s + h && h + r' == m' + s' + h'
    ensures r + r' == m + m' + (s + s') + h'
  {
    assert r + r' == m + s + (h + r');
    assert m + s + (m' + s' + h') == m + m' + (s + s') + h';
  }

  lemma {:induction false} InsertAllConserves(stash: seq<Entry>, es: seq<Entry>)
    requires Ascending(stash)
    ensures Ascending(InsertAll(stash, es))
    ensures multiset(Flatten(InsertAll(stash, es))) + ReplacedByAll(stash, es)
            == multiset(Flatten(stash)) + multiset(Flatten(es))
  {
    hide Flatten, Insert, Replaced, Ascending;
    if es == [] {
      NothingFlat();
    } else {
      var n := |es| - 1;
      InsertAllConserves(stash, es[..n]);
      InsertConserves(InsertAll(stash, es[..n]), es[n]);
      InsertKeepsOnePerFormat(InsertAll(stash, es[..n]), es[n]);
      FlattenSnoc(es[..n], es[n]);
      assert es == es[..n] + [es[n]];
      var stash' := InsertAll(stash, es[..n]);
      Chain(multiset(Flatten(stash')), multiset(Flatten(Insert(stash', es[n]))), ReplacedByAll(stash, es[..n]),
            multiset(Flatten(stash)), multiset(Flatten(es[..n])), multiset(es[n].packets),
            multiset(Replaced(stash', es[n].format)));
    }
  }

  lemma {:induction false} DrainConserves(f: Frame, stash: seq<Entry>)
    ensures multiset(AncPackets(Drained(f, stash))) == multiset(AncPackets(f)) + multiset(Flatten(stash))
  {
    hide AncPackets, Flatten, FirstAnc;
    var i := FirstAnc(f);
    if stash == [] {
      NothingFlat();
    } else if i == |f| {
      AncStep(f, Anc(Flatten(stash)));
    } else {
      var p := Anc(f[i].packets + Flatten(stash));
      assert f == f[..i] + [f[i]] + f[i + 1..];
      assert f[i := p] == f[..i] + [p] + f[i + 1..];
      AncJoin(f[..i] + [f[i]], f[i + 1..]);
      AncJoin(f[..i] + [p], f[i + 1..]);
      AncStep(f[..i], f[i]);
      AncStep(f[..i], p);
    }
  }

  lemma {:induction false} RepeatsConserve(pol: Policies, f: Frame, d: Disposition, n: nat, stash: seq<Entry>)
    ensures AncOf(Repeats(pol, f, d, n, stash))
            == AncOf(Repeats(pol, f, d, n, [])) + (if n == 0 then multiset{} else multiset(Flatten(stash)))
  {
    hide AncPackets, Flatten, WalkedFrame, Drained;
    if n == 0 {
    } else {
      var g := WalkedFrame(pol, f, d, n - 1);
      RepeatsConserve(pol, f, d, n - 1, stash);
      var a, b := Repeats(pol, f, d, n, stash), Repeats(pol, f, d, n, []);
      assert a[..n - 1] == Repeats(pol, f, d, n - 1, stash);
      assert b[..n - 1] == Repeats(pol, f, d, n - 1, []);
      if n == 1 {
        DrainConserves(g, stash);
        DrainConserves(g, []);
        NothingFlat();
      }
    }
  }

  lemma {:induction false} SlotConserves(pol: Policies, f: Frame, d: Disposition, stash: seq<Entry>)
    requires Ascending(stash)
    ensures multiset(Flatten(stash)) + Returned(pol, f, d)
            == AncOf(Emitted(pol, f, d, stash).frames) + Superseded(pol, f, d, stash)
               + multiset(Flatten(NextStash(pol, f, d, stash)))
  {
    hide Flatten, AncPackets, Dropped, Drained, WalkedFrame, Repeats, Ascending;
    NothingFlat();
    match d {
      case Drop => InsertAllConserves(stash, Dropped(pol, AncPackets(f)).returned);
      case Play =>
        var g := WalkedFrame(pol, f, Play, 0);
        DrainConserves(g, stash);
        assert [Drained(g, stash)][..0] == [];
      case Repeat(n) => RepeatsConserve(pol, f, d, n, stash);
    }
  }

  // Totals over a run.
  datatype Totals = Totals(returned: multiset<Packet>, emitted: multiset<Packet>, superseded: multiset<Packet>)

  function Tally(pol: Policies, slots: seq<Slot>): Totals {
    if slots == [] then Totals(multiset{}, multiset{}, multiset{})
    else
      var n := |slots| - 1;
      var t, f, d, stash := Tally(pol, slots[..n]), slots[n].frame, slots[n].disposition,
                            StashAfter(pol, slots[..n]);
      Totals(t.returned + Returned(pol, f, d),
             t.emitted + AncOf(Emitted(pol, f, d, stash).frames),
             t.superseded + Superseded(pol, f, d, stash))
  }

  // Every packet any policy returned, over any run, is exactly one of: on an
  // output frame, still held, or superseded by a later drop of its format.
  lemma {:induction false} RunConserves(pol: Policies, slots: seq<Slot>)
    ensures var t := Tally(pol, slots);
            t.returned == t.emitted + t.superseded + multiset(Flatten(StashAfter(pol, slots)))
  {
    hide Flatten, Returned, Superseded, Emitted, AncOf, NextStash;
    NothingFlat();
    if slots == [] {
    } else {
      var n := |slots| - 1;
      RunConserves(pol, slots[..n]);
      StashIsTheLatestWord(pol, slots[..n]);
      var t, f, d, stash := Tally(pol, slots[..n]), slots[n].frame, slots[n].disposition,
                            StashAfter(pol, slots[..n]);
      SlotConserves(pol, f, d, stash);
      ChainRun(t.returned, Returned(pol, f, d), t.emitted, AncOf(Emitted(pol, f, d, stash).frames),
               t.superseded, Superseded(pol, f, d, stash), multiset(Flatten(stash)),
               multiset(Flatten(NextStash(pol, f, d, stash))));
    }
  }
}
