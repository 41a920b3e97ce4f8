// The stateful synchroniser: one `Apply` per slot of the output cadence,
// carrying the stash and the once-per-format warnings from slot to slot.

module AncFrameSync {
  import opened Errors
  import opened Bytes
  import opened FrameSync

  ghost predicate NoRepeats(s: seq<FormatId>) {
    forall i, j :: 0 <= i < j < |s| ==> s[i] != s[j]
  }

  // Where a drop walk that began with `stash0` and `warned0` stands after the
  // packets `seen`.
  ghost predicate Stands(pol: Policies, seen: seq<Packet>, stash0: seq<Entry>, warned0: set<FormatId>,
                         stash: seq<Entry>, warned: set<FormatId>, err: Error)
  {
    var w := Dropped(pol, seen);
    && err == w.err
    && stash == InsertAll(stash0, w.returned)
    && warned == warned0 + Unregistered(pol, seen[..w.reached])
  }

  lemma StandsAtFirst(pol: Policies, stash: seq<Entry>, warned: set<FormatId>)
    ensures Stands(pol, [], stash, warned, stash, warned, Ok)
  {
  }

  lemma {:induction false} StandsAfterOne(
    pol: Policies, seen: seq<Packet>, p: Packet, stash0: seq<Entry>, warned0: set<FormatId>,
    stash: seq<Entry>, warned: set<FormatId>)
    requires Stands(pol, seen, stash0, warned0, stash, warned, Ok)
    ensures var r := pol.Apply(p, Drop, 0);
            Stands(pol, seen + [p], stash0, warned0,
                   if r.PolicyError? || r.list == [] then stash else Insert(stash, Entry(p.format, r.list)),
                   warned + (if pol.registered(p.format) then {} else {p.format}),
                   if r.PolicyError? then r.error else Ok)
  {
    hide Dropped, InsertAll, Insert, Unregistered;
    DropStep(pol, seen, p);
    UnregisteredStep(pol, seen, p);
    var w := Dropped(pol, seen);
    assert seen[..|seen|] == seen && (seen + [p])[..|seen| + 1] == seen + [p];
    var r := pol.Apply(p, Drop, 0);
    if r.Packets? {
      if r.list != [] {
        InsertStep(stash0, w.returned, Entry(p.format, r.list));
      } else {
        assert w.returned + [] == w.returned;
      }
    }
  }

  lemma StandsStill(pol: Policies, seen: seq<Packet>, rest: seq<Packet>, stash0: seq<Entry>,
                    warned0: set<FormatId>, stash: seq<Entry>, warned: set<FormatId>, err: Error)
    requires Stands(pol, seen, stash0, warned0, stash, warned, err) && err != Ok
    ensures Stands(pol, seen + rest, stash0, warned0, stash, warned, err)
  {
    hide Dropped, InsertAll, Unregistered;
    DropStops(pol, seen, rest);
    var n := Dropped(pol, seen).reached;
    assert (seen + rest)[..n] == seen[..n];
  }

  lemma {:induction false} StandsMeans(pol: Policies, seen: seq<Packet>, stash0: seq<Entry>, warned0: set<FormatId>,
                    stash: seq<Entry>, warned: set<FormatId>, err: Error)
    requires Stands(pol, seen, stash0, warned0, stash, warned, err)
    ensures err == Dropped(pol, seen).err
    ensures stash == InsertAll(stash0, Dropped(pol, seen).returned)
    ensures warned == warned0 + Unregistered(pol, seen[..Dropped(pol, seen).reached])
  {
  }

  lemma NothingUnregistered(pol: Policies)
    ensures Unregistered(pol, AncPackets([])) == Unregistered(pol, []) == {}
  {
  }

  lemma {:induction false} NothingWalked(pol: Policies, d: Disposition, k: nat)
    ensures Walked(pol, [], d, k) == []
  {
  }

  lemma {:induction false} NoPackets(f: Frame)
    requires f == []
    ensures AncPackets(f) == []
  {
  }

  class AncFrameSync {
    const pol: Policies
    var stash: seq<Entry>
    var warned: set<FormatId>
    var warnings: seq<FormatId>

    ghost predicate Valid() reads this {
      && NoRepeats(warnings)
      && (forall id :: id in warned <==> id in warnings)
      && (forall id <- warned :: !pol.registered(id))
    }

    constructor (pol: Policies)
      ensures Valid() && this.pol == pol
      ensures stash == [] && warnings == []
    {
      this.pol := pol;
      stash, warned, warnings := [], {}, [];
    }

    method WarnFallbackOnce(id: FormatId)
      requires Valid() && !pol.registered(id)
      modifies this`warned, this`warnings
      ensures Valid()
      ensures warned == old(warned) + {id}
      ensures warnings == if id in old(warned) then old(warnings) else old(warnings) + [id]
    {
      if id in warned { return; }
      warned := warned + {id};
      warnings := warnings + [id];
    }

    method StashPackets(id: FormatId, packets: seq<Packet>)
      modifies this`stash
      ensures stash == if packets == [] then old(stash) else Insert(old(stash), Entry(id, packets))
    {
      if packets == [] { return; }
      stash := Insert(stash, Entry(id, packets));
    }

    method StashedPacketCount() returns (total: nat)
      ensures total == |Flatten(stash)|
    {
      total := 0;
      var i := 0;
      while i < |stash|
        invariant 0 <= i <= |stash|
        invariant total + |Flatten(stash[i..])| == |Flatten(stash)|
      {
        total := total + |stash[i].packets|;
        assert stash[i..][1..] == stash[i + 1..];
        i := i + 1;
      }
    }

    method DrainStashInto(frame: Frame) returns (f: Frame)
      modifies this`stash
      ensures f == Drained(frame, old(stash)) && stash == []
    {
      f := frame;
      if stash == [] { return; }
      var i := 0;
      while i < |f| && !f[i].Anc?
        invariant 0 <= i <= |f|
        invariant forall j :: 0 <= j < i ==> !f[j].Anc?
      {
        i := i + 1;
      }
      assert i == FirstAnc(frame);
      if i == |f| {
        f := f + [Anc([])];
      }
      var target := f[i].packets;
      ghost var had := if i < |frame| then frame[i].packets else [];
      assert target == had;
      assert stash[0..] == stash;
      var k := 0;
      while k < |stash|
        invariant 0 <= k <= |stash| && stash == old(stash)
        invariant target + Flatten(stash[k..]) == had + Flatten(stash)
      {
        var packets := stash[k].packets;
        ghost var sofar := target;
        assert stash[k..][1..] == stash[k + 1..];
        Assoc(sofar, packets, Flatten(stash[k + 1..]));
        var j := 0;
        while j < |packets|
          invariant 0 <= j <= |packets| && stash == old(stash)
          invariant target == sofar + packets[..j]
        {
          target := target + [packets[j]];
          j := j + 1;
        }
        assert packets[..j] == packets;
        k := k + 1;
      }
      assert stash[k..] == [] && target + [] == target;
      assert target == had + Flatten(stash);
      f := f[i := Anc(target)];
      stash := [];
      if i == |frame| {
        assert had + Flatten(old(stash)) == Flatten(old(stash));
        assert f == frame + [Anc(target)];
      }
    }

    // The packets of one ANC payload, each replaced by what its policy returns.
    method WalkPackets(packets: seq<Packet>, d: Disposition, repeatIndex: nat) returns (walked: seq<Packet>)
      requires Valid()
      modifies this`warned, this`warnings
      ensures Valid()
      ensures walked == Walked(pol, packets, d, repeatIndex)
      ensures warned == old(warned) + Unregistered(pol, packets)
      ensures old(warnings) <= warnings
    {
      hide Walked, Unregistered;
      walked := [];
      NothingUnregistered(pol);
      NothingWalked(pol, d, repeatIndex);
      var j := 0;
      while j < |packets|
        invariant 0 <= j <= |packets|
        invariant Valid()
        invariant walked == Walked(pol, packets[..j], d, repeatIndex)
        invariant warned == old(warned) + Unregistered(pol, packets[..j])
        invariant old(warnings) <= warnings
      {
        var p := packets[j];
        assert packets[..j + 1] == packets[..j] + [p];
        WalkStep(pol, packets[..j], p, d, repeatIndex);
        UnregisteredStep(pol, packets[..j], p);
        if !pol.registered(p.format) {
          WarnFallbackOnce(p.format);
        }
        var r := pol.Apply(p, d, repeatIndex);
        if r.Packets? {
          walked := walked + r.list;
        }
        j := j + 1;
      }
      assert packets[..j] == packets;
    }

    method ApplyToFrame(frame: Frame, d: Disposition, repeatIndex: nat) returns (f: Frame)
      requires Valid()
      modifies this`warned, this`warnings
      ensures Valid()
      ensures f == WalkedFrame(pol, frame, d, repeatIndex)
      ensures warned == old(warned) + Unregistered(pol, AncPackets(frame))
      ensures old(warnings) <= warnings
    {
      hide Walked, Unregistered;
      f := frame;
      assert Unregistered(pol, AncPackets([])) == {} by { NothingUnregistered(pol); }
      var i := 0;
      while i < |frame|
        invariant 0 <= i <= |frame| == |f|
        invariant Valid()
        invariant forall k :: 0 <= k < i ==> f[k] == WalkedPayload(pol, frame[k], d, repeatIndex)
        invariant forall k :: i <= k < |f| ==> f[k] == frame[k]
        invariant warned == old(warned) + Unregistered(pol, AncPackets(frame[..i]))
        invariant old(warnings) <= warnings
      {
        assert frame[..i + 1] == frame[..i] + [frame[i]];
        AncStep(frame[..i], frame[i]);
        UnregisteredJoin(pol, AncPackets(frame[..i]), PacketsOf(frame[i]));
        if f[i].Anc? {
          var walked := WalkPackets(f[i].packets, d, repeatIndex);
          f := f[i := Anc(walked)];
        }
        i := i + 1;
      }
      assert frame[..i] == frame;
    }

    method ApplyDropAndStash(frame: Frame) returns (err: Error)
      requires Valid()
      modifies this
      ensures Valid()
      ensures err == Dropped(pol, AncPackets(frame)).err
      ensures stash == InsertAll(old(stash), Dropped(pol, AncPackets(frame)).returned)
      ensures warned == old(warned) + Unregistered(pol, Visited(pol, frame, Drop))
      ensures old(warnings) <= warnings
    {
      hide Dropped, InsertAll, Unregistered, Stands, AncPackets;
      var i := 0;
      assert AncPackets(frame[..0]) == [] by { NoPackets(frame[..0]); }
      StandsAtFirst(pol, stash, warned);
      while i < |frame|
        invariant 0 <= i <= |frame|
        invariant Valid()
        invariant Stands(pol, AncPackets(frame[..i]), old(stash), old(warned), stash, warned, Ok)
        invariant old(warnings) <= warnings
      {
        ghost var seen := AncPackets(frame[..i]);
        assert frame[..i + 1] == frame[..i] + [frame[i]];
        AncStep(frame[..i], frame[i]);
        if frame[i].Anc? {
          err := DropPackets(seen, frame[i].packets, old(stash), old(warned));
          if err != Ok {
            ghost var rest := frame[i + 1..];
            assert frame[..i + 1] + rest == frame;
            AncJoin(frame[..i + 1], rest);
            StandsStill(pol, AncPackets(frame[..i + 1]), AncPackets(rest), old(stash), old(warned),
                        stash, warned, err);
            StandsMeans(pol, AncPackets(frame), old(stash), old(warned), stash, warned, err);
            return;
          }
        } else {
          assert seen + [] == seen;
        }
        i := i + 1;
      }
      assert frame[..i] == frame;
      StandsMeans(pol, AncPackets(frame), old(stash), old(warned), stash, warned, Ok);
      err := Ok;
    }

    // The inner loop of the drop walk: the packets of one payload.
    method DropPackets(ghost seen: seq<Packet>, packets: seq<Packet>,
                       ghost stash0: seq<Entry>, ghost warned0: set<FormatId>) returns (err: Error)
      requires Valid()
      requires Stands(pol, seen, stash0, warned0, stash, warned, Ok)
      modifies this
      ensures Valid()
      ensures Stands(pol, seen + packets, stash0, warned0, stash, warned, err)
      ensures old(warnings) <= warnings
    {
      hide Stands, Insert;
      var j := 0;
      assert seen + packets[..0] == seen;
      while j < |packets|
        invariant 0 <= j <= |packets|
        invariant Valid()
        invariant Stands(pol, seen + packets[..j], stash0, warned0, stash, warned, Ok)
        invariant old(warnings) <= warnings
      {
        var p := packets[j];
        assert seen + packets[..j + 1] == seen + packets[..j] + [p];
        StandsAfterOne(pol, seen + packets[..j], p, stash0, warned0, stash, warned);
        ghost var before := warned;
        if !pol.registered(p.format) {
          WarnFallbackOnce(p.format);
        }
        assert warned == before + (if pol.registered(p.format) then {} else {p.format});
        var r := pol.Apply(p, Drop, 0);
        if r.PolicyError? {
          assert seen + packets == seen + packets[..j + 1] + packets[j + 1..];
          StandsStill(pol, seen + packets[..j + 1], packets[j + 1..], stash0, warned0, stash, warned, r.error);
          return r.error;
        }
        if r.list != [] {
          StashPackets(p.format, r.list);
        }
        j := j + 1;
      }
      assert packets[..j] == packets;
      return Ok;
    }

    // One slot of the output cadence.
    method Apply(frame: Frame, d: Disposition) returns (out: Output)
      requires Valid()
      modifies this
      ensures Valid()
      ensures out == Emitted(pol, frame, d, old(stash))
      ensures stash == NextStash(pol, frame, d, old(stash))
      ensures warned == old(warned) + Unregistered(pol, Visited(pol, frame, d))
      ensures old(warnings) <= warnings
    {
      match d {
        case Drop =>
          var err := ApplyDropAndStash(frame);
          return Output([], err);
        case Play =>
          var f := ApplyToFrame(frame, d, 0);
          f := DrainStashInto(f);
          return Output([f], Ok);
        case Repeat(n) =>
          var frames := [];
          var i := 0;
          while i < n
            invariant 0 <= i <= n
            invariant Valid()
            invariant frames == Repeats(pol, frame, d, i, old(stash))
            invariant stash == if i == 0 then old(stash) else []
            invariant warned == if i == 0 then old(warned) else old(warned) + Unregistered(pol, AncPackets(frame))
            invariant old(warnings) <= warnings
          {
            var f := ApplyToFrame(frame, d, i);
            if i == 0 {
              f := DrainStashInto(f);
            }
            frames := frames + [f];
            i := i + 1;
          }
          return Output(frames, Ok);
      }
    }
  }
}
