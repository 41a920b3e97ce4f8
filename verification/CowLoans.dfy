// References into a packet's body, as `dataMut` and `metaMut` hand them out: the
// setter's own steps up to the write, then writes through the reference that
// probe no count.

module CowLoans {
  import opened CowPacket
  import opened CowPacketLaws

  // The accessor returns: the thread that would have written keeps the location.
  function Lent(s: State, h: Handle): State
    requires h in s.handles && s.handles[h].Writing?
  {
    s.(handles := s.handles[h := Idle(s.handles[h].at)])
  }

  // A write through a reference to the body at l.
  function Through(s: State, l: Loc, c: Change): State
    requires l in s.heap
  {
    s.(heap := s.heap[l := s.heap[l].(packet := Changed(s.heap[l].packet, c))])
  }

  // What the holder of the reference means by it: a change to its own packet.
  function Meant(v: Values, h: Handle, c: Change): Values
    requires h in v
  {
    v[h := Changed(v[h], c)]
  }

  // The reference still leads to a body that is its handle's and nobody else's.
  ghost predicate Exclusive(s: State, h: Handle, l: Loc) {
    h in s.handles && s.handles[h] == Idle(l) && l in s.heap
    && Holders(s.handles, l) == {h} && Copies(s.handles, l) == {}
  }

  // A reference is exclusive when it is handed out.
  lemma LoanStartsExclusive(s: State, v: Values, h: Handle)
    requires Inv(s, v) && h in s.handles && s.handles[h].Writing?
    ensures Inv(Lent(s, h), v) && Exclusive(Lent(s, h), h, s.handles[h].at)
  {
    hide Holders, Copies, Inv, Sound, Counted, Count;
    var l := s.handles[h].at;
    var p, s' := Idle(l), Lent(s, h);
    InvParts(s, v);
    SoundOf(s, v, h);
    SoundIs(s, v, h);
    forall k ensures Counted(s', k) {
      CountedOf(s, v, k);
      Moved(s.handles, h, p, k);
      CountedIs(s, k);
      CountedIs(s', k);
    }
    forall g ensures Sound(s', v, g) {
      if g == h {
        IdleIsSound(s', v, g);
      } else if g in s.handles {
        SoundOf(s, v, g);
        SoundIs(s, v, g);
        Apart(s, v, g, h);
        Bystander(s, v, s', v, h, p, g);
      } else {
        StrangerIsSound(s', v, g);
      }
    }
    Assemble(s', v);
    Moved(s.handles, h, p, l);
  }

  // The steps of other handles that leave a loan from h alone: all but copying h.
  predicate Respects(step: Step, h: Handle) {
    match step
    case Copy(g, src) => g != h && src != h
    case _ => step.h != h
  }

  lemma LoanStaysExclusive(s: State, v: Values, h: Handle, l: Loc, step: Step)
    requires Inv(s, v) && Exclusive(s, h, l) && Respects(step, h)
    ensures Exclusive(Do(s, step), h, l)
  {
    hide Inv, Counted, Sound, Changed;
    var s' := Do(s, step);
    if Enabled(s, step) {
      StepIsLive(s, v, step);
      InvParts(s, v);
      var g := step.h;
      if g in s.handles {
        SoundOf(s, v, g);
        Elsewhere(s, v, h, l, g);
      }
      if step.Copy? {
        SoundOf(s, v, step.src);
        Elsewhere(s, v, h, l, step.src);
      }
      hide Holders, Copies;
      if step.Destroy? {
        Gone(s.handles, g, l);
      } else {
        Moved(s.handles, g, s'.handles[g], l);
      }
      KeepsOne(h, g);
    }
  }

  lemma KeepsOne(h: Handle, g: Handle)
    requires g != h
    ensures {h} - {g} + {} == {h} && {h} - {g} == {h}
    ensures var none: set<Handle> := {}; none - {g} + {} == none && none - {g} == none
  {
  }

  // No other handle leads to an exclusive body, nor does any clone in the making.
  lemma Elsewhere(s: State, v: Values, h: Handle, l: Loc, g: Handle)
    requires Exclusive(s, h, l) && Sound(s, v, g) && g in s.handles && g != h
    ensures s.handles[g].at != l && (s.handles[g].Releasing? ==> s.handles[g].copy != l)
  {
    Membership(s.handles, l);
    assert !At(s.handles, g, l) && !Cloned(s.handles, g, l);
  }

  // Writing through an exclusive reference changes the owner's packet and no other.
  lemma ExclusiveWriteIsSafe(s: State, v: Values, h: Handle, l: Loc, c: Change)
    requires Inv(s, v) && Exclusive(s, h, l)
    ensures h in v && Inv(Through(s, l, c), Meant(v, h, c))
  {
    hide Inv, Counted, Sound, Changed, Holders, Copies;
    SoundOf(s, v, h);
    SoundIs(s, v, h);
    InvParts(s, v);
    var s', v' := Through(s, l, c), Meant(v, h, c);
    forall k ensures Counted(s', k) {
      CountedOf(s, v, k);
      CountedIs(s, k);
      CountedIs(s', k);
    }
    forall g ensures Sound(s', v', g) {
      if g == h {
        IdleIsSound(s', v', g);
      } else if g in s.handles {
        SoundOf(s, v, g);
        Elsewhere(s, v, h, l, g);
        SoundExactly(s, v, g);
        SoundExactly(s', v', g);
      } else {
        StrangerIsSound(s', v', g);
      }
    }
    Assemble(s', v');
  }

  // A body is gone, and every reference into it dangles, exactly when no handle
  // leads to it any more, nor a clone in the making.
  lemma DanglesExactlyWhenUnheld(s: State, v: Values, l: Loc)
    requires Inv(s, v)
    ensures l !in s.heap <==> Holders(s.handles, l) == {} && Copies(s.handles, l) == {}
  {
    if l in s.heap { CountedOf(s, v, l); } else { Unused(s, v, l); }
  }

  // The step that takes a held body away: its only handle is destroyed, or moves
  // on to its own clone.
  lemma FreedExactlyByTheLastHolder(s: State, v: Values, step: Step, l: Loc)
    requires Inv(s, v) && l in s.heap
    ensures l !in Do(s, step).heap <==>
            && Enabled(s, step) && (step.Destroy? || step.Release?)
            && s.handles[step.h].at == l
            && Holders(s.handles, l) == {step.h} && Copies(s.handles, l) == {}
  {
    hide Inv, Sound, Counted, Count, Holders, Copies;
    if Enabled(s, step) {
      StepIsLive(s, v, step);
      if (step.Destroy? || step.Release?) && s.handles[step.h].at == l {
        CountedOf(s, v, l);
        CountedIs(s, l);
        assert At(s.handles, step.h, l);
        if s.heap[l].refs == 1 {
          SoleHolder(s.handles, step.h, l);
        } else if Holders(s.handles, l) == {step.h} && Copies(s.handles, l) == {} {
          CountOfOne(s.handles, step.h, l);
        }
      }
    }
  }

  lemma CountOfOne(hs: map<Handle, Phase>, h: Handle, l: Loc)
    requires Holders(hs, l) == {h} && Copies(hs, l) == {}
    ensures Count(hs, l) == 1
  {
    hide Holders, Copies;
  }

  // An effective write through a reference finds its body there and keeps every handle equal to its own
  // value exactly when the reference is still exclusive: the handle has not been
  // copied, and has not moved on to another body.
  lemma WriteThroughIsSafeExactlyWhenExclusive(s: State, v: Values, h: Handle, l: Loc, c: Change)
    requires Inv(s, v) && h in s.handles && s.handles[h].Idle? && h in v
    requires (l in s.heap ==> Changed(s.heap[l].packet, c) != s.heap[l].packet) && Changed(v[h], c) != v[h]
    ensures l in s.heap && Inv(Through(s, l, c), Meant(v, h, c)) <==> Exclusive(s, h, l)
  {
    if Exclusive(s, h, l) {
      ExclusiveWriteIsSafe(s, v, h, l, c);
    }
    if l in s.heap && Inv(Through(s, l, c), Meant(v, h, c)) {
      var s', v' := Through(s, l, c), Meant(v, h, c);
      hide Inv, Sound, Counted, Changed;
      SoundOf(s, v, h);
      SoundIs(s, v, h);
      SoundOf(s', v', h);
      SoundIs(s', v', h);
      forall g | g in s.handles && g != h
        ensures !At(s.handles, g, l) && !Cloned(s.handles, g, l)
      {
        SoundOf(s, v, g);
        SoundIs(s, v, g);
        SoundOf(s', v', g);
        SoundIs(s', v', g);
      }
      Membership(s.handles, l);
      assert At(s.handles, h, l) && !Cloned(s.handles, h, l);
    }
  }

  // The caution the accessors carry: take a reference, copy the handle, write
  // through the reference - and the copy changes too.
  lemma CopiedLoanLeaks()
    ensures var s := State(map[0 := Body(1, BLANK)], map[1 := Writing(0, SetData([]))], []);
            var v: Values := map[1 := BLANK];
            var copied := Do(Lent(s, 1), Copy(2, 1));
            && Inv(s, v)
            && Through(copied, 0, SetData([7])).heap[copied.handles[2].at].packet.data == [7]
            && Plain(v, Lent(s, 1), Copy(2, 1))[2].data == []
  {
    var s := State(map[0 := Body(1, BLANK)], map[1 := Writing(0, SetData([]))], []);
    assert Holders(s.handles, 0) == {1} && Copies(s.handles, 0) == {};
  }
}
