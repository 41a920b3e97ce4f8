// Copy-on-write is invisible: every run of interleaved steps keeps each handle
// equal to a value of its own, and no step ever touches a freed body.

module CowPacketLaws {
  import opened Bytes
  import opened CowPacket

  // ---------------------------------------------------------------------
  // Holders under one change of phase
  // ---------------------------------------------------------------------

  predicate At(hs: map<Handle, Phase>, h: Handle, l: Loc) {
    h in hs && hs[h].at == l
  }

  predicate Cloned(hs: map<Handle, Phase>, h: Handle, l: Loc) {
    h in hs && hs[h].Releasing? && hs[h].copy == l
  }

  lemma Membership(hs: map<Handle, Phase>, l: Loc)
    ensures forall h :: h in Holders(hs, l) <==> At(hs, h, l)
    ensures forall h :: h in Copies(hs, l) <==> Cloned(hs, h, l)
  {
  }

  // A set that agrees with another everywhere but at h.
  lemma SetMoved(a: set<Handle>, a': set<Handle>, h: Handle, on: bool)
    requires forall g :: g in a' <==> if g == h then on else g in a
    ensures a' == a - {h} + (if on then {h} else {})
    ensures |a'| == |a| - One(h in a) + One(on)
  {
    var rest := a - {h};
    assert a' == rest + (if on then {h} else {});
    assert a == rest + (if h in a then {h} else {});
  }

  function One(b: bool): nat {
    if b then 1 else 0
  }

  function Count(hs: map<Handle, Phase>, l: Loc): nat {
    |Holders(hs, l)| + |Copies(hs, l)|
  }

  lemma HoldersMoved(hs: map<Handle, Phase>, h: Handle, p: Phase, l: Loc)
    ensures Holders(hs[h := p], l) == Holders(hs, l) - {h} + (if p.at == l then {h} else {})
    ensures |Holders(hs[h := p], l)| == |Holders(hs, l)| - One(At(hs, h, l)) + One(p.at == l)
  {
    assert h in Holders(hs, l) <==> At(hs, h, l);
    forall g ensures g in Holders(hs[h := p], l) <==> if g == h then p.at == l else g in Holders(hs, l) {
    }
    hide Holders, At, One;
    SetMoved(Holders(hs, l), Holders(hs[h := p], l), h, p.at == l);
  }

  lemma CopiesMoved(hs: map<Handle, Phase>, h: Handle, p: Phase, l: Loc)
    ensures Copies(hs[h := p], l) == Copies(hs, l) - {h} + (if p.Releasing? && p.copy == l then {h} else {})
    ensures |Copies(hs[h := p], l)|
            == |Copies(hs, l)| - One(Cloned(hs, h, l)) + One(p.Releasing? && p.copy == l)
  {
    var on := p.Releasing? && p.copy == l;
    assert h in Copies(hs, l) <==> Cloned(hs, h, l);
    forall g ensures g in Copies(hs[h := p], l) <==> if g == h then on else g in Copies(hs, l) {
    }
    hide Copies, Cloned, One;
    SetMoved(Copies(hs, l), Copies(hs[h := p], l), h, on);
  }

  // What moving h to phase p does to one body's holders.
  lemma Moved(hs: map<Handle, Phase>, h: Handle, p: Phase, l: Loc)
    ensures var hs' := hs[h := p];
            && Holders(hs', l) == Holders(hs, l) - {h} + (if p.at == l then {h} else {})
            && Copies(hs', l) == Copies(hs, l) - {h} + (if p.Releasing? && p.copy == l then {h} else {})
            && Count(hs', l) == Count(hs, l) - One(At(hs, h, l)) - One(Cloned(hs, h, l))
                                + One(p.at == l) + One(p.Releasing? && p.copy == l)
  {
    hide Holders, Copies, At, Cloned, One;
    HoldersMoved(hs, h, p, l);
    CopiesMoved(hs, h, p, l);
  }

  lemma Gone(hs: map<Handle, Phase>, h: Handle, l: Loc)
    ensures var hs' := hs - {h};
            && Holders(hs', l) == Holders(hs, l) - {h} && Copies(hs', l) == Copies(hs, l) - {h}
            && Count(hs', l) == Count(hs, l) - One(At(hs, h, l)) - One(Cloned(hs, h, l))
  {
    hide Holders, Copies;
    Membership(hs, l);
    Membership(hs - {h}, l);
    SetMoved(Holders(hs, l), Holders(hs - {h}, l), h, false);
    SetMoved(Copies(hs, l), Copies(hs - {h}, l), h, false);
    NothingAdded(Holders(hs, l), h);
    NothingAdded(Copies(hs, l), h);
  }

  lemma NothingAdded(a: set<Handle>, h: Handle)
    ensures a - {h} + {} == a - {h}
  {
  }

  lemma SoleHolder(hs: map<Handle, Phase>, h: Handle, l: Loc)
    requires At(hs, h, l) && Count(hs, l) < 2
    ensures Holders(hs, l) == {h} && Copies(hs, l) == {}
  {
    var rest := Holders(hs, l) - {h};
    assert Holders(hs, l) == rest + {h};
  }

  lemma AtMostOne(hs: map<Handle, Phase>, h: Handle, l: Loc)
    requires At(hs, h, l) && Count(hs, l) == 1
    ensures forall g :: g != h ==> !At(hs, g, l) && !Cloned(hs, g, l)
  {
    SoleHolder(hs, h, l);
    Membership(hs, l);
  }

  // ---------------------------------------------------------------------
  // Handles that take no part in a step
  // ---------------------------------------------------------------------

  // g shares neither its exclusive body nor its clone with k.
  lemma Apart(s: State, v: Values, g: Handle, k: Handle)
    requires Sound(s, v, g) && g in s.handles && k in s.handles && k != g
    ensures var p, q := s.handles[g], s.handles[k];
            && (p.Writing? ==> q.at != p.at && (q.Releasing? ==> q.copy != p.at))
            && (p.Releasing? ==> q.at != p.copy && (q.Releasing? ==> q.copy != p.copy))
  {
    var p := s.handles[g];
    Membership(s.handles, p.at);
    if p.Releasing? { Membership(s.handles, p.copy); }
    assert At(s.handles, k, s.handles[k].at);
    assert s.handles[k].Releasing? ==> Cloned(s.handles, k, s.handles[k].copy);
  }

  // A handle's exclusive claims, as facts about the holder sets.
  ghost predicate Claims(hs: map<Handle, Phase>, h: Handle) {
    h in hs ==>
      var p := hs[h];
      && (p.Writing? ==> Holders(hs, p.at) == {h} && Copies(hs, p.at) == {})
      && (p.Releasing? ==> Holders(hs, p.copy) == {} && Copies(hs, p.copy) == {h})
  }

  lemma ClaimsStand(hs: map<Handle, Phase>, h: Handle, p: Phase, g: Handle)
    requires g in hs && g != h && Claims(hs, g)
    requires var q := hs[g];
             && (q.Writing? ==> p.at != q.at && (p.Releasing? ==> p.copy != q.at))
             && (q.Releasing? ==> p.at != q.copy && (p.Releasing? ==> p.copy != q.copy))
    ensures Claims(hs[h := p], g) && Claims(hs - {h}, g)
  {
    hide Holders, Copies, Count;
    var q := hs[g];
    if q.Writing? {
      Moved(hs, h, p, q.at);
      Gone(hs, h, q.at);
      KeepsOthers(Holders(hs, q.at), Copies(hs, q.at), g, h);
    }
    if q.Releasing? {
      Moved(hs, h, p, q.copy);
      Gone(hs, h, q.copy);
      KeepsOthers(Copies(hs, q.copy), Holders(hs, q.copy), g, h);
    }
  }

  lemma KeepsOthers(a: set<Handle>, b: set<Handle>, g: Handle, h: Handle)
    requires a == {g} && b == {} && g != h
    ensures a - {h} + {} == {g} && b - {h} + {} == {}
    ensures a - {h} == {g} && b - {h} == {}
  {
  }

  lemma SoundExactly(s: State, v: Values, h: Handle)
    ensures Sound(s, v, h) <==>
            (h in s.handles ==>
               var p := s.handles[h];
               && h in v && p.at in s.heap && s.heap[p.at].packet == v[h] && Claims(s.handles, h)
               && (p.Releasing? ==> p.copy in s.heap && s.heap[p.copy].packet == v[h] && p.copy != p.at))
  {
  }

  // A bystander stays sound when h moves to p or goes away, if its own body keeps
  // its fields and h stays off what the bystander owns alone.
  lemma Bystander(s: State, v: Values, s': State, v': Values, h: Handle, p: Phase, g: Handle)
    requires Sound(s, v, g) && g in s.handles && g != h
    requires s'.handles == s.handles[h := p] || s'.handles == s.handles - {h}
    requires g in v && g in v' && v'[g] == v[g]
    requires var q := s.handles[g];
             && q.at in s'.heap && s'.heap[q.at].packet == v[g]
             && (q.Writing? ==> p.at != q.at && (p.Releasing? ==> p.copy != q.at))
             && (q.Releasing? ==>
                   && q.copy in s'.heap && s'.heap[q.copy].packet == v[g]
                   && p.at != q.copy && (p.Releasing? ==> p.copy != q.copy))
    ensures Sound(s', v', g)
  {
    hide Sound, Claims;
    SoundExactly(s, v, g);
    SoundExactly(s', v', g);
    ClaimsStand(s.handles, h, p, g);
  }

  lemma SoundOf(s: State, v: Values, h: Handle)
    requires Inv(s, v)
    ensures Sound(s, v, h)
  {
  }

  lemma CountedOf(s: State, v: Values, l: Loc)
    requires Inv(s, v)
    ensures Counted(s, l)
  {
  }

  lemma Assemble(s: State, v: Values)
    requires forall l :: Counted(s, l)
    requires forall h :: Sound(s, v, h)
    requires v.Keys == s.handles.Keys && FreedOnce(s)
    ensures Inv(s, v)
  {
  }

  // A location never used is held by nobody.
  lemma Unused(s: State, v: Values, l: Loc)
    requires Inv(s, v) && l !in s.heap
    ensures Holders(s.handles, l) == {} && Copies(s.handles, l) == {} && Count(s.handles, l) == 0
    ensures forall g :: g in s.handles ==>
              s.handles[g].at != l && (s.handles[g].Releasing? ==> s.handles[g].copy != l)
  {
    forall g | g in s.handles
      ensures s.handles[g].at != l && (s.handles[g].Releasing? ==> s.handles[g].copy != l)
    {
      SoundOf(s, v, g);
    }
  }

  lemma StepIsLive(s: State, v: Values, step: Step)
    requires Inv(s, v) && Enabled(s, step)
    ensures Live(s, step)
  {
    match step {
      case Create(_, _) =>
      case Copy(_, src) => SoundOf(s, v, src);
      case _ => SoundOf(s, v, step.h);
    }
  }

  // ---------------------------------------------------------------------
  // Each step
  // ---------------------------------------------------------------------

  lemma CreateKeeps(s: State, v: Values, h: Handle, l: Loc)
    requires Inv(s, v) && Enabled(s, Create(h, l))
    ensures Inv(Do(s, Create(h, l)), Plain(v, s, Create(h, l)))
  {
    hide Holders, Copies, Inv, Sound, Counted, Count;
    var step := Create(h, l);
    var s', v' := Do(s, step), Plain(v, s, step);
    InvParts(s, v);
    Unused(s, v, l);
    forall k ensures Counted(s', k) {
      CreateCounted(s, v, h, l, k);
    }
    forall g ensures Sound(s', v', g) {
      if g == h {
        IdleIsSound(s', v', g);
      } else if g in s.handles {
        CreateBystander(s, v, h, l, g);
      } else {
        StrangerIsSound(s', v', g);
      }
    }
    Assemble(s', v');
  }

  lemma CreateCounted(s: State, v: Values, h: Handle, l: Loc, k: Loc)
    requires Inv(s, v) && Enabled(s, Create(h, l))
    ensures Counted(Do(s, Create(h, l)), k)
  {
    hide Holders, Copies, Inv, Sound, Counted, Count;
    Unused(s, v, l);
    InvParts(s, v);
    CountedOf(s, v, k);
    Moved(s.handles, h, Idle(l), k);
    CountedIs(s, k);
    CountedIs(Do(s, Create(h, l)), k);
  }

  lemma CreateBystander(s: State, v: Values, h: Handle, l: Loc, g: Handle)
    requires Inv(s, v) && Enabled(s, Create(h, l)) && g in s.handles
    ensures Sound(Do(s, Create(h, l)), Plain(v, s, Create(h, l)), g)
  {
    hide Holders, Copies, Inv, Sound;
    Unused(s, v, l);
    SoundOf(s, v, g);
    SoundIs(s, v, g);
    Bystander(s, v, Do(s, Create(h, l)), Plain(v, s, Create(h, l)), h, Idle(l), g);
  }

  lemma InvParts(s: State, v: Values)
    requires Inv(s, v)
    ensures v.Keys == s.handles.Keys && FreedOnce(s)
  {
  }

  lemma CountedIs(s: State, l: Loc)
    ensures Counted(s, l) <==> (l in s.heap ==> s.heap[l].refs > 0 && s.heap[l].refs == Count(s.handles, l))
  {
  }

  lemma SoundIs(s: State, v: Values, h: Handle)
    requires Sound(s, v, h) && h in s.handles
    ensures var p := s.handles[h];
            && h in v && p.at in s.heap && s.heap[p.at].packet == v[h]
            && (p.Releasing? ==> p.copy in s.heap && s.heap[p.copy].packet == v[h] && p.copy != p.at)
  {
  }

  lemma IdleIsSound(s: State, v: Values, h: Handle)
    requires h in s.handles && h in v && s.handles[h].at in s.heap && s.heap[s.handles[h].at].packet == v[h]
    requires s.handles[h].Idle? || s.handles[h].Cloning?
    ensures Sound(s, v, h)
  {
  }

  lemma StrangerIsSound(s: State, v: Values, h: Handle)
    requires h !in s.handles
    ensures Sound(s, v, h)
  {
  }

  lemma CopyKeeps(s: State, v: Values, h: Handle, src: Handle)
    requires Inv(s, v) && Enabled(s, Copy(h, src))
    ensures Inv(Do(s, Copy(h, src)), Plain(v, s, Copy(h, src)))
  {
    hide Holders, Copies, Inv, Sound, Counted, Count;
    var step := Copy(h, src);
    var s', v' := Do(s, step), Plain(v, s, step);
    StepIsLive(s, v, step);
    InvParts(s, v);
    SoundOf(s, v, src);
    SoundIs(s, v, src);
    var p := Idle(s.handles[src].at);
    forall k ensures Counted(s', k) {
      CountedOf(s, v, k);
      Moved(s.handles, h, p, k);
      CountedIs(s, k);
      CountedIs(s', k);
    }
    forall g ensures Sound(s', v', g) {
      if g == h {
        IdleIsSound(s', v', g);
      } else if g in s.handles {
        SoundOf(s, v, g);
        SoundIs(s, v, g);
        if g != src { Apart(s, v, g, src); }
        Bystander(s, v, s', v', h, p, g);
      } else {
        StrangerIsSound(s', v', g);
      }
    }
    Assemble(s', v');
  }

  lemma ProbeKeeps(s: State, v: Values, h: Handle, c: Change)
    requires Inv(s, v) && Enabled(s, Probe(h, c))
    ensures Inv(Do(s, Probe(h, c)), Plain(v, s, Probe(h, c)))
  {
    hide Holders, Copies, Inv, Sound, Counted, Count;
    var step := Probe(h, c);
    var s', v' := Do(s, step), Plain(v, s, step);
    StepIsLive(s, v, step);
    InvParts(s, v);
    SoundOf(s, v, h);
    SoundIs(s, v, h);
    var l := s.handles[h].at;
    var p := if s.heap[l].refs < 2 then Writing(l, c) else Cloning(l, c);
    forall k ensures Counted(s', k) {
      CountedOf(s, v, k);
      Moved(s.handles, h, p, k);
      CountedIs(s, k);
      CountedIs(s', k);
    }
    forall g ensures Sound(s', v', g) {
      if g == h {
        if p.Writing? {
          assert Counted(s', l);
          WriterIsSound(s', v', h);
        } else {
          IdleIsSound(s', v', g);
        }
      } else if g in s.handles {
        SoundOf(s, v, g);
        SoundIs(s, v, g);
        Apart(s, v, g, h);
        Bystander(s, v, s', v', h, p, g);
      } else {
        StrangerIsSound(s', v', g);
      }
    }
    Assemble(s', v');
  }

  // Probing a count of one makes the prober the sole holder.
  lemma WriterIsSound(s: State, v: Values, h: Handle)
    requires h in s.handles && s.handles[h].Writing? && h in v
    requires var l := s.handles[h].at;
             l in s.heap && s.heap[l].packet == v[h] && s.heap[l].refs < 2 && Counted(s, l)
    ensures Sound(s, v, h)
  {
    var l := s.handles[h].at;
    hide Holders, Copies;
    CountedIs(s, l);
    SoleHolder(s.handles, h, l);
  }

  lemma CloneKeeps(s: State, v: Values, h: Handle, l: Loc)
    requires Inv(s, v) && Enabled(s, Clone(h, l))
    ensures Inv(Do(s, Clone(h, l)), Plain(v, s, Clone(h, l)))
  {
    hide Holders, Copies, Inv, Sound, Counted, Count;
    var step := Clone(h, l);
    var s', v' := Do(s, step), Plain(v, s, step);
    StepIsLive(s, v, step);
    InvParts(s, v);
    Unused(s, v, l);
    SoundOf(s, v, h);
    SoundIs(s, v, h);
    var q := s.handles[h];
    var p := Releasing(q.at, l, q.change);
    forall k ensures Counted(s', k) {
      CloneCounted(s, v, h, l, k);
    }
    forall g ensures Sound(s', v', g) {
      if g == h {
        Moved(s.handles, h, p, l);
        FreshCopyIsSound(s', v', h);
      } else if g in s.handles {
        CloneBystander(s, v, h, l, g);
      } else {
        StrangerIsSound(s', v', g);
      }
    }
    Assemble(s', v');
  }

  lemma CloneCounted(s: State, v: Values, h: Handle, l: Loc, k: Loc)
    requires Inv(s, v) && Enabled(s, Clone(h, l)) && Live(s, Clone(h, l))
    ensures Counted(Do(s, Clone(h, l)), k)
  {
    hide Holders, Copies, Inv, Sound, Counted, Count;
    Unused(s, v, l);
    CountedOf(s, v, k);
    Moved(s.handles, h, Releasing(s.handles[h].at, l, s.handles[h].change), k);
    CountedIs(s, k);
    CountedIs(Do(s, Clone(h, l)), k);
  }

  lemma CloneBystander(s: State, v: Values, h: Handle, l: Loc, g: Handle)
    requires Inv(s, v) && Enabled(s, Clone(h, l)) && Live(s, Clone(h, l)) && g in s.handles && g != h
    ensures Sound(Do(s, Clone(h, l)), v, g)
  {
    hide Holders, Copies, Inv, Sound;
    Unused(s, v, l);
    SoundOf(s, v, g);
    SoundIs(s, v, g);
    Apart(s, v, g, h);
    Bystander(s, v, Do(s, Clone(h, l)), v, h, Releasing(s.handles[h].at, l, s.handles[h].change), g);
  }

  lemma FreshCopyIsSound(s: State, v: Values, h: Handle)
    requires h in s.handles && s.handles[h].Releasing? && h in v
    requires var p := s.handles[h];
             && p.at in s.heap && s.heap[p.at].packet == v[h] && p.copy != p.at
             && p.copy in s.heap && s.heap[p.copy].packet == v[h]
             && Holders(s.handles, p.copy) == {} - {h} + {} && Copies(s.handles, p.copy) == {} - {h} + {h}
    ensures Sound(s, v, h)
  {
  }

  lemma WriteKeeps(s: State, v: Values, h: Handle)
    requires Inv(s, v) && Enabled(s, Write(h))
    ensures Inv(Do(s, Write(h)), Plain(v, s, Write(h)))
  {
    hide Holders, Copies, Inv, Sound, Counted, Count, Changed;
    var step := Write(h);
    var s', v' := Do(s, step), Plain(v, s, step);
    StepIsLive(s, v, step);
    InvParts(s, v);
    SoundOf(s, v, h);
    SoundIs(s, v, h);
    var p := Idle(s.handles[h].at);
    forall k ensures Counted(s', k) {
      CountedOf(s, v, k);
      Moved(s.handles, h, p, k);
      CountedIs(s, k);
      CountedIs(s', k);
    }
    forall g ensures Sound(s', v', g) {
      if g == h {
        IdleIsSound(s', v', g);
      } else if g in s.handles {
        SoundOf(s, v, g);
        SoundIs(s, v, g);
        Apart(s, v, g, h);
        Apart(s, v, h, g);
        Bystander(s, v, s', v', h, p, g);
      } else {
        StrangerIsSound(s', v', g);
      }
    }
    Assemble(s', v');
  }

  // ---------------------------------------------------------------------
  // The two steps that can free a body
  // ---------------------------------------------------------------------

  // Whoever drops the last reference is the only one there.
  lemma LastOut(s: State, v: Values, h: Handle, g: Handle)
    requires Inv(s, v) && h in s.handles && g in s.handles && g != h
    requires s.handles[h].at in s.heap && s.heap[s.handles[h].at].refs == 1
    ensures s.handles[g].at != s.handles[h].at
    ensures s.handles[g].Releasing? ==> s.handles[g].copy != s.handles[h].at
  {
    hide Holders, Copies;
    var l := s.handles[h].at;
    CountedOf(s, v, l);
    CountedIs(s, l);
    assert At(s.handles, h, l);
    AtMostOne(s.handles, h, l);
    assert !At(s.handles, g, l) && !Cloned(s.handles, g, l);
  }

  lemma FreedOnceMore(s: State, v: Values, l: Loc)
    requires Inv(s, v) && l in s.heap
    ensures FreedOnce(Dec(s, l))
  {
    hide Sound, Counted;
    InvParts(s, v);
  }

  lemma DestroyKeeps(s: State, v: Values, h: Handle)
    requires Inv(s, v) && Enabled(s, Destroy(h))
    ensures Inv(Do(s, Destroy(h)), Plain(v, s, Destroy(h)))
  {
    hide Holders, Copies, Inv, Sound, Counted, Count;
    var step := Destroy(h);
    var s', v' := Do(s, step), Plain(v, s, step);
    StepIsLive(s, v, step);
    InvParts(s, v);
    var l := s.handles[h].at;
    FreedOnceMore(s, v, l);
    forall k ensures Counted(s', k) {
      CountedOf(s, v, k);
      Gone(s.handles, h, k);
      CountedIs(s, k);
      CountedIs(s', k);
    }
    forall g ensures Sound(s', v', g) {
      if g in s'.handles {
        SoundOf(s, v, g);
        SoundIs(s, v, g);
        Apart(s, v, g, h);
        if s.heap[l].refs == 1 { LastOut(s, v, h, g); }
        Bystander(s, v, s', v', h, Idle(l), g);
      } else {
        StrangerIsSound(s', v', g);
      }
    }
    Assemble(s', v');
  }

  lemma ReleaseKeeps(s: State, v: Values, h: Handle)
    requires Inv(s, v) && Enabled(s, Release(h))
    ensures Inv(Do(s, Release(h)), Plain(v, s, Release(h)))
  {
    hide Holders, Copies, Inv, Sound, Counted, Count;
    var step := Release(h);
    var s', v' := Do(s, step), Plain(v, s, step);
    StepIsLive(s, v, step);
    InvParts(s, v);
    SoundOf(s, v, h);
    SoundIs(s, v, h);
    var q := s.handles[h];
    var p := Writing(q.copy, q.change);
    FreedOnceMore(s, v, q.at);
    forall k ensures Counted(s', k) {
      ReleaseCounted(s, v, h, k);
    }
    forall g ensures Sound(s', v', g) {
      if g == h {
        Moved(s.handles, h, p, q.copy);
        InstalledIsSound(s', v', h);
      } else if g in s.handles {
        ReleasedBystander(s, v, h, g);
      } else {
        StrangerIsSound(s', v', g);
      }
    }
    Assemble(s', v');
  }

  lemma ReleaseCounted(s: State, v: Values, h: Handle, k: Loc)
    requires Inv(s, v) && Enabled(s, Release(h)) && Live(s, Release(h))
    ensures Counted(Do(s, Release(h)), k)
  {
    hide Holders, Copies, Inv, Sound, Counted, Count;
    CountedOf(s, v, k);
    SoundOf(s, v, h);
    SoundIs(s, v, h);
    Moved(s.handles, h, Writing(s.handles[h].copy, s.handles[h].change), k);
    CountedIs(s, k);
    CountedIs(Do(s, Release(h)), k);
  }

  lemma ReleasedBystander(s: State, v: Values, h: Handle, g: Handle)
    requires Inv(s, v) && Enabled(s, Release(h)) && Live(s, Release(h)) && g in s.handles && g != h
    ensures Sound(Do(s, Release(h)), v, g)
  {
    hide Holders, Copies, Inv, Sound;
    var q := s.handles[h];
    SoundOf(s, v, h);
    SoundOf(s, v, g);
    SoundIs(s, v, g);
    Apart(s, v, g, h);
    Apart(s, v, h, g);
    if s.heap[q.at].refs == 1 { LastOut(s, v, h, g); }
    Bystander(s, v, Do(s, Release(h)), v, h, Writing(q.copy, q.change), g);
  }

  lemma InstalledIsSound(s: State, v: Values, h: Handle)
    requires h in s.handles && s.handles[h].Writing? && h in v
    requires var l := s.handles[h].at;
             && l in s.heap && s.heap[l].packet == v[h]
             && Holders(s.handles, l) == {} - {h} + {h} && Copies(s.handles, l) == {h} - {h} + {}
    ensures Sound(s, v, h)
  {
  }

  // ---------------------------------------------------------------------
  // Whole runs
  // ---------------------------------------------------------------------

  // A step of any thread touches no freed body, and keeps every handle equal to
  // its own value.
  lemma StepKeeps(s: State, v: Values, step: Step)
    requires Inv(s, v)
    ensures Enabled(s, step) ==> Live(s, step)
    ensures Inv(Do(s, step), Plain(v, s, step))
  {
    hide Inv, Act;
    if Enabled(s, step) {
      StepIsLive(s, v, step);
      match step {
        case Create(h, l) => CreateKeeps(s, v, h, l);
        case Copy(h, src) => CopyKeeps(s, v, h, src);
        case Destroy(h) => DestroyKeeps(s, v, h);
        case Probe(h, c) => ProbeKeeps(s, v, h, c);
        case Clone(h, l) => CloneKeeps(s, v, h, l);
        case Release(h) => ReleaseKeeps(s, v, h);
        case Write(h) => WriteKeeps(s, v, h);
      }
    }
  }

  datatype Both = Both(state: State, values: Values)

  function Run(steps: seq<Step>): Both {
    if steps == [] then Both(NOTHING, map[])
    else
      var b := Run(steps[..|steps| - 1]);
      var step := steps[|steps| - 1];
      Both(Do(b.state, step), Plain(b.values, b.state, step))
  }

  lemma {:induction false} RunsKeep(steps: seq<Step>)
    ensures Inv(Run(steps).state, Run(steps).values)
  {
    if steps == [] {
      NothingIsSound();
    } else {
      hide Inv, Do, Plain;
      RunsKeep(steps[..|steps| - 1]);
      var b := Run(steps[..|steps| - 1]);
      StepKeeps(b.state, b.values, steps[|steps| - 1]);
    }
  }

  lemma NothingIsSound()
    ensures Inv(NOTHING, map[])
  {
  }

  // In every reachable state each handle reads what it would read holding a
  // packet of its own, the count of a body is the number of references to it,
  // and a body whose count has reached zero is freed once and never seen again.
  lemma {:induction false} HandlesAreValues(steps: seq<Step>)
    ensures var s, v := Run(steps).state, Run(steps).values;
            && v.Keys == s.handles.Keys
            && (forall h :: h in s.handles ==>
                  s.handles[h].at in s.heap && s.heap[s.handles[h].at].packet == v[h])
            && (forall l :: l in s.heap ==> s.heap[l].refs == Count(s.handles, l) > 0)
            && FreedOnce(s)
    ensures forall step :: Enabled(Run(steps).state, step) ==> Live(Run(steps).state, step)
  {
    hide Inv, Sound, Counted, Enabled, Live, Holders, Copies;
    var s, v := Run(steps).state, Run(steps).values;
    RunsKeep(steps);
    InvParts(s, v);
    forall h | h in s.handles
      ensures s.handles[h].at in s.heap && s.heap[s.handles[h].at].packet == v[h]
    {
      SoundOf(s, v, h);
      SoundIs(s, v, h);
    }
    forall l | l in s.heap ensures s.heap[l].refs == Count(s.handles, l) > 0 {
      CountedOf(s, v, l);
      CountedIs(s, l);
    }
    forall step ensures Enabled(s, step) ==> Live(s, step) {
      if Enabled(s, step) { StepIsLive(s, v, step); }
    }
  }

  // What each getter reads after a setter: its own field the new value, and every
  // other field the old one. The framing setter is the setter of five fields.
  lemma SettersSetTheirFields(p: Packet, c: Change)
    ensures var q := Changed(p, c);
            && q.format == (if c.SetFormat? then c.format else p.format)
            && q.transport == (if c.SetTransport? then c.transport else p.transport)
            && q.data == (if c.SetData? then c.data else p.data)
            && q.meta == (if c.SetMeta? then c.meta else p.meta)
            && q.line == (if c.SetLine? || c.SetFraming? then c.line else p.line)
            && q.hOffset == (if c.SetHOffset? || c.SetFraming? then c.hOffset else p.hOffset)
            && q.fieldB == (if c.SetFieldB? || c.SetFraming? then c.fieldB else p.fieldB)
            && q.cBit == (if c.SetCBit? || c.SetFraming? then c.cBit else p.cBit)
            && q.streamNum == (if c.SetStreamNum? || c.SetFraming? then c.streamNum else p.streamNum)
  {
  }

  // A packet nothing has set carries no data and the line and offset that stand for
  // "any", and so does every handle just created, whatever else is going on.
  lemma {:induction false} CreatedIsBlank(steps: seq<Step>, h: Handle, l: Loc)
    requires Enabled(Run(steps).state, Create(h, l))
    ensures var s := Run(steps + [Create(h, l)]).state;
            && h in s.handles && s.handles[h].at == l && l in s.heap
            && s.heap[l] == Body(1, Packet(0, 0, [], 0, 0x7FE, 0xFFF, false, false, 0))
  {
    assert (steps + [Create(h, l)])[..|steps|] == steps;
  }

  // One framing call leaves the packet as the five single setters do.
  lemma {:induction false} FramingIsFiveSetters(p: Packet, l: u16, x: u16, f: bool, c: bool, n: byte)
    ensures Changed(p, SetFraming(l, x, f, c, n))
            == ChangedAll(p, [SetLine(l), SetHOffset(x), SetFieldB(f), SetCBit(c), SetStreamNum(n)])
  {
    var e: seq<Change> := [SetStreamNum(n)];
    var d := [SetCBit(c)] + e;
    var b := [SetFieldB(f)] + d;
    var a := [SetHOffset(x)] + b;
    var p1 := p.(line := l);
    var p2 := p1.(hOffset := x);
    var p3 := p2.(fieldB := f);
    var p4 := p3.(cBit := c);
    assert e[1..] == [] && d[1..] == e && b[1..] == d && a[1..] == b;
    assert ChangedAll(p4, e) == p4.(streamNum := n);
    assert ChangedAll(p3, d) == ChangedAll(p4, e);
    assert ChangedAll(p2, b) == ChangedAll(p3, d);
    assert ChangedAll(p1, a) == ChangedAll(p2, b);
    assert [SetLine(l), SetHOffset(x), SetFieldB(f), SetCBit(c), SetStreamNum(n)] == [SetLine(l)] + a;
    assert ([SetLine(l)] + a)[1..] == a;
  }
}
