// The frame-sync demonstration: every d-th frame is dropped, every r-th repeated,
// and the closed form of the totals it prints.

module DemoSchedule {
  import opened Errors
  import opened Numbers
  import opened FrameSync
  import AFS = AncFrameSync

  datatype Options = Options(dropEvery: int, repeatEvery: int, repeatCount: int)

  function Decide(slot: nat, o: Options): Disposition {
    var idx := slot + 1;
    if o.dropEvery > 0 && idx % o.dropEvery == 0 then Drop
    else if o.repeatEvery > 0 && idx % o.repeatEvery == 0 then Repeat(o.repeatCount % 256)
    else Play
  }

  // ---------------------------------------------------------------------
  // Divisibility
  // ---------------------------------------------------------------------

  predicate Common(d: nat, r: nat, m: nat)
    requires d > 0 && r > 0
  {
    m % d == 0 && m % r == 0
  }

  // The least common multiple, found by searching upwards.
  function LeastFrom(d: nat, r: nat, m: nat): (l: nat)
    requires d > 0 && r > 0 && 0 < m <= d * r
    requires forall k :: 0 < k < m ==> !Common(d, r, k)
    ensures 0 < l && Common(d, r, l)
    ensures forall k :: 0 < k < l ==> !Common(d, r, k)
    decreases d * r - m
  {
    if Common(d, r, m) then m
    else
      MultipleDivides(d, r, 0);
      MultipleDivides(r, d, 0);
      LeastFrom(d, r, m + 1)
  }

  function Lcm(d: nat, r: nat): (l: nat)
    requires d > 0 && r > 0
    ensures 0 < l && Common(d, r, l)
    ensures forall k :: 0 < k < l ==> !Common(d, r, k)
  {
    AtLeastOne(d, r);
    LeastFrom(d, r, 1)
  }

  lemma AtLeastOne(d: nat, r: nat)
    requires d > 0 && r > 0
    ensures d * r >= 1
  {
  }

  lemma {:induction false} MultipleDivides(d: nat, q: int, rest: nat)
    requires 0 <= rest < d
    ensures (d * q + rest) % d == rest
  {
    var m := d * q + rest;
    SameQuotient(d, q, rest, m / d, m % d);
  }

  lemma RemainderKeepsDivisor(d: nat, m: nat, l: nat)
    requires d > 0 && l > 0 && m % d == 0 && l % d == 0
    ensures (m % l) % d == 0
  {
    var a, b, q := m / d, l / d, m / l;
    assert m == d * a && l == d * b && m == l * q + m % l;
    Factor(d, a, b, q);
    assert m % l == d * (a - b * q);
    MultipleDivides(d, a - b * q, 0);
  }

  lemma Factor(d: nat, a: nat, b: nat, q: nat)
    ensures d * a - (d * b) * q == d * (a - b * q)
  {
  }

  // The common multiples are the multiples of the least one.
  lemma CommonMultiples(d: nat, r: nat, m: nat)
    requires d > 0 && r > 0
    ensures Common(d, r, m) <==> m % Lcm(d, r) == 0
  {
    var l := Lcm(d, r);
    if Common(d, r, m) {
      RemainderKeepsDivisor(d, m, l);
      RemainderKeepsDivisor(r, m, l);
      assert Common(d, r, m % l);
    }
    if m % l == 0 {
      MultipleOfMultiple(d, l, m);
      MultipleOfMultiple(r, l, m);
    }
  }

  lemma MultipleOfMultiple(d: nat, l: nat, m: nat)
    requires d > 0 && l > 0 && l % d == 0 && m % l == 0
    ensures m % d == 0
  {
    var b, q := l / d, m / l;
    assert l == d * b && m == l * q;
    Factor(d, 0, b, q);
    assert m == d * (b * q);
    MultipleDivides(d, b * q, 0);
  }

  // Each further number adds one multiple of l to the tally when l divides it.
  lemma NextMultiple(l: nat, n: nat)
    requires l > 0
    ensures (n + 1) / l == n / l + (if (n + 1) % l == 0 then 1 else 0)
  {
    var q, s := n / l, n % l;
    assert n == l * q + s;
    if s + 1 == l {
      assert n + 1 == l * (q + 1) + 0;
      SameQuotient(l, q + 1, 0, (n + 1) / l, (n + 1) % l);
    } else {
      SameQuotient(l, q, s + 1, (n + 1) / l, (n + 1) % l);
    }
  }

  // ---------------------------------------------------------------------
  // Closed forms
  // ---------------------------------------------------------------------

  // How many of the first n frames are multiples of d, and of both d and r.
  function Multiples(n: nat, d: int): nat {
    if d <= 0 then 0 else n / d
  }

  function CommonCount(n: nat, d: int, r: int): nat {
    if d <= 0 || r <= 0 then 0 else n / Lcm(d, r)
  }

  lemma NextCount(n: nat, o: Options)
    ensures var d, r := o.dropEvery, o.repeatEvery;
            && Multiples(n + 1, d) == Multiples(n, d) + (if Decide(n, o).Drop? then 1 else 0)
            && Multiples(n + 1, r) - CommonCount(n + 1, d, r)
               == Multiples(n, r) - CommonCount(n, d, r) + (if Decide(n, o).Repeat? then 1 else 0)
  {
    var d, r := o.dropEvery, o.repeatEvery;
    if d > 0 { NextMultiple(d, n); }
    if r > 0 { NextMultiple(r, n); }
    if d > 0 && r > 0 {
      NextMultiple(Lcm(d, r), n);
      CommonMultiples(d, r, n + 1);
    }
  }

  lemma NoFrames(o: Options)
    ensures Multiples(0, o.dropEvery) == 0 && Multiples(0, o.repeatEvery) == 0
    ensures CommonCount(0, o.dropEvery, o.repeatEvery) == 0
  {
  }

  // The frames that so many plays and repeats put out.
  function Emissions(plays: nat, repeats: nat, each: nat): nat {
    plays + each * repeats
  }

  lemma NoEmissions(each: nat)
    ensures Emissions(0, 0, each) == 0
  {
  }

  lemma MoreEmissions(plays: nat, repeats: nat, each: nat)
    ensures Emissions(plays + 1, repeats, each) == Emissions(plays, repeats, each) + 1
    ensures Emissions(plays, repeats + 1, each) == Emissions(plays, repeats, each) + each
  {
    Distribute(each, repeats + 1, 1);
  }

  lemma EmissionsAre(plays: nat, repeats: nat, each: nat)
    ensures Emissions(plays, repeats, each) == plays + each * repeats
  {
  }

  datatype Totals = Totals(plays: nat, drops: nat, repeats: nat, outputs: nat)

  ghost predicate DropNeverFails(pol: Policies) {
    forall p :: pol.Apply(p, Drop, 0).Packets?
  }

  lemma {:induction false} NoDropError(pol: Policies, packets: seq<Packet>)
    requires DropNeverFails(pol)
    ensures Dropped(pol, packets).err == Ok
  {
    if packets == [] {
    } else {
      NoDropError(pol, packets[..|packets| - 1]);
      assert pol.Apply(packets[|packets| - 1], Drop, 0).Packets?;
    }
  }

  // The demonstration's main loop over its source frames. A slot whose drop walk
  // fails is skipped by the tallies.
  method Run(sync: AFS.AncFrameSync, source: seq<Frame>, o: Options) returns (t: Totals)
    requires sync.Valid()
    modifies sync
    ensures sync.Valid()
    ensures var n, d, r := |source|, o.dropEvery, o.repeatEvery;
            && t.repeats == Multiples(n, r) - CommonCount(n, d, r)
            && t.plays == n - Multiples(n, d) - t.repeats
            && t.drops <= Multiples(n, d)
            && (DropNeverFails(sync.pol) ==> t.drops == Multiples(n, d))
            && t.outputs == t.plays + (o.repeatCount % 256) * t.repeats
  {
    var plays, drops, repeats, outputs := 0, 0, 0, 0;
    var slot := 0;
    var each := o.repeatCount % 256;
    hide Multiples, CommonCount, Emissions;
    NoFrames(o);
    NoEmissions(each);
    while slot < |source|
      invariant 0 <= slot <= |source|
      invariant sync.Valid()
      invariant repeats == Multiples(slot, o.repeatEvery) - CommonCount(slot, o.dropEvery, o.repeatEvery)
      invariant plays == slot - Multiples(slot, o.dropEvery) - repeats
      invariant drops <= Multiples(slot, o.dropEvery)
      invariant DropNeverFails(sync.pol) ==> drops == Multiples(slot, o.dropEvery)
      invariant outputs == Emissions(plays, repeats, each)
    {
      NextCount(slot, o);
      MoreEmissions(plays, repeats, each);
      var disp := Decide(slot, o);
      var out := sync.Apply(source[slot], disp);
      if DropNeverFails(sync.pol) {
        NoDropError(sync.pol, AncPackets(source[slot]));
      }
      if out.err == Ok {
        match disp {
          case Drop => drops := drops + 1;
          case Repeat(_) => repeats := repeats + 1;
          case Play => plays := plays + 1;
        }
        outputs := outputs + |out.frames|;
      }
      slot := slot + 1;
    }
    EmissionsAre(plays, repeats, each);
    t := Totals(plays, drops, repeats, outputs);
  }

}
