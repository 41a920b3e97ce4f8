// PTS anchors of the audio FIFO: which wall-clock time a sample index maps to,
// and why forgetting consumed anchors never changes an answer.

module Timeline {
  datatype Stamp = NoStamp | At(ns: int)

  datatype Anchor = Anchor(index: nat, ns: int)

  // Nanoseconds spanned by `offset` samples, truncated to a whole number.
  function Step(offset: nat, rate: real): (ns: int)
    requires rate > 0.0
  {
    (offset as real * 1_000_000_000.0 / rate).Floor
  }

  lemma NoStepNoTime(rate: real)
    requires rate > 0.0
    ensures Step(0, rate) == 0
  {
  }

  // The step is the whole number of nanoseconds in `n` sample periods.
  lemma StepIsWholeNanoseconds(n: nat, rate: real)
    requires rate > 0.0
    ensures Step(n, rate) as real * rate <= n as real * 1_000_000_000.0 < (Step(n, rate) + 1) as real * rate
    ensures Step(n, rate) >= 0
  {
    var total := n as real * 1_000_000_000.0;
    FloorIs(total / rate, total, rate);
  }

  lemma FloorIs(q: real, total: real, rate: real)
    requires rate > 0.0 && q * rate == total && total >= 0.0
    ensures q.Floor as real * rate <= total < (q.Floor + 1) as real * rate
    ensures q.Floor >= 0
  {
    assert q >= 0.0 by { if q < 0.0 { Smaller(q, 0.0, rate); } }
    Bracketed(q.Floor as real, q, (q.Floor + 1) as real, total, rate);
  }

  lemma Bracketed(x: real, q: real, y: real, total: real, rate: real)
    requires rate > 0.0 && q * rate == total && x <= q < y
    ensures x * rate <= total < y * rate
  {
    NoSmaller(x, q, rate);
    Smaller(q, y, rate);
  }

  lemma NoSmaller(x: real, y: real, rate: real)
    requires rate > 0.0 && x <= y
    ensures x * rate <= y * rate
  {
  }

  lemma Smaller(x: real, y: real, rate: real)
    requires rate > 0.0 && x < y
    ensures x * rate < y * rate
  {
  }

  // No other whole number is.
  lemma StepIsUnique(n: nat, rate: real, t: int)
    requires rate > 0.0
    requires t as real * rate <= n as real * 1_000_000_000.0 < (t + 1) as real * rate
    ensures Step(n, rate) == t
  {
    hide Step;
    StepIsWholeNanoseconds(n, rate);
    var s, total := Step(n, rate), n as real * 1_000_000_000.0;
    Above((s + 1) as real, t as real, total, rate);
    Above((t + 1) as real, s as real, total, rate);
  }

  lemma Above(x: real, y: real, total: real, rate: real)
    requires rate > 0.0 && y * rate <= total < x * rate
    ensures y < x
  {
    if x <= y { NoSmaller(x, y, rate); }
  }

  // A second's worth of samples more is a second later, to the nanosecond.
  lemma StepOfSeconds(n: nat, seconds: nat, rate: nat)
    requires rate > 0
    ensures Step(n + seconds * rate, rate as real) == Step(n, rate as real) + seconds * 1_000_000_000
  {
    hide Step;
    StepIsWholeNanoseconds(n, rate as real);
    var t := Step(n, rate as real);
    Shifted(t, seconds, rate);
    Shifted(t + 1, seconds, rate);
    AsReal(n, seconds * rate);
    Samples(seconds, rate);
    StepIsUnique(n + seconds * rate, rate as real, t + seconds * 1_000_000_000);
  }

  lemma Shifted(t: int, seconds: nat, rate: nat)
    ensures (t + seconds * 1_000_000_000) as real * rate as real
            == t as real * rate as real + (seconds as real * rate as real) * 1_000_000_000.0
  {
    Samples(seconds, 1_000_000_000);
  }

  lemma Samples(seconds: nat, rate: nat)
    ensures (seconds * rate) as real == seconds as real * rate as real
  {
    if seconds > 0 {
      Samples(seconds - 1, rate);
      assert seconds * rate == (seconds - 1) * rate + rate;
    }
  }

  lemma AsReal(a: nat, b: nat)
    ensures (a + b) as real == a as real + b as real
  {
  }

  // Rounding does not build up: a step in two parts is at most one nanosecond
  // short of the whole.
  lemma StepInParts(a: nat, b: nat, rate: real)
    requires rate > 0.0
    ensures 0 <= Step(a + b, rate) - Step(a, rate) - Step(b, rate) <= 1
  {
    hide Step;
    StepIsWholeNanoseconds(a, rate);
    StepIsWholeNanoseconds(b, rate);
    StepIsWholeNanoseconds(a + b, rate);
    AsReal(a, b);
    WholeSum(Step(a, rate), Step(b, rate), Step(a + b, rate), rate,
             a as real * 1_000_000_000.0, b as real * 1_000_000_000.0);
  }

  lemma WholeSum(x: int, y: int, z: int, rate: real, a: real, b: real)
    requires rate > 0.0
    requires x as real * rate <= a < (x + 1) as real * rate && y as real * rate <= b < (y + 1) as real * rate
    requires z as real * rate <= a + b < (z + 1) as real * rate
    ensures 0 <= z - x - y <= 1
  {
    if z + 1 <= x + y { BelowParts((z + 1) as real, x as real, y as real, rate, a, b); }
    if x + y + 2 <= z { PartsBelow((x + 1) as real, (y + 1) as real, z as real, rate, a, b); }
  }

  lemma BelowParts(z: real, x: real, y: real, rate: real, a: real, b: real)
    requires rate > 0.0 && x * rate <= a && y * rate <= b && z <= x + y
    ensures z * rate <= a + b
  {
    Sum(x, y, rate);
    NoSmaller(z, x + y, rate);
  }

  lemma PartsBelow(x: real, y: real, z: real, rate: real, a: real, b: real)
    requires rate > 0.0 && a < x * rate && b < y * rate && x + y <= z
    ensures a + b < z * rate
  {
    Sum(x, y, rate);
    NoSmaller(x + y, z, rate);
  }

  lemma Sum(x: real, y: real, rate: real)
    ensures (x + y) * rate == x * rate + y * rate
  {
  }

  // The position of the last-laid anchor at or before sample `i`, or -1.
  function Latest(anchors: seq<Anchor>, i: nat): (k: int)
    ensures -1 <= k < |anchors|
    ensures k >= 0 ==> anchors[k].index <= i
    ensures forall j :: k < j < |anchors| ==> anchors[j].index > i
  {
    var n := |anchors|;
    if n == 0 then -1 else if anchors[n - 1].index <= i then n - 1 else Latest(anchors[..n - 1], i)
  }

  function StampAt(anchors: seq<Anchor>, i: nat, rate: real): Stamp
    requires rate > 0.0
  {
    var k := Latest(anchors, i);
    if k < 0 then NoStamp else At(anchors[k].ns + Step(i - anchors[k].index, rate))
  }

  // While the same anchor is the latest, dates advance by a second for each second's
  // worth of samples.
  lemma SecondsApart(anchors: seq<Anchor>, i: nat, seconds: nat, rate: nat)
    requires rate > 0 && Latest(anchors, i + seconds * rate) == Latest(anchors, i)
    ensures var s, t := StampAt(anchors, i, rate as real), StampAt(anchors, i + seconds * rate, rate as real);
            if s.NoStamp? then t.NoStamp? else t == At(s.ns + seconds * 1_000_000_000)
  {
    hide Step;
    var k := Latest(anchors, i);
    if k >= 0 {
      StepOfSeconds(i - anchors[k].index, seconds, rate);
    }
  }

  // Dropping the first `n` anchors is safe for every sample that the anchor
  // then in front already covers.
  lemma {:induction false} PrunedAgrees(anchors: seq<Anchor>, n: nat, i: nat, rate: real)
    requires rate > 0.0
    requires n == 0 || (n < |anchors| && anchors[n].index <= i)
    ensures StampAt(anchors[n..], i, rate) == StampAt(anchors, i, rate)
  {
    var kept := anchors[n..];
    assert forall m :: 0 <= m < |kept| ==> kept[m] == anchors[n + m];
    assert Latest(anchors, i) == if Latest(kept, i) < 0 then -1 else n + Latest(kept, i);
  }

  // A newly laid anchor dates the samples from its index on and no others.
  lemma {:induction false} NewAnchorDates(anchors: seq<Anchor>, a: Anchor, i: nat, rate: real)
    requires rate > 0.0
    ensures StampAt(anchors + [a], i, rate) ==
            if a.index <= i then At(a.ns + Step(i - a.index, rate)) else StampAt(anchors, i, rate)
  {
    assert (anchors + [a])[..|anchors|] == anchors;
  }
}
