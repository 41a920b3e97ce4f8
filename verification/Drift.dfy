// Clock-drift correction: the controller that steers the FIFO's fill level,
// and the closed loop it forms with a producer and a consumer whose clocks
// differ by a constant factor. Arithmetic is over exact reals.

module Drift {
  const MAX_INTEGRAL: real := 1000.0

  function Clamp(x: real): (r: real)
    ensures -MAX_INTEGRAL <= r <= MAX_INTEGRAL
    ensures -MAX_INTEGRAL <= x <= MAX_INTEGRAL ==> r == x
  {
    if x > MAX_INTEGRAL then MAX_INTEGRAL else if x < -MAX_INTEGRAL then -MAX_INTEGRAL else x
  }

  function FillError(fill: real, target: real): real
    requires target > 0.0
  {
    (fill - target) / target
  }

  function Ratio(nominal: real, gain: real, error: real, integral: real): real {
    nominal * (1.0 - gain * error - gain * 0.001 * integral)
  }

  class Controller {
    var enabled: bool
    var target: nat
    var gain: real
    var ratio: real
    var integral: real

    constructor ()
      ensures !enabled && integral == 0.0 && ratio == 1.0
    {
      enabled, target, gain, ratio, integral := false, 0, 0.001, 1.0, 0.0;
    }

    method Enable(targetSamples: nat, newGain: real)
      modifies this
      ensures enabled && target == targetSamples && gain == newGain && ratio == 1.0 && integral == 0.0
    {
      enabled, target, gain, ratio, integral := true, targetSamples, newGain, 1.0, 0.0;
    }

    method Disable()
      modifies this`enabled, this`ratio, this`integral
      ensures !enabled && ratio == 1.0 && integral == 0.0
    {
      enabled, ratio, integral := false, 1.0, 0.0;
    }

    // The ratio for one push, given the fill level it finds. The integral is
    // updated, and held within its limits, before it is used.
    method ComputeRatio(count: nat, outputRate: real, inputRate: real) returns (r: real)
      requires inputRate > 0.0
      modifies this`integral
      ensures !enabled || target == 0 ==> integral == old(integral) && r == outputRate / inputRate
      ensures enabled && target > 0 ==>
                var e := FillError(count as real, target as real);
                && integral == Clamp(old(integral) + e)
                && r == Ratio(outputRate / inputRate, gain, e, integral)
    {
      var nominal := outputRate / inputRate;
      if !enabled || target == 0 { return nominal; }
      var error := (count as real - target as real) / target as real;
      integral := integral + error;
      if integral > MAX_INTEGRAL { integral := MAX_INTEGRAL; }
      if integral < -MAX_INTEGRAL { integral := -MAX_INTEGRAL; }
      var ki := gain * 0.001;
      r := nominal * (1.0 - gain * error - ki * integral);
    }
  }

  // ---------------------------------------------------------------------
  // The closed loop
  // ---------------------------------------------------------------------

  // Each push offers `batch` input samples; between pushes the consumer takes
  // `drain` output samples.
  datatype Setup = Setup(target: real, gain: real, nominal: real, batch: real, drain: real) {
    ghost predicate Valid() { target > 0.0 && gain > 0.0 && nominal > 0.0 && batch > 0.0 }

    // Loop gains of the proportional and the integral path.
    function FlowPerTarget(): real requires target > 0.0 { batch * nominal / target }
    function P(): real requires target > 0.0 { FlowPerTarget() * gain }
    function Q(): real requires target > 0.0 { P() / 1000.0 }

    // Relative clock drift, and the integral that cancels it on target.
    function Mismatch(): real requires batch > 0.0 && nominal > 0.0 { 1.0 - drain / (batch * nominal) }
    function Setpoint(): real requires batch > 0.0 && nominal > 0.0 && gain > 0.0 { Mismatch() / gain * 1000.0 }
  }

  datatype State = State(fill: real, integral: real)

  function Next(c: Setup, s: State): State
    requires c.target > 0.0
  {
    var e := FillError(s.fill, c.target);
    var i := Clamp(s.integral + e);
    State(s.fill + c.batch * Ratio(c.nominal, c.gain, e, i) - c.drain, i)
  }

  // The error after a push that found error `e` and left the integral `j`
  // away from its setpoint.
  function NextErr(p: real, q: real, e: real, j: real): real {
    e - p * e - q * j
  }

  // In error coordinates the loop is linear up to the clamp.
  lemma NextError(c: Setup, s: State)
    requires c.Valid()
    ensures var e, t := FillError(s.fill, c.target), Next(c, s);
            FillError(t.fill, c.target) == NextErr(c.P(), c.Q(), e, t.integral - c.Setpoint())
  {
    hide FillError, Setup.Setpoint, Setup.FlowPerTarget, Clamp, NextErr;
    var e, t, z := FillError(s.fill, c.target), Next(c, s), c.Setpoint();
    var x := -(c.gain * e) - c.gain * 0.001 * (t.integral - z);
    DrainAtSetpoint(c);
    FlowShare(c);
    ErrorShift(s.fill, t.fill, c.batch * c.nominal, c.FlowPerTarget(), x, c.target);
    PathGains(c.FlowPerTarget(), c.gain, e, t.integral - z, x, c.P(), c.Q());
  }

  lemma FlowShare(c: Setup)
    requires c.Valid()
    ensures c.FlowPerTarget() * c.target == c.batch * c.nominal
  {
  }

  lemma PathGains(b: real, gain: real, e: real, j: real, x: real, p: real, q: real)
    requires x == -(gain * e) - gain * 0.001 * j && p == b * gain && q == p / 1000.0
    ensures e + b * x == NextErr(p, q, e, j)
  {
  }

  lemma ErrorShift(fill: real, after: real, flow: real, b: real, x: real, target: real)
    requires target > 0.0 && after == fill + flow * x && b * target == flow
    ensures FillError(after, target) == FillError(fill, target) + b * x
  {
    var e, f := FillError(fill, target), FillError(after, target);
    Cancel(f, e + b * x, target);
  }

  lemma Cancel(x: real, y: real, t: real)
    requires t > 0.0
    ensures x * t == y * t <==> x == y
  {
    if x < y { Scale(t, x, y); } else if y < x { Scale(t, y, x); }
  }

  lemma DrainAtSetpoint(c: Setup)
    requires c.Valid()
    ensures c.drain == c.batch * c.nominal * (1.0 - c.gain * 0.001 * c.Setpoint())
  {
    Scale(c.batch, 0.0, c.nominal);
    SetpointCancels(c.gain, c.Mismatch());
    DrainFromMismatch(c.drain, c.batch * c.nominal);
  }

  lemma SetpointCancels(gain: real, m: real)
    requires gain > 0.0
    ensures gain * 0.001 * (m / gain * 1000.0) == m
  {
  }

  lemma DrainFromMismatch(drain: real, flow: real)
    requires flow > 0.0
    ensures flow * (1.0 - (1.0 - drain / flow)) == drain
  {
  }

  // ---------------------------------------------------------------------
  // Energy
  // ---------------------------------------------------------------------

  // `e` is the fill error and `j` the integral's distance from its setpoint.
  function Energy(p: real, q: real, e: real, j: real): real {
    e * e + q * (1.0 - p / 2.0) * (j * j) + q * (j * e)
  }

  lemma EnergyIsNonNegative(p: real, q: real, e: real, j: real)
    requires q >= 0.0 && p + q / 2.0 <= 2.0
    ensures Energy(p, q, e, j) >= 0.0
  {
    var w := 1.0 - p / 2.0 - q / 4.0;
    SquareIsNonNegative(e + q / 2.0 * j);
    SquareIsNonNegative(j);
    Scale(q, 0.0, w);
    Scale(q * w, 0.0, j * j);
  }

  // The pieces of one push's energy balance, for a push that finds error `e`.
  function Loss(p: real, q: real, e: real): real {
    p * (2.0 - p - q / 2.0) * (e * e)
  }

  function Slack(p: real): real {
    if p < 1.0 then 1.0 - p else 0.0
  }

  function SlackOn(p: real, q: real, e: real): real {
    q * (Slack(p) * (e * e))
  }

  // Away from the clamp, one push sheds exactly its loss.
  lemma FreeStepEnergy(p: real, q: real, e: real, j: real)
    ensures Energy(p, q, NextErr(p, q, e, j + e), j + e) == Energy(p, q, e, j) - Loss(p, q, e)
  {
    hide Energy, Loss;
    FreeStepRaw(p, q, e, j);
  }

  lemma FreeStepRaw(p: real, q: real, e: real, j: real)
    ensures Energy(p, q, e - p * e - q * (j + e), j + e) == Energy(p, q, e, j) - Loss(p, q, e)
  {
  }

  // When the upper limit cuts the integral short at `top`, which is not below
  // the setpoint, the push still sheds all but a thousandth of that.
  lemma ClampedStepEnergy(p: real, q: real, e: real, j: real, top: real)
    requires q >= 0.0 && p <= 2.0 && 0.0 <= top && j <= top < j + e
    ensures Energy(p, q, NextErr(p, q, e, top), top) <= Energy(p, q, e, j) - Loss(p, q, e) + SlackOn(p, q, e)
  {
    hide Energy, Loss, NextErr, Slack, SlackOn, Change;
    FreeStepEnergy(p, q, e, j);
    CutShort(p, q, e, j + e, top);
    CutGain(p, q, e, top, j + e - top);
  }

  // What a cut of size `d` adds to the energy.
  function Change(p: real, q: real, e: real, top: real, d: real): real {
    q * (d * ((1.0 - p) * e - (2.0 - p) * top - (1.0 - p / 2.0) * d))
  }

  lemma CutGain(p: real, q: real, e: real, top: real, d: real)
    requires q >= 0.0 && p <= 2.0 && 0.0 <= top && 0.0 <= d <= e
    ensures Change(p, q, e, top, d) <= SlackOn(p, q, e)
  {
    hide Slack;
    var x := (1.0 - p) * e - (2.0 - p) * top - (1.0 - p / 2.0) * d;
    SlackCovers(p);
    ExcessBound(p, e, top, d, Slack(p));
    CutBound(Slack(p), e, d, x);
    Scale(q, d * x, Slack(p) * (e * e));
  }

  lemma ExcessBound(p: real, e: real, top: real, d: real, m: real)
    requires p <= 2.0 && 0.0 <= top && 0.0 <= d && 0.0 <= e && m >= 1.0 - p
    ensures (1.0 - p) * e - (2.0 - p) * top - (1.0 - p / 2.0) * d <= m * e
  {
    Scale(e, 1.0 - p, m);
    Scale(top, 0.0, 2.0 - p);
    Scale(d, 0.0, 1.0 - p / 2.0);
  }

  lemma SlackCovers(p: real)
    ensures Slack(p) >= 0.0 && Slack(p) >= 1.0 - p
  {
  }

  lemma CutBound(m: real, e: real, d: real, x: real)
    requires m >= 0.0 && 0.0 <= d <= e && x <= m * e
    ensures d * x <= m * (e * e)
  {
    Scale(d, x, m * e);
    Scale(e, 0.0, m);
    Scale(m * e, d, e);
  }

  lemma Scale(a: real, x: real, y: real)
    requires a >= 0.0 && x <= y
    ensures a * x <= a * y && x * a <= y * a && a * 0.0 == 0.0
    ensures a > 0.0 && x < y ==> a * x < a * y && x * a < y * a
  {
  }

  lemma CutShort(p: real, q: real, e: real, k: real, top: real)
    ensures Energy(p, q, NextErr(p, q, e, top), top) ==
            Energy(p, q, NextErr(p, q, e, k), k) + Change(p, q, e, top, k - top)
  {
    hide Energy, Change;
    CutShortRaw(p, q, e, k, top);
  }

  lemma CutShortRaw(p: real, q: real, e: real, k: real, top: real)
    ensures Energy(p, q, e - p * e - q * top, top) ==
            Energy(p, q, e - p * e - q * k, k) + Change(p, q, e, top, k - top)
  {
  }

  // ---------------------------------------------------------------------
  // Runs
  // ---------------------------------------------------------------------

  function LoopEnergy(c: Setup, s: State): real
    requires c.Valid()
  {
    Energy(c.P(), c.Q(), FillError(s.fill, c.target), s.integral - c.Setpoint())
  }

  function ShedOn(p: real, e: real): real {
    Shed(p) * (e * e)
  }

  // What each push sheds at least, per unit of squared error.
  function Shed(p: real): real {
    p * (2.0 - p - p / 2000.0) - p / 1000.0 * Slack(p)
  }

  lemma ShedIsPositive(p: real)
    requires 0.0 < p && p + p / 2000.0 < 2.0
    ensures Shed(p) > 0.0
  {
    var y := 2.0 - p - p / 2000.0 - Slack(p) / 1000.0;
    assert y > 0.0;
    Scale(p, 0.0, y);
  }

  // The loop can settle on target: the clocks differ by no more than the gain.
  ghost predicate Correctable(c: Setup)
    requires c.Valid()
  {
    -c.gain <= c.Mismatch() <= c.gain
  }

  lemma CorrectableMeansReachable(c: Setup)
    requires c.Valid()
    ensures Correctable(c) <==> -MAX_INTEGRAL <= c.Setpoint() <= MAX_INTEGRAL
  {
    hide Setup.Mismatch;
    var k := c.Mismatch() / c.gain;
    WithinGain(c.Mismatch(), c.gain, k);
  }

  lemma WithinGain(m: real, gain: real, k: real)
    requires gain > 0.0 && k * gain == m
    ensures -gain <= m <= gain <==> -1.0 <= k <= 1.0
  {
    AtMostGain(m, gain, k);
    Negate(k, gain);
    AtMostGain(-m, gain, -k);
  }

  lemma AtMostGain(m: real, gain: real, k: real)
    requires gain > 0.0 && k * gain == m
    ensures m <= gain <==> k <= 1.0
  {
    if k <= 1.0 { Scale(gain, k, 1.0); } else { Scale(gain, 1.0, k); }
  }

  lemma Negate(x: real, y: real)
    ensures -x * y == -(x * y)
  {
  }

  ghost predicate Stable(c: Setup)
    requires c.Valid()
  {
    c.P() + c.P() / 2000.0 < 2.0
  }

  lemma GainsArePositive(c: Setup)
    requires c.Valid()
    ensures c.P() > 0.0 && c.Q() > 0.0
  {
    Scale(c.batch, 0.0, c.nominal);
    Scale(c.FlowPerTarget(), 0.0, c.gain);
  }

  // Every accepted push sheds energy in proportion to the squared error it found.
  lemma PushShedsEnergy(c: Setup, s: State)
    requires c.Valid() && Stable(c) && Correctable(c)
    requires -MAX_INTEGRAL <= s.integral <= MAX_INTEGRAL
    ensures var e := FillError(s.fill, c.target);
            LoopEnergy(c, Next(c, s)) <= LoopEnergy(c, s) - ShedOn(c.P(), e)
  {
    hide Energy, ShedOn, Loss, SlackOn, NextErr, Setup.P, Setup.Q, Setup.Setpoint, Setup.Mismatch, FillError, Ratio;
    var p, q, z := c.P(), c.Q(), c.Setpoint();
    var e, j := FillError(s.fill, c.target), s.integral - z;
    var t := Next(c, s);
    GainsArePositive(c);
    CorrectableMeansReachable(c);
    NextError(c, s);
    StableGain(c);
    ShedTerm(p, q, e);
    assert LoopEnergy(c, t) == Energy(p, q, NextErr(p, q, e, t.integral - z), t.integral - z);
    if s.integral + e > MAX_INTEGRAL {
      ClampedStepEnergy(p, q, e, j, MAX_INTEGRAL - z);
    } else if s.integral + e < -MAX_INTEGRAL {
      ClampedBelow(p, q, e, j, -MAX_INTEGRAL - z);
    } else {
      assert t.integral - z == j + e;
      FreeStepEnergy(p, q, e, j);
    }
  }

  lemma Mirror(p: real, q: real, e: real, j: real)
    ensures NextErr(p, q, -e, -j) == -NextErr(p, q, e, j)
    ensures Loss(p, q, -e) == Loss(p, q, e) && SlackOn(p, q, -e) == SlackOn(p, q, e)
  {
  }

  // The lower limit, by symmetry.
  lemma ClampedBelow(p: real, q: real, e: real, j: real, bottom: real)
    requires q >= 0.0 && p <= 2.0 && bottom <= 0.0 && j + e < bottom <= j
    ensures Energy(p, q, NextErr(p, q, e, bottom), bottom) <=
            Energy(p, q, e, j) - Loss(p, q, e) + SlackOn(p, q, e)
  {
    hide Energy, Loss, NextErr, SlackOn;
    ClampedStepEnergy(p, q, -e, -j, -bottom);
    EvenEnergy(p, q, e, j);
    EvenEnergy(p, q, NextErr(p, q, e, bottom), bottom);
    Mirror(p, q, e, bottom);
  }

  lemma StableGain(c: Setup)
    requires c.Valid() && Stable(c) && c.P() > 0.0
    ensures c.P() <= 2.0 && c.Q() == c.P() / 1000.0 && c.Q() > 0.0
  {
    hide Setup.P;
  }

  lemma ShedTerm(p: real, q: real, e: real)
    requires p > 0.0 && q == p / 1000.0
    ensures ShedOn(p, e) == Loss(p, q, e) - SlackOn(p, q, e)
    ensures SlackOn(p, q, e) >= 0.0
  {
    hide Slack;
    SlackCovers(p);
    SquareIsNonNegative(e);
    Scale(Slack(p), 0.0, e * e);
    Scale(q, 0.0, Slack(p) * (e * e));
  }

  lemma EvenEnergy(p: real, q: real, e: real, j: real)
    ensures Energy(p, q, -e, -j) == Energy(p, q, e, j)
  {
  }

  function After(c: Setup, s: State, pushes: nat): State
    requires c.target > 0.0
    decreases pushes
  {
    if pushes == 0 then s else After(c, Next(c, s), pushes - 1)
  }

  // The squared errors that the first `pushes` pushes find, added up.
  function SquaredErrors(c: Setup, s: State, pushes: nat): real
    requires c.target > 0.0
    decreases pushes
  {
    if pushes == 0 then 0.0
    else
      var e := FillError(s.fill, c.target);
      e * e + SquaredErrors(c, Next(c, s), pushes - 1)
  }

  // However long the run, the squared errors add up to no more than the
  // starting energy over the shed rate.
  lemma {:induction false} RunErrorIsBounded(c: Setup, s: State, pushes: nat)
    requires c.Valid() && Stable(c) && Correctable(c)
    requires -MAX_INTEGRAL <= s.integral <= MAX_INTEGRAL
    ensures Shed(c.P()) > 0.0
    ensures Shed(c.P()) * SquaredErrors(c, s, pushes) <= LoopEnergy(c, s)
    ensures LoopEnergy(c, After(c, s, pushes)) + Shed(c.P()) * SquaredErrors(c, s, pushes) <= LoopEnergy(c, s)
    decreases pushes
  {
    hide Next, Energy, Shed, Setup.P, Setup.Setpoint, FillError, Clamp;
    GainsArePositive(c);
    ShedIsPositive(c.P());
    var a := Shed(c.P());
    if pushes == 0 {
    } else {
      PushShedsEnergy(c, s);
      NextIntegralInRange(c, s);
      RunErrorIsBounded(c, Next(c, s), pushes - 1);
      var e := FillError(s.fill, c.target);
      Distribute(a, e * e, SquaredErrors(c, Next(c, s), pushes - 1));
    }
    var t := After(c, s, pushes);
    EnergyIsNonNegative(c.P(), c.Q(), FillError(t.fill, c.target), t.integral - c.Setpoint());
  }

  lemma Distribute(a: real, x: real, y: real)
    ensures a * (x + y) == a * x + a * y && a * 0.0 == 0.0
  {
  }

  lemma NextIntegralInRange(c: Setup, s: State)
    requires c.target > 0.0
    ensures -MAX_INTEGRAL <= Next(c, s).integral <= MAX_INTEGRAL
  {
  }

  // ---------------------------------------------------------------------
  // Pushes refused for want of space
  // ---------------------------------------------------------------------

  // The ratio is computed before the space check, so a refused push moves the
  // integral as well. The fill stays.
  function Refused(c: Setup, s: State): State
    requires c.target > 0.0
  {
    State(s.fill, Clamp(s.integral + FillError(s.fill, c.target)))
  }

  function Refusals(c: Setup, s: State, n: nat): State
    requires c.target > 0.0
    decreases n
  {
    if n == 0 then s else Refusals(c, Refused(c, s), n - 1)
  }

  lemma RefusedPushChangesNothingExactlyWhen(c: Setup, s: State)
    requires c.Valid() && -MAX_INTEGRAL <= s.integral <= MAX_INTEGRAL
    ensures Refused(c, s) == s <==>
            s.fill == c.target
            || (s.fill > c.target && s.integral == MAX_INTEGRAL)
            || (s.fill < c.target && s.integral == -MAX_INTEGRAL)
  {
    hide FillError;
    ErrorSign(s.fill, c.target);
  }

  lemma ErrorSign(fill: real, target: real)
    requires target > 0.0
    ensures FillError(fill, target) > 0.0 <==> fill > target
    ensures FillError(fill, target) < 0.0 <==> fill < target
  {
  }

  // The integral after `n` pushes that find the same error.
  function Wound(integral: real, n: nat, e: real): real {
    Clamp(integral + Times(n, e))
  }

  function Times(n: nat, x: real): real { n as real * x }

  // Refusals in a row wind the integral up by the same error each time, as far as
  // the clamp.
  lemma {:induction false} RefusalsWindUp(c: Setup, s: State, n: nat)
    requires c.Valid() && -MAX_INTEGRAL <= s.integral <= MAX_INTEGRAL
    ensures Refusals(c, s, n) == State(s.fill, Wound(s.integral, n, FillError(s.fill, c.target)))
    decreases n
  {
    hide FillError, Clamp, Wound;
    var e := FillError(s.fill, c.target);
    if n == 0 {
      NotWound(s.integral, e);
    } else {
      RefusalsWindUp(c, Refused(c, s), n - 1);
      WindStep(s.integral, n, e);
    }
  }

  lemma NotWound(i: real, e: real)
    requires -MAX_INTEGRAL <= i <= MAX_INTEGRAL
    ensures Wound(i, 0, e) == i
  {
    NoneOf(e);
  }

  lemma NoneOf(x: real)
    ensures Times(0, x) == 0.0
  {
    Distribute(x, 0.0, 0.0);
  }

  lemma WindStep(i: real, n: nat, e: real)
    requires n > 0 && -MAX_INTEGRAL <= i <= MAX_INTEGRAL
    ensures Wound(Clamp(i + e), n - 1, e) == Wound(i, n, e)
  {
    hide Clamp, Times;
    OneMore(n, e);
    SameSign(n - 1, e);
    ClampTwice(i, e, Times(n - 1, e));
  }

  lemma ClampTwice(i: real, x: real, y: real)
    requires -MAX_INTEGRAL <= i <= MAX_INTEGRAL
    requires (x >= 0.0 && y >= 0.0) || (x <= 0.0 && y <= 0.0)
    ensures Clamp(Clamp(i + x) + y) == Clamp(i + (x + y))
  {
  }

  lemma OneMore(n: nat, e: real)
    requires n > 0
    ensures Times(n, e) == e + Times(n - 1, e)
  {
    Distribute(e, 1.0, (n - 1) as real);
  }

  lemma SameSign(n: nat, e: real)
    ensures e >= 0.0 ==> Times(n, e) >= 0.0
    ensures e <= 0.0 ==> Times(n, e) <= 0.0
  {
    if e >= 0.0 { Scale(e, 0.0, n as real); } else { Scale(n as real, e, 0.0); }
  }

  // What a refusal away from the clamp adds to the energy, which may be either way.
  function WindUp(p: real, q: real, e: real, j: real): real {
    q * (e * ((2.0 - p) * j + (2.0 - p / 2.0) * e))
  }

  lemma {:induction false} RefusedPushEnergy(c: Setup, s: State)
    requires c.Valid() && Unclamped(c, s, 1)
    ensures LoopEnergy(c, Refused(c, s)) ==
            LoopEnergy(c, s) + WindUp(c.P(), c.Q(), FillError(s.fill, c.target), s.integral - c.Setpoint())
  {
    hide Energy, WindUp, Setup.P, Setup.Q, Setup.Setpoint, FillError;
    var e, j := FillError(s.fill, c.target), s.integral - c.Setpoint();
    assert Refused(c, s).integral - c.Setpoint() == j + e;
    WindUpRaw(c.P(), c.Q(), e, j);
  }

  lemma WindUpRaw(p: real, q: real, e: real, j: real)
    ensures Energy(p, q, e, j + e) == Energy(p, q, e, j) + WindUp(p, q, e, j)
  {
  }

  // ---------------------------------------------------------------------
  // Runs that never touch the clamp
  // ---------------------------------------------------------------------

  ghost predicate Unclamped(c: Setup, s: State, pushes: nat)
    requires c.target > 0.0
    decreases pushes
  {
    pushes == 0 ||
    (-MAX_INTEGRAL <= s.integral + FillError(s.fill, c.target) <= MAX_INTEGRAL
     && Unclamped(c, Next(c, s), pushes - 1))
  }

  // What an unclamped push sheds per unit of squared error.
  function SharpRate(c: Setup): real
    requires c.target > 0.0
  {
    c.P() * (2.0 - c.P() - c.Q() / 2.0)
  }

  lemma {:induction false} FreePushEnergy(c: Setup, s: State)
    requires c.Valid() && Unclamped(c, s, 1)
    ensures var e := FillError(s.fill, c.target);
            LoopEnergy(c, Next(c, s)) + SharpRate(c) * (e * e) == LoopEnergy(c, s)
  {
    hide Energy, NextErr, Setup.P, Setup.Q, Setup.Setpoint, FillError, Ratio;
    NextError(c, s);
    var e := FillError(s.fill, c.target);
    FreeStepEnergy(c.P(), c.Q(), e, s.integral - c.Setpoint());
    assert Next(c, s).integral - c.Setpoint() == s.integral - c.Setpoint() + e;
  }

  // Away from the clamp the account is exact, stable or not, whatever the drift:
  // the energy a run has lost is the sharp rate times its squared errors.
  lemma {:induction false} FreeRunEnergy(c: Setup, s: State, pushes: nat)
    requires c.Valid() && Unclamped(c, s, pushes)
    ensures LoopEnergy(c, After(c, s, pushes)) + SharpRate(c) * SquaredErrors(c, s, pushes) == LoopEnergy(c, s)
    decreases pushes
  {
    hide Next, LoopEnergy, SharpRate, FillError;
    Distribute(SharpRate(c), 0.0, 0.0);
    if pushes == 0 {
    } else {
      FreePushEnergy(c, s);
      FreeRunEnergy(c, Next(c, s), pushes - 1);
      var e := FillError(s.fill, c.target);
      Distribute(SharpRate(c), e * e, SquaredErrors(c, Next(c, s), pushes - 1));
    }
  }

  // The sharp bound: p > 0 and p + q/2 < 2 make the squared errors of any
  // unclamped run, of any length, add up to at most H0 / (p(2 - p - q/2)).
  lemma {:induction false} FreeRunErrorIsBounded(c: Setup, s: State, pushes: nat)
    requires c.Valid() && c.P() + c.Q() / 2.0 < 2.0 && Unclamped(c, s, pushes)
    ensures SharpRate(c) > 0.0
    ensures SquaredErrors(c, s, pushes) <= LoopEnergy(c, s) / SharpRate(c)
  {
    hide LoopEnergy, SharpRate, SquaredErrors, Setup.P, Setup.Q, After;
    GainsArePositive(c);
    SharpRateIsPositive(c);
    FreeRunEnergy(c, s, pushes);
    LoopEnergyIsNonNegative(c, After(c, s, pushes));
    AtMostQuotient(SharpRate(c), SquaredErrors(c, s, pushes), LoopEnergy(c, s));
  }

  lemma LoopEnergyIsNonNegative(c: Setup, s: State)
    requires c.Valid() && c.P() + c.Q() / 2.0 < 2.0
    ensures LoopEnergy(c, s) >= 0.0
  {
    hide Energy, Setup.P, Setup.Q, Setup.Setpoint, FillError;
    GainsArePositive(c);
    EnergyIsNonNegative(c.P(), c.Q(), FillError(s.fill, c.target), s.integral - c.Setpoint());
  }

  lemma SharpRateIsPositive(c: Setup)
    requires c.Valid() && c.P() > 0.0 && c.P() + c.Q() / 2.0 < 2.0
    ensures SharpRate(c) > 0.0
  {
    hide Setup.P, Setup.Q;
    var p, y := c.P(), 2.0 - c.P() - c.Q() / 2.0;
    Scale(p, 0.0, y);
    assert SharpRate(c) == p * y;
  }

  lemma AtMostQuotient(a: real, x: real, h: real)
    requires a > 0.0 && a * x <= h
    ensures x <= h / a
  {
    var k := h / a;
    AtMost(a, x, h, k);
  }

  lemma AtMost(a: real, x: real, h: real, k: real)
    requires a > 0.0 && a * x <= h && k * a == h
    ensures x <= k
  {
    if k < x { Scale(a, k, x); }
  }

  // How far the integral may stray from its setpoint on either side.
  function Room(c: Setup): real
    requires c.Valid()
  {
    var z := c.Setpoint();
    if z >= 0.0 then MAX_INTEGRAL - z else MAX_INTEGRAL + z
  }

  // The energy of an integral that far out.
  function Ceiling(c: Setup): real
    requires c.Valid()
  {
    c.Q() * (1.0 - c.P() / 2.0 - c.Q() / 4.0) * (Room(c) * Room(c))
  }

  // Which runs those are: one that starts below the ceiling stays off the clamp
  // for ever.
  lemma {:induction false} LowEnergyNeverClamps(c: Setup, s: State, pushes: nat)
    requires c.Valid() && Correctable(c) && c.P() + c.Q() / 2.0 < 2.0
    requires LoopEnergy(c, s) <= Ceiling(c)
    ensures Unclamped(c, s, pushes)
    decreases pushes
  {
    hide Next, Energy, Setup.P, Setup.Q, Setup.Setpoint, FillError, Setup.Mismatch, Ceiling;
    if pushes == 0 {
    } else {
      LowEnergyPush(c, s);
      FreePushEnergy(c, s);
      GainsArePositive(c);
      SharpRateIsPositive(c);
      var e := FillError(s.fill, c.target);
      SquareIsNonNegative(e);
      LowEnergyNeverClamps(c, Next(c, s), pushes - 1);
    }
  }

  lemma {:induction false} LowEnergyPush(c: Setup, s: State)
    requires c.Valid() && Correctable(c) && c.P() + c.Q() / 2.0 < 2.0
    requires LoopEnergy(c, s) <= Ceiling(c)
    ensures Unclamped(c, s, 1)
  {
    hide Next, Energy, NextErr, Loss, Setup.P, Setup.Q, Setup.Setpoint, FillError, Setup.Mismatch;
    GainsArePositive(c);
    CorrectableMeansReachable(c);
    var p, q, e, j := c.P(), c.Q(), FillError(s.fill, c.target), s.integral - c.Setpoint();
    FreeStepEnergy(p, q, e, j);
    LossIsNonNegative(p, q, e);
    FarEnergy(p, q, NextErr(p, q, e, j + e), j + e);
    var w := 1.0 - p / 2.0 - q / 4.0;
    Scale(q, 0.0, w);
    WithinRoom(q * w, j + e, Room(c));
  }

  lemma LossIsNonNegative(p: real, q: real, e: real)
    requires p > 0.0 && p + q / 2.0 < 2.0
    ensures Loss(p, q, e) >= 0.0
  {
    Scale(p, 0.0, 2.0 - p - q / 2.0);
    SquareIsNonNegative(e);
  }

  lemma FarEnergy(p: real, q: real, e: real, j: real)
    ensures Energy(p, q, e, j) >= q * (1.0 - p / 2.0 - q / 4.0) * (j * j)
  {
    SquareIsNonNegative(e + q / 2.0 * j);
  }

  lemma WithinRoom(a: real, x: real, room: real)
    requires a > 0.0 && room >= 0.0 && a * (x * x) <= a * (room * room)
    ensures -room <= x <= room
  {
    if room * room < x * x { Scale(a, room * room, x * x); }
    if x > room { Scale(room + x, room - x, 0.0); }
    if x < -room { Scale(room - x, room + x, 0.0); }
  }

  // How many of the first `pushes` pushes find the fill off by `eps` or more.
  function OffTarget(c: Setup, s: State, pushes: nat, eps: real): nat
    requires c.target > 0.0
    decreases pushes
  {
    if pushes == 0 then 0
    else
      var e := FillError(s.fill, c.target);
      (if e * e >= eps * eps then 1 else 0) + OffTarget(c, Next(c, s), pushes - 1, eps)
  }

  // What so many errors of `eps` come to.
  function OffTargetCost(eps: real, n: nat): real {
    eps * eps * n as real
  }

  // Convergence: only boundedly many pushes of an endless run are off target.
  lemma {:induction false} OffTargetPushesAreFew(c: Setup, s: State, pushes: nat, eps: real)
    requires c.Valid() && Stable(c) && Correctable(c) && eps > 0.0
    requires -MAX_INTEGRAL <= s.integral <= MAX_INTEGRAL
    ensures Shed(c.P()) * OffTargetCost(eps, OffTarget(c, s, pushes, eps)) <= LoopEnergy(c, s)
  {
    hide Shed, LoopEnergy, Setup.P, FillError, OffTarget, SquaredErrors, OffTargetCost, Next;
    RunErrorIsBounded(c, s, pushes);
    OffTargetCosts(c, s, pushes, eps);
    ScaleBelow(Shed(c.P()), OffTargetCost(eps, OffTarget(c, s, pushes, eps)), SquaredErrors(c, s, pushes),
               LoopEnergy(c, s));
  }

  lemma ScaleBelow(a: real, x: real, y: real, h: real)
    requires a > 0.0 && x <= y && a * y <= h
    ensures a * x <= h
  {
    Scale(a, x, y);
  }

  lemma {:induction false} OffTargetCosts(c: Setup, s: State, pushes: nat, eps: real)
    requires c.target > 0.0
    ensures OffTargetCost(eps, OffTarget(c, s, pushes, eps)) <= SquaredErrors(c, s, pushes)
    decreases pushes
  {
    hide Next, FillError;
    if pushes == 0 {
      Distribute(eps * eps, 0.0, 0.0);
    } else {
      OffTargetCosts(c, Next(c, s), pushes - 1, eps);
      var e := FillError(s.fill, c.target);
      var rest := OffTarget(c, Next(c, s), pushes - 1, eps);
      Distribute(eps * eps, 1.0, rest as real);
      SquareIsNonNegative(e);
    }
  }

  lemma SquareIsNonNegative(x: real)
    ensures x * x >= 0.0
  {
  }

  // ---------------------------------------------------------------------
  // Steady states
  // ---------------------------------------------------------------------

  // Where the loop rests: on target if the drift is within the gain, and off
  // target with the integral at its limit otherwise.
  function Rest(c: Setup): State
    requires c.Valid()
  {
    var z := c.Setpoint();
    if z > MAX_INTEGRAL then State(c.target + c.target * (z - MAX_INTEGRAL) / 1000.0, MAX_INTEGRAL)
    else if z < -MAX_INTEGRAL then State(c.target + c.target * (z + MAX_INTEGRAL) / 1000.0, -MAX_INTEGRAL)
    else State(c.target, z)
  }

  lemma RestsExactlyThere(c: Setup, s: State)
    requires c.Valid() && -MAX_INTEGRAL <= s.integral <= MAX_INTEGRAL
    ensures Next(c, s) == s <==> s == Rest(c)
  {
    hide NextErr, Setup.P, Setup.Setpoint, Setup.Mismatch, FillError, Ratio;
    var z := c.Setpoint();
    var e, t := FillError(s.fill, c.target), Next(c, s);
    GainsArePositive(c);
    NextError(c, s);
    FillFromError(s.fill, t.fill, c.target);
    StillError(c.P(), e, t.integral - z);
    RestError(c);
    FillFromError(s.fill, Rest(c).fill, c.target);
  }

  lemma FillFromError(x: real, y: real, target: real)
    requires target > 0.0
    ensures FillError(x, target) == FillError(y, target) <==> x == y
  {
    Cancel(FillError(x, target), FillError(y, target), target);
  }

  lemma StillError(p: real, e: real, j: real)
    requires p > 0.0
    ensures e == NextErr(p, p / 1000.0, e, j) <==> 1000.0 * e == -j
  {
    Cancel(1000.0 * e + j, 0.0, p / 1000.0);
  }

  lemma RestError(c: Setup)
    requires c.Valid()
    ensures FillError(Rest(c).fill, c.target) ==
            var z := c.Setpoint();
            if z > MAX_INTEGRAL then (z - MAX_INTEGRAL) / 1000.0
            else if z < -MAX_INTEGRAL then (z + MAX_INTEGRAL) / 1000.0 else 0.0
  {
    hide Setup.Setpoint;
    var z := c.Setpoint();
    var x := if z > MAX_INTEGRAL then z - MAX_INTEGRAL else if z < -MAX_INTEGRAL then z + MAX_INTEGRAL else 0.0;
    assert Rest(c).fill - c.target == c.target * x / 1000.0;
    OffsetError(c.target, x);
  }

  lemma OffsetError(target: real, x: real)
    requires target > 0.0
    ensures target * x / 1000.0 / target == x / 1000.0
  {
    Cancel(target * x / 1000.0 / target, x / 1000.0, target);
  }

  // The promise that no constant drift leaves an offset holds exactly while
  // the drift does not exceed the gain.
  lemma SettlesOnTargetExactlyWhenCorrectable(c: Setup)
    requires c.Valid()
    ensures (exists i :: -MAX_INTEGRAL <= i <= MAX_INTEGRAL && Next(c, State(c.target, i)) == State(c.target, i))
            <==> Correctable(c)
  {
    hide Next, Setup.Setpoint, Setup.Mismatch;
    CorrectableMeansReachable(c);
    var z := c.Setpoint();
    if Correctable(c) {
      RestsExactlyThere(c, State(c.target, z));
    }
    forall i | -MAX_INTEGRAL <= i <= MAX_INTEGRAL && Next(c, State(c.target, i)) == State(c.target, i)
      ensures Correctable(c)
    {
      RestsExactlyThere(c, State(c.target, i));
      OffTargetBy(c.target, z);
    }
  }

  lemma OffTargetBy(target: real, z: real)
    requires target > 0.0
    ensures z > MAX_INTEGRAL ==> target + target * (z - MAX_INTEGRAL) / 1000.0 > target
    ensures z < -MAX_INTEGRAL ==> target + target * (z + MAX_INTEGRAL) / 1000.0 < target
  {
    if z > MAX_INTEGRAL { Scale(target, 0.0, z - MAX_INTEGRAL); }
    if z < -MAX_INTEGRAL { Scale(target, z + MAX_INTEGRAL, 0.0); }
  }

  // How far the setpoint lies beyond the integral's limits.
  function Excess(c: Setup): real
    requires c.Valid()
  {
    var z := c.Setpoint();
    if z > MAX_INTEGRAL then z - MAX_INTEGRAL else if z < -MAX_INTEGRAL then -z - MAX_INTEGRAL else 0.0
  }

  // What two pushes in a row then cost in squared errors, at least.
  function PairCost(c: Setup): real
    requires c.Valid()
  {
    var d := c.Q() * Excess(c);
    HalfOf(d, d)
  }

  function HalfOf(x: real, y: real): real { x * y / 2.0 }

  // Beyond the gain, of two pushes in a row one finds the fill off target.
  lemma TwoErrorsInARow(c: Setup, s: State)
    requires c.Valid() && Stable(c)
    ensures var e, f := FillError(s.fill, c.target), FillError(Next(c, s).fill, c.target);
            e * e + f * f >= PairCost(c)
  {
    hide Setup.P, Setup.Q, Setup.Setpoint, FillError, Ratio;
    var p, q, z := c.P(), c.Q(), c.Setpoint();
    var e, f := FillError(s.fill, c.target), FillError(Next(c, s).fill, c.target);
    var j, x := Next(c, s).integral - z, Excess(c);
    GainsArePositive(c);
    NextError(c, s);
    if z > MAX_INTEGRAL {
      PairBound(p, q, e, f, j, x);
    } else if z < -MAX_INTEGRAL {
      Mirror(p, q, e, j);
      PairBound(p, q, -e, -f, -j, x);
    } else {
      Distribute(q, 0.0, 0.0);
      SquareIsNonNegative(e);
      SquareIsNonNegative(f);
    }
  }

  lemma PairBound(p: real, q: real, e: real, f: real, j: real, x: real)
    requires 0.0 < p < 2.0 && q > 0.0 && f == NextErr(p, q, e, j) && j <= -x && x >= 0.0
    ensures e * e + f * f >= q * x * (q * x) / 2.0
  {
    Scale(q, j, -x);
    Scale(q, 0.0, x);
    Negate(x, q);
    AtMostAbs(p - 1.0, e);
    assert (p - 1.0) * e == p * e - e;
    SumOfSquares(e, f, q * x);
  }

  lemma AtMostAbs(a: real, e: real)
    requires -1.0 <= a <= 1.0
    ensures a * e <= if e >= 0.0 then e else -e
  {
    if e >= 0.0 { Scale(e, a, 1.0); } else { Scale(-e, -a, 1.0); }
  }

  lemma SumOfSquares(e: real, f: real, d: real)
    requires d >= 0.0
    requires d <= f + (if e >= 0.0 then e else -e)
    ensures e * e + f * f >= d * d / 2.0
  {
    var a := if e >= 0.0 then e else -e;
    Scale(d, d, f + a);
    Scale(f + a, d, f + a);
    SquareIsNonNegative(f - a);
    assert a * a == e * e;
  }

  // So the squared errors of a run outgrow every bound.
  lemma {:induction false} ErrorsAddUp(c: Setup, s: State, pairs: nat)
    requires c.Valid() && Stable(c)
    ensures SquaredErrors(c, s, 2 * pairs) >= Times(pairs, PairCost(c))
    decreases pairs
  {
    hide Next, FillError, PairCost, Times;
    if pairs == 0 {
      NoneOf(PairCost(c));
    } else {
      var t := Next(c, s);
      TwoErrorsInARow(c, s);
      ErrorsAddUp(c, Next(c, t), pairs - 1);
      OneMore(pairs, PairCost(c));
      TwoPushes(c, s, 2 * pairs);
    }
  }

  lemma TwoPushes(c: Setup, s: State, pushes: nat)
    requires c.target > 0.0 && pushes >= 2
    ensures var e, f := FillError(s.fill, c.target), FillError(Next(c, s).fill, c.target);
            SquaredErrors(c, s, pushes) == e * e + f * f + SquaredErrors(c, Next(c, Next(c, s)), pushes - 2)
  {
    hide Next, FillError;
  }

  lemma PairCostIsPositive(c: Setup)
    requires c.Valid() && !Correctable(c)
    ensures PairCost(c) > 0.0
  {
    hide Setup.Q, Setup.P, Setup.Setpoint, Setup.Mismatch, HalfOf;
    CorrectableMeansReachable(c);
    GainsArePositive(c);
    Scale(c.Q(), 0.0, Excess(c));
    HalfIsPositive(c.Q() * Excess(c), c.Q() * Excess(c));
  }

  lemma HalfIsPositive(x: real, y: real)
    requires x > 0.0 && y > 0.0
    ensures HalfOf(x, y) > 0.0
  {
    Scale(x, 0.0, y);
  }

  ghost predicate ErrorsWithin(c: Setup, s: State, bound: real)
    requires c.target > 0.0
  {
    forall pushes: nat :: SquaredErrors(c, s, pushes) <= bound
  }

  // The bound on squared errors is there exactly while the drift does not exceed
  // the gain, wherever a stable loop starts from.
  lemma ErrorsAreBoundedExactlyWhenCorrectable(c: Setup, s: State)
    requires c.Valid() && Stable(c) && -MAX_INTEGRAL <= s.integral <= MAX_INTEGRAL
    ensures (exists bound :: ErrorsWithin(c, s, bound)) <==> Correctable(c)
  {
    hide Next, LoopEnergy, Shed, Setup.P, Setup.Q, Setup.Setpoint, SquaredErrors, Setup.Mismatch, PairCost;
    if Correctable(c) {
      RunErrorIsBounded(c, s, 0);
      forall pushes: nat ensures SquaredErrors(c, s, pushes) <= LoopEnergy(c, s) / Shed(c.P()) {
        RunErrorIsBounded(c, s, pushes);
        AtMostQuotient(Shed(c.P()), SquaredErrors(c, s, pushes), LoopEnergy(c, s));
      }
      assert ErrorsWithin(c, s, LoopEnergy(c, s) / Shed(c.P()));
    } else {
      PairCostIsPositive(c);
      forall bound ensures !ErrorsWithin(c, s, bound) {
        var n := EnoughOf(PairCost(c), bound);
        ErrorsAddUp(c, s, n);
        assert SquaredErrors(c, s, 2 * n) > bound;
      }
    }
  }

  lemma EnoughOf(g: real, bound: real) returns (n: nat)
    requires g > 0.0
    ensures Times(n, g) > bound
  {
    if bound >= 0.0 {
      var k := bound / g;
      if k < 0.0 { Scale(g, k, 0.0); }
      n := k.Floor + 1;
      Exceeds(g, k, bound, n as real);
    } else {
      n := 0;
      NoneOf(g);
    }
  }

  lemma Exceeds(g: real, k: real, bound: real, n: real)
    requires g > 0.0 && k * g == bound && k < n
    ensures n * g > bound
  {
    Scale(g, k, n);
  }

  // What one push would do without the integral path.
  function NextProportional(c: Setup, fill: real): real
    requires c.target > 0.0
  {
    fill + c.batch * Ratio(c.nominal, c.gain, FillError(fill, c.target), 0.0) - c.drain
  }

  // Why there is an integral: on its own the proportional path rests wherever the
  // gain times the error makes up the drift, so on target only without drift.
  lemma ProportionalRestsOffTarget(c: Setup, fill: real)
    requires c.Valid()
    ensures NextProportional(c, fill) == fill <==> c.gain * FillError(fill, c.target) == c.Mismatch()
    ensures NextProportional(c, c.target) == c.target <==> c.Mismatch() == 0.0
  {
    hide FillError, Setup.Mismatch;
    var flow, e, m := c.batch * c.nominal, FillError(fill, c.target), c.Mismatch();
    Scale(c.batch, 0.0, c.nominal);
    MismatchIs(c);
    Cancel(m, c.gain * e, flow);
    OnTarget(c.target);
    Cancel(m, 0.0, flow);
  }

  lemma MismatchIs(c: Setup)
    requires c.Valid() && c.batch * c.nominal > 0.0
    ensures c.drain == c.batch * c.nominal * (1.0 - c.Mismatch())
  {
    DrainFromMismatch(c.drain, c.batch * c.nominal);
  }

  lemma OnTarget(target: real)
    requires target > 0.0
    ensures FillError(target, target) == 0.0
  {
  }
}
