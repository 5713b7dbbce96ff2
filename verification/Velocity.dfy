/** The speed command of the pursuit controller: a PID regulator with a clamped integral and a
    clamped output, then a limiter with memory for curved stretches, then the approach scaling.
 */
module Velocity {
  import opened RealAlgebra
  import opened Plane
  import opened ArcLength
  import opened Curvature

  // -- The regulator -------------------------------------------------------------------------

  /** The three terms of one evaluation.  The integral's contribution is taken before the
      integral is clamped.
   */
  function Terms(kp: real, ki: real, kd: real, dt: real, integral: real, preError: real, error: real): real
    requires dt != 0.0
  {
    kp * error + ki * (integral + error * dt) + kd * ((error - preError) / dt)
  }

  function PidOutput(kp: real, ki: real, kd: real, dt: real, lo: real, hi: real,
                     integral: real, preError: real, error: real): real
    requires dt != 0.0
  {
    var output := Terms(kp, ki, kd, dt, integral, preError, error);
    if output > hi then hi else if output < lo then lo else output
  }

  /** What the gains do: each one adds its own multiple of the error, of its sum and of its slope,
      and without any there is no output.
   */
  lemma GainsAct(kp: real, ki: real, kd: real, p: real, i: real, d: real,
                 dt: real, integral: real, preError: real, error: real, slope: real)
    requires dt != 0.0 && error - preError == slope * dt
    ensures Terms(0.0, 0.0, 0.0, dt, integral, preError, error) == 0.0
    ensures Terms(kp + p, ki + i, kd + d, dt, integral, preError, error)
         == Terms(kp, ki, kd, dt, integral, preError, error) + p * error + i * (integral + error * dt) + d * slope
  {
    SlopeIs(error - preError, dt, slope);
    GainsAdd(kp, ki, kd, p, i, d, error, integral + error * dt, slope);
  }

  lemma SlopeIs(rise: real, dt: real, slope: real)
    requires dt != 0.0 && rise == slope * dt
    ensures rise / dt == slope
  {
    QuotientIs(rise, dt, slope);
  }

  lemma GainsAdd(kp: real, ki: real, kd: real, p: real, i: real, d: real, e: real, sum: real, slope: real)
    ensures (kp + p) * e + (ki + i) * sum + (kd + d) * slope
         == kp * e + ki * sum + kd * slope + p * e + i * sum + d * slope
    ensures 0.0 * e + 0.0 * sum + 0.0 * slope == 0.0
  {}

  class PID {
    const dt: real
    const max: real
    const min: real
    const kp: real
    const kd: real
    const ki: real
    var preError: real
    var integral: real

    ghost predicate Valid()
      reads this
    {
      dt != 0.0 && min <= max && -1.0 <= integral <= 1.0
    }

    constructor (dt: real, max: real, min: real, kp: real, kd: real, ki: real)
      requires dt != 0.0 && min <= max
      ensures Valid() && preError == 0.0 && integral == 0.0
      ensures this.dt == dt && this.max == max && this.min == min
      ensures this.kp == kp && this.kd == kd && this.ki == ki
    {
      this.dt, this.max, this.min, this.kp, this.kd, this.ki := dt, max, min, kp, kd, ki;
      preError, integral := 0.0, 0.0;
    }

    method Calculate(setPoint: real, pv: real) returns (output: real)
      requires Valid()
      modifies this
      ensures Valid() && min <= output <= max
      ensures output == PidOutput(kp, ki, kd, dt, min, max, old(integral), old(preError), setPoint - pv)
      ensures integral == Clamp(old(integral) + (setPoint - pv) * dt, -1.0, 1.0)
      ensures preError == setPoint - pv
    {
      var error := setPoint - pv;
      var pOut := kp * error;
      integral := integral + error * dt;
      var iOut := ki * integral;
      if integral > 1.0 {
        integral := 1.0;
      } else if integral < -1.0 {
        integral := -1.0;
      }
      var derivative := (error - preError) / dt;
      var dOut := kd * derivative;
      output := pOut + iOut + dOut;
      assert output == Terms(kp, ki, kd, dt, old(integral), old(preError), error);
      hide Terms;
      if output > max {
        output := max;
      } else if output < min {
        output := min;
      }
      preError := error;
    }
  }

  // -- The integral over a run ---------------------------------------------------------------

  /** The regulator's integral after a sequence of errors. */
  function IntegralAfter(dt: real, start: real, errors: seq<real>): (r: real)
    requires -1.0 <= start <= 1.0
    ensures -1.0 <= r <= 1.0
  {
    if errors == [] then start
    else Clamp(IntegralAfter(dt, start, errors[..|errors| - 1]) + errors[|errors| - 1] * dt, -1.0, 1.0)
  }

  /** The same without clamping. */
  function SumAfter(dt: real, start: real, errors: seq<real>): real {
    if errors == [] then start else SumAfter(dt, start, errors[..|errors| - 1]) + errors[|errors| - 1] * dt
  }

  /** All along a run the integral is the plain sum if and only if no partial sum leaves [-1, 1]. */
  lemma {:induction false} IntegralIsSumIff(dt: real, start: real, errors: seq<real>)
    requires -1.0 <= start <= 1.0
    ensures (forall k :: 0 <= k <= |errors| ==>
               IntegralAfter(dt, start, errors[..k]) == SumAfter(dt, start, errors[..k]))
       <==> (forall k :: 0 <= k <= |errors| ==> -1.0 <= SumAfter(dt, start, errors[..k]) <= 1.0)
  {
    if (forall k :: 0 <= k <= |errors| ==> -1.0 <= SumAfter(dt, start, errors[..k]) <= 1.0) {
      forall k | 0 <= k <= |errors|
        ensures IntegralAfter(dt, start, errors[..k]) == SumAfter(dt, start, errors[..k])
      {
        InsideIsSum(dt, start, errors, k);
      }
    }
  }

  lemma {:induction false} InsideIsSum(dt: real, start: real, errors: seq<real>, k: nat)
    requires -1.0 <= start <= 1.0 && k <= |errors|
    requires forall j :: 0 <= j <= |errors| ==> -1.0 <= SumAfter(dt, start, errors[..j]) <= 1.0
    ensures IntegralAfter(dt, start, errors[..k]) == SumAfter(dt, start, errors[..k])
  {
    if k > 0 {
      InsideIsSum(dt, start, errors, k - 1);
      assert errors[..k][..k - 1] == errors[..k - 1];
      assert -1.0 <= SumAfter(dt, start, errors[..k]) <= 1.0;
    }
  }

  /** The same error for k periods. */
  function Held(error: real, k: nat): (es: seq<real>)
    ensures |es| == k && forall j :: 0 <= j < k ==> es[j] == error
  {
    seq(k, _ => error)
  }

  function Multiple(k: nat, step: real): real {
    k as real * step
  }

  lemma {:induction false} SumOfHeld(dt: real, error: real, k: nat, step: real)
    requires step == error * dt && -1.0 <= Multiple(k, step) <= 1.0
    ensures IntegralAfter(dt, 0.0, Held(error, k)) == Multiple(k, step)
    decreases k
  {
    if k > 0 {
      var es := Held(error, k);
      OneStepLess(k, step);
      assert es[|es| - 1] * dt == step;
      assert es[..|es| - 1] == Held(error, k - 1);
      hide Held, Multiple;
      SumOfHeld(dt, error, k - 1, step);
    } else {
      assert Multiple(0, step) == 0.0;
    }
  }

  lemma OneStepLess(k: nat, step: real)
    requires k > 0 && -1.0 <= Multiple(k, step) <= 1.0
    ensures Multiple(k, step) == Multiple(k - 1, step) + step
    ensures -1.0 <= Multiple(k - 1, step) <= 1.0
  {
    var m := (k - 1) as real;
    if step >= 0.0 {
      MulNonNegative(m, step);
    } else {
      MulNonNegative(m, -step);
      assert m * -step == -(m * step);
    }
  }

  /** After a reset, a constant error, from its second period on and while its sum is within
      [-1, 1], has the output kp times the error plus ki times its sum so far, within the bounds:
      the derivative has died away.
   */
  lemma ConstantError(kp: real, ki: real, kd: real, dt: real, lo: real, hi: real, error: real, k: nat, step: real)
    requires dt != 0.0 && lo <= hi && k > 0 && step == error * dt && -1.0 <= Multiple(k, step) <= 1.0
    ensures PidOutput(kp, ki, kd, dt, lo, hi, IntegralAfter(dt, 0.0, Held(error, k)), Held(error, k)[k - 1], error)
         == Clamp(kp * error + ki * Multiple(k + 1, step), lo, hi)
  {
    hide IntegralAfter, Multiple, Terms;
    SumOfHeld(dt, error, k, step);
    NextMultiple(k, step);
    SteadyTerms(kp, ki, kd, dt, Multiple(k, step), error, Multiple(k + 1, step));
  }

  lemma NextMultiple(k: nat, step: real)
    ensures Multiple(k + 1, step) == Multiple(k, step) + step
  {}

  lemma SteadyTerms(kp: real, ki: real, kd: real, dt: real, sum: real, error: real, total: real)
    requires dt != 0.0 && total == sum + error * dt
    ensures Terms(kp, ki, kd, dt, sum, error, error) == kp * error + ki * total
  {
    SlopeIs(error - error, dt, 0.0);
    assert kd * 0.0 == 0.0;
  }

  // -- The limiters --------------------------------------------------------------------------

  datatype Limits = Limits(
    curvatureForwardDist: real,
    curvatureBackwardDist: real,
    curvatureMin: real,
    curvatureMax: real,
    reductionRatioAtHighCurvature: real,
    maxRate: real,
    controlDuration: real,
    minApproachVelocity: real,
    approachDistance: real)

  /** The largest change of the limited velocity in one control period. */
  function Slew(l: Limits): real {
    l.maxRate * l.controlDuration
  }

  ghost predicate Sensible(l: Limits) {
    Slew(l) >= 0.0 && l.minApproachVelocity >= 0.0
  }

  function ReductionRatio(l: Limits, curvature: real): real
    requires curvature > l.curvatureMin
  {
    if curvature > l.curvatureMax then l.reductionRatioAtHighCurvature
    else 1.0 - (curvature - l.curvatureMin) / (l.curvatureMax - l.curvatureMin)
               * (1.0 - l.reductionRatioAtHighCurvature)
  }

  /** The velocity a curvature above the lower bound asks for. */
  function Reduced(l: Limits, curvature: real, velocity: real): real
    requires curvature > l.curvatureMin
  {
    velocity * ReductionRatio(l, curvature)
  }

  /** The change that k control periods allow. */
  function Slews(l: Limits, k: nat): real {
    k as real * Slew(l)
  }

  lemma SlewsAdd(l: Limits, k: nat)
    ensures Slews(l, 0) == 0.0 && Slews(l, k + 1) == Slews(l, k) + Slew(l)
    ensures Slew(l) >= 0.0 ==> Slews(l, k) >= 0.0
  {
    hide Slew;
    if Slew(l) >= 0.0 {
      MulNonNegative(k as real, Slew(l));
    }
  }

  /** The velocity after the curvature limit, which is also what the limiter remembers. */
  function Limited(l: Limits, last: real, curvature: real, velocity: real): real {
    var scaled := if curvature > l.curvatureMin
      then last + Clamp(Reduced(l, curvature, velocity) - last, -Slew(l), Slew(l))
      else velocity;
    Min(velocity, Max(scaled, 2.0 * l.minApproachVelocity))
  }

  /** On a straight path the limiter does nothing, whatever it remembers. */
  lemma StraightUnlimited(l: Limits, last: real, velocity: real, line: Line, path: seq<Pose>, lookahead: Pose,
                          hypot: Hypot, curvature: real)
    requires l.curvatureMin >= 0.000000001
    requires HasCurvature(path, lookahead, l.curvatureForwardDist, l.curvatureBackwardDist, hypot, curvature)
    requires IsLine(line) && OnLine(line, lookahead.position)
    requires forall k :: 0 <= k < |path| ==> OnLine(line, path[k].position)
    ensures Limited(l, last, curvature, velocity) == velocity
  {
    hide HasCurvature, OnLine, IsLine;
    StraightCurvature(line, path, lookahead, l.curvatureForwardDist, l.curvatureBackwardDist, hypot, curvature);
  }

  /** The limiter brakes no further than to twice the approach velocity. */
  lemma LimitedFloor(l: Limits, last: real, curvature: real, velocity: real)
    ensures Min(velocity, 2.0 * l.minApproachVelocity) <= Limited(l, last, curvature, velocity) <= velocity
  {
    hide Reduced, Slew, Clamp;
  }

  /** In between it falls in proportion: the reduction is to the full one as the way from the lower
      bound is to the way between the bounds.
   */
  lemma RatioIsAffine(l: Limits, curvature: real)
    requires l.curvatureMin < curvature <= l.curvatureMax
    ensures (1.0 - ReductionRatio(l, curvature)) * (l.curvatureMax - l.curvatureMin)
         == (curvature - l.curvatureMin) * (1.0 - l.reductionRatioAtHighCurvature)
  {
    var span, way := l.curvatureMax - l.curvatureMin, curvature - l.curvatureMin;
    var drop := 1.0 - l.reductionRatioAtHighCurvature;
    Quotient(way, span);
    var f := way / span;
    assert 1.0 - ReductionRatio(l, curvature) == f * drop;
    assert (f * drop) * span == (span * f) * drop;
  }

  /** Between the two curvature bounds the ratio falls from 1 to its value at high curvature. */
  lemma RatioBetween(l: Limits, curvature: real)
    requires curvature > l.curvatureMin && l.reductionRatioAtHighCurvature <= 1.0
    ensures l.reductionRatioAtHighCurvature <= ReductionRatio(l, curvature) <= 1.0
    ensures curvature >= l.curvatureMax > l.curvatureMin ==>
              ReductionRatio(l, curvature) == l.reductionRatioAtHighCurvature
  {
    if curvature <= l.curvatureMax {
      var span, part := l.curvatureMax - l.curvatureMin, curvature - l.curvatureMin;
      var f, drop := part / span, 1.0 - l.reductionRatioAtHighCurvature;
      Quotient(part, span);
      SignOf(span, f);
      SignOf(span, f - 1.0);
      MulDifference(span, f, 1.0);
      MulMonotone(f, 1.0, drop);
      MulNonNegative(f, drop);
      if curvature == l.curvatureMax {
        QuotientIs(part, span, 1.0);
      }
    }
  }

  /** More curvature never gives a larger ratio. */
  lemma RatioFalls(l: Limits, c1: real, c2: real)
    requires l.curvatureMin < c1 <= c2 && l.reductionRatioAtHighCurvature <= 1.0
    ensures ReductionRatio(l, c2) <= ReductionRatio(l, c1)
  {
    RatioBetween(l, c1);
    RatioBetween(l, c2);
    if c2 <= l.curvatureMax {
      var span, drop := l.curvatureMax - l.curvatureMin, 1.0 - l.reductionRatioAtHighCurvature;
      var f1, f2 := (c1 - l.curvatureMin) / span, (c2 - l.curvatureMin) / span;
      Quotient(c1 - l.curvatureMin, span);
      Quotient(c2 - l.curvatureMin, span);
      MulDifference(span, f2, f1);
      SignOf(span, f2 - f1);
      MulMonotone(f1, f2, drop);
    }
  }

  /** With the path nearly used up, the velocity is scaled by the distance to its last pose. */
  function ApproachFactor(l: Limits, remaining: real, distanceToLast: real): real
    requires remaining >= 0.0
  {
    if remaining < l.approachDistance then distanceToLast / l.approachDistance else 1.0
  }

  function ToLast(path: seq<Pose>, hypot: Hypot): real
    requires path != []
  {
    hypot(path[|path| - 1].position.x, path[|path| - 1].position.y)
  }

  function Approached(l: Limits, factor: real, velocity: real): real {
    Min(velocity, if velocity * factor < l.minApproachVelocity then l.minApproachVelocity else velocity * factor)
  }

  /** The distance to the end of the path is that of its last pose from the robot. */
  lemma ToLastIsDistance(path: seq<Pose>, hypot: Hypot, x: real, y: real)
    requires IsHypot(hypot) && path != []
    requires path[|path| - 1].position.x == x && path[|path| - 1].position.y == y
    ensures ToLast(path, hypot) >= 0.0 && ToLast(path, hypot) * ToLast(path, hypot) == x * x + y * y
  {}

  /** On a path shorter than the approach distance the velocity is in the proportion of the last
      pose's distance to the approach distance, unless that is below the approach velocity; it is
      left alone when the last pose is at the approach distance.
   */
  lemma ApproachIsProportional(l: Limits, remaining: real, distanceToLast: real, velocity: real)
    requires 0.0 <= remaining < l.approachDistance && distanceToLast >= 0.0 && velocity >= 0.0
    ensures var f := ApproachFactor(l, remaining, distanceToLast);
      && f >= 0.0 && f * l.approachDistance == distanceToLast
      && (f == 1.0 <==> distanceToLast == l.approachDistance)
      && (f <= 1.0 && velocity * f >= l.minApproachVelocity ==>
            Approached(l, f, velocity) == velocity * f
            && Approached(l, f, velocity) * l.approachDistance == velocity * distanceToLast)
  {
    var f, d := ApproachFactor(l, remaining, distanceToLast), l.approachDistance;
    Quotient(distanceToLast, d);
    SignOf(d, f);
    if distanceToLast == d {
      QuotientIs(distanceToLast, d, 1.0);
    }
    if f <= 1.0 {
      MulMonotone(f, 1.0, velocity);
    }
    assert (velocity * f) * d == velocity * (f * d);
  }

  /** The heading is off by more than the threshold, to either side. */
  predicate Beyond(heading: real, threshold: real) {
    heading > threshold || heading < -threshold
  }

  class VelocityController {
    const limits: Limits
    const movePid: PID
    const useRotateToHeading: bool
    const useRotateToHeadingThreshold: real
    var lastVelocityScalingFactor: real

    ghost predicate Valid()
      reads this, movePid
    {
      movePid.Valid() && Sensible(limits)
    }

    constructor (limits: Limits, movePid: PID, useRotateToHeading: bool, useRotateToHeadingThreshold: real)
      requires Sensible(limits) && movePid.Valid()
      ensures Valid() && this.limits == limits && this.movePid == movePid && lastVelocityScalingFactor == 0.0
      ensures this.useRotateToHeading == useRotateToHeading
      ensures this.useRotateToHeadingThreshold == useRotateToHeadingThreshold
    {
      this.limits, this.movePid := limits, movePid;
      this.useRotateToHeading, this.useRotateToHeadingThreshold := useRotateToHeading, useRotateToHeadingThreshold;
      lastVelocityScalingFactor := 0.0;
    }

    method ApplyCurvatureLimitation(path: seq<Pose>, lookahead: Pose, velocity: real, hypot: Hypot)
      returns (linearVel: real, ghost curvature: real)
      requires Sensible(limits) && IsHypot(hypot)
      modifies `lastVelocityScalingFactor
      ensures HasCurvature(path, lookahead, limits.curvatureForwardDist, limits.curvatureBackwardDist, hypot, curvature)
      ensures linearVel == Limited(limits, old(lastVelocityScalingFactor), curvature, velocity)
      ensures lastVelocityScalingFactor == linearVel
    {
      hide IsHypot, HasCurvature;
      var bend := CalculateCurvature(path, lookahead, limits.curvatureForwardDist, limits.curvatureBackwardDist, hypot);
      curvature := bend;
      linearVel := LimitVelocity(bend, velocity);
    }

    /** The limitation by a given curvature. */
    method LimitVelocity(curvature: real, velocity: real) returns (linearVel: real)
      requires Sensible(limits)
      modifies `lastVelocityScalingFactor
      ensures linearVel == Limited(limits, old(lastVelocityScalingFactor), curvature, velocity)
      ensures lastVelocityScalingFactor == linearVel
    {
      var l := limits;
      var scaledLinearVel := velocity;
      hide Slew;
      if curvature > l.curvatureMin {
        var reductionRatio := 1.0;
        if curvature > l.curvatureMax {
          reductionRatio := l.reductionRatioAtHighCurvature;
        } else {
          reductionRatio := 1.0 - (curvature - l.curvatureMin) / (l.curvatureMax - l.curvatureMin)
                                  * (1.0 - l.reductionRatioAtHighCurvature);
        }
        assert reductionRatio == ReductionRatio(l, curvature);
        hide ReductionRatio;
        var targetScaledVel := velocity * reductionRatio;
        assert targetScaledVel == Reduced(l, curvature, velocity);
        hide Reduced;
        scaledLinearVel := lastVelocityScalingFactor
          + Clamp(targetScaledVel - lastVelocityScalingFactor, -Slew(l), Slew(l));
      }
      scaledLinearVel := Max(scaledLinearVel, 2.0 * l.minApproachVelocity);
      linearVel := Min(velocity, scaledLinearVel);
      lastVelocityScalingFactor := linearVel;
    }

    method ApplyApproachVelocityScaling(path: seq<Pose>, velocity: real, hypot: Hypot)
      returns (linearVel: real, ghost remaining: real)
      requires IsHypot(hypot) && path != []
      ensures HasLength(hypot, path, remaining) && remaining >= 0.0
      ensures linearVel == Approached(limits, ApproachFactor(limits, remaining, ToLast(path, hypot)), velocity)
      ensures Min(velocity, limits.minApproachVelocity) <= linearVel <= velocity
      ensures remaining >= limits.approachDistance ==> linearVel == velocity
    {
      var cum := CalculateCumulativeDistances(path, hypot);
      var length := cum[|cum| - 1];
      Nondecreasing(hypot, path, cum, 0, |cum| - 1);
      remaining := length;
      hide IsHypot, IsCumulative;
      var approachVel := velocity;
      var scaling := ApproachFactor(limits, length, ToLast(path, hypot));
      var unboundedVel := approachVel * scaling;
      if unboundedVel < limits.minApproachVelocity {
        approachVel := limits.minApproachVelocity;
      } else {
        approachVel := approachVel * scaling;
      }
      linearVel := Min(velocity, approachVel);
    }

    /** What one cycle works with: the distance to the carrot, unless the robot is to turn first;
        the curvature of the plan there; the plan's length and the distance to its end.
     */
    ghost predicate IsInput(plan: seq<Pose>, carrot: Pose, hypot: Hypot, i: Input)
      requires plan != []
    {
      && i.distance == (if useRotateToHeading && Beyond(plan[|plan| - 1].heading, useRotateToHeadingThreshold)
                        then 0.0 else hypot(carrot.position.x, carrot.position.y))
      && HasCurvature(plan, carrot, limits.curvatureForwardDist, limits.curvatureBackwardDist, hypot, i.curvature)
      && HasLength(hypot, plan, i.remaining) && i.remaining >= 0.0 && i.distanceToLast == ToLast(plan, hypot)
    }

    predicate TurnsFirst(plan: seq<Pose>)
      requires plan != []
    {
      useRotateToHeading && Abs(plan[|plan| - 1].heading) > useRotateToHeadingThreshold
    }

    /** The speed part of one control cycle. */
    method ComputeLinearVelocity(plan: seq<Pose>, carrot: Pose, hypot: Hypot)
      returns (linearVel: real, ghost i: Input)
      requires Valid() && IsHypot(hypot) && plan != []
      modifies this`lastVelocityScalingFactor, movePid
      ensures Valid() && IsInput(plan, carrot, hypot, i)
      ensures var o := Cycle(limits, Gains(movePid.dt, movePid.max, movePid.min, movePid.kp, movePid.kd, movePid.ki),
                             old(Memory(movePid.integral, movePid.preError, lastVelocityScalingFactor)), i);
        && linearVel == o.final
        && Memory(movePid.integral, movePid.preError, lastVelocityScalingFactor) == o.memory
    {
      hide PidOutput, Limited, Approached, HasCurvature, HasLength, IsHypot;
      var linDist := hypot(carrot.position.x, carrot.position.y);
      if TurnsFirst(plan) {
        linDist := 0.0;
      }
      linearVel := movePid.Calculate(linDist, 0.0);
      ghost var curvature, remaining;
      linearVel, curvature := ApplyCurvatureLimitation(plan, carrot, linearVel, hypot);
      linearVel, remaining := ApplyApproachVelocityScaling(plan, linearVel, hypot);
      i := Input(linDist, curvature, remaining, ToLast(plan, hypot));
    }
  }

  // -- Whole runs ----------------------------------------------------------------------------

  datatype Gains = Gains(dt: real, max: real, min: real, kp: real, kd: real, ki: real)

  datatype Memory = Memory(integral: real, preError: real, last: real)

  datatype Input = Input(distance: real, curvature: real, remaining: real, distanceToLast: real)

  datatype Outcome = Outcome(regulated: real, limited: real, final: real, memory: Memory)

  function Cycle(l: Limits, g: Gains, m: Memory, i: Input): Outcome
    requires g.dt != 0.0 && i.remaining >= 0.0
  {
    var error := i.distance - 0.0;
    var regulated := PidOutput(g.kp, g.ki, g.kd, g.dt, g.min, g.max, m.integral, m.preError, error);
    var limited := Limited(l, m.last, i.curvature, regulated);
    var final := Approached(l, ApproachFactor(l, i.remaining, i.distanceToLast), limited);
    Outcome(regulated, limited, final, Memory(Clamp(m.integral + error * g.dt, -1.0, 1.0), error, limited))
  }

  ghost predicate Inputs(ins: seq<Input>) {
    forall k :: 0 <= k < |ins| ==> ins[k].remaining >= 0.0
  }

  function Outcomes(l: Limits, g: Gains, m: Memory, ins: seq<Input>): (os: seq<Outcome>)
    requires g.dt != 0.0 && Inputs(ins)
    ensures |os| == |ins|
    decreases |ins|
  {
    if ins == [] then [] else
    var o := Cycle(l, g, m, ins[0]);
    [o] + Outcomes(l, g, o.memory, ins[1..])
  }

  ghost predicate WithinBounds(g: Gains, o: Outcome) {
    && g.min <= o.final <= o.limited <= o.regulated <= g.max
    && -1.0 <= o.memory.integral <= 1.0
  }

  lemma CycleWithinBounds(l: Limits, g: Gains, m: Memory, i: Input)
    requires g.dt != 0.0 && g.min <= g.max && i.remaining >= 0.0
    requires Sensible(l) && g.min <= l.minApproachVelocity
    ensures WithinBounds(g, Cycle(l, g, m, i))
  {
    RegulatedWithin(g, m, i.distance - 0.0);
    hide PidOutput, Reduced, Slew, ApproachFactor;
  }

  lemma RegulatedWithin(g: Gains, m: Memory, error: real)
    requires g.dt != 0.0 && g.min <= g.max
    ensures g.min <= PidOutput(g.kp, g.ki, g.kd, g.dt, g.min, g.max, m.integral, m.preError, error) <= g.max
  {}

  /** Over every run each commanded velocity lies within the regulator's bounds and never above
      what the regulator asked for, and the integral never winds up.
   */
  lemma {:induction false} EveryOutcomeWithinBounds(l: Limits, g: Gains, m: Memory, ins: seq<Input>, k: nat)
    requires g.dt != 0.0 && g.min <= g.max && Inputs(ins) && k < |ins|
    requires Sensible(l) && g.min <= l.minApproachVelocity
    ensures WithinBounds(g, Outcomes(l, g, m, ins)[k])
    decreases |ins|
  {
    var o := Cycle(l, g, m, ins[0]);
    if k == 0 {
      CycleWithinBounds(l, g, m, ins[0]);
    } else {
      EveryOutcomeWithinBounds(l, g, o.memory, ins[1..], k - 1);
    }
  }

  ghost predicate Curved(l: Limits, ins: seq<Input>) {
    forall k :: 0 <= k < |ins| ==> ins[k].curvature > l.curvatureMin
  }

  /** One curved step changes the limited velocity by at most the slew, except that it may be
      raised to twice the approach velocity and lowered to what the regulator asks for.
   */
  lemma SlewLimited(l: Limits, last: real, curvature: real, velocity: real)
    requires Sensible(l) && curvature > l.curvatureMin
    ensures Limited(l, last, curvature, velocity)
         <= Max(last + l.maxRate * l.controlDuration, 2.0 * l.minApproachVelocity)
    ensures Limited(l, last, curvature, velocity) >= Min(velocity, last - l.maxRate * l.controlDuration)
  {
    SlewIs(l);
    hide Reduced, Slew;
  }

  lemma SlewIs(l: Limits)
    ensures Slew(l) == l.maxRate * l.controlDuration
  {}

  /** On a curved stretch of k steps the velocity grows by at most k slews above where it began. */
  lemma {:induction false} CurvedGrowth(l: Limits, g: Gains, m: Memory, ins: seq<Input>, k: nat)
    requires g.dt != 0.0 && Inputs(ins) && Curved(l, ins) && k < |ins| && Sensible(l)
    ensures Outcomes(l, g, m, ins)[k].limited <= Max(m.last, 2.0 * l.minApproachVelocity) + Slews(l, k + 1)
    decreases |ins|
  {
    hide Limited, PidOutput, Terms, Approached, ApproachFactor, Slew, Clamp;
    var o := Cycle(l, g, m, ins[0]);
    SlewLimited(l, m.last, ins[0].curvature, o.regulated);
    SlewIs(l);
    SlewsAdd(l, k);
    hide Slews;
    if k > 0 {
      CurvedGrowth(l, g, o.memory, ins[1..], k - 1);
    }
  }

  // -- Settling ------------------------------------------------------------------------------

  /** The limiter repeated with one curvature and one requested velocity. */
  function Repeated(l: Limits, last: real, curvature: real, velocity: real, k: nat): real {
    if k == 0 then last else Limited(l, Repeated(l, last, curvature, velocity, k - 1), curvature, velocity)
  }

  /** The gap to the reduced velocity closes by exactly one slew each step, until it is closed. */
  lemma {:induction false} GapCloses(l: Limits, last: real, curvature: real, velocity: real, k: nat)
    requires Sensible(l) && curvature > l.curvatureMin
    requires 2.0 * l.minApproachVelocity <= Reduced(l, curvature, velocity) <= velocity
    requires 2.0 * l.minApproachVelocity <= last <= velocity
    ensures 2.0 * l.minApproachVelocity <= Repeated(l, last, curvature, velocity, k) <= velocity
    ensures Abs(Repeated(l, last, curvature, velocity, k) - Reduced(l, curvature, velocity))
         == Max(0.0, Abs(last - Reduced(l, curvature, velocity)) - Slews(l, k))
  {
    hide Slew, Slews, Limited, Reduced, Clamp;
    var target, slew := Reduced(l, curvature, velocity), Slew(l);
    SlewIs(l);
    if k == 0 {
      SlewsAdd(l, 0);
    } else {
      GapCloses(l, last, curvature, velocity, k - 1);
      var v := Repeated(l, last, curvature, velocity, k - 1);
      TowardsTarget(l, v, curvature, velocity);
      OneGap(target, v, slew);
      SlewsAdd(l, k - 1);
      assert Repeated(l, last, curvature, velocity, k) == v + Clamp(target - v, -slew, slew);
    }
  }

  /** While the target and the velocity lie in between, the limiter only applies the slew. */
  lemma TowardsTarget(l: Limits, v: real, curvature: real, velocity: real)
    requires Sensible(l) && curvature > l.curvatureMin
    requires 2.0 * l.minApproachVelocity <= Reduced(l, curvature, velocity) <= velocity
    requires 2.0 * l.minApproachVelocity <= v <= velocity
    ensures var slew := l.maxRate * l.controlDuration;
      Limited(l, v, curvature, velocity) == v + Clamp(Reduced(l, curvature, velocity) - v, -slew, slew)
    ensures 2.0 * l.minApproachVelocity <= Limited(l, v, curvature, velocity) <= velocity
  {
    SlewIs(l);
    hide Reduced, Slew;
  }

  lemma OneGap(target: real, v: real, slew: real)
    requires slew >= 0.0
    ensures Abs(v + Clamp(target - v, -slew, slew) - target) == Max(0.0, Abs(v - target) - slew)
  {}
}
