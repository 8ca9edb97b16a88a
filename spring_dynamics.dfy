/** Value-level model of the damped spring solver (INTUSpringSolver.c).

    The solver integrates the damped harmonic oscillator
        position' = velocity
        velocity' = -(k/m) * position - (b/m) * velocity
    with fourth-order Runge-Kutta steps of a fixed length, and blends the
    last two fixed-step states to answer for the exact time asked for.
    The functions here state, over unbounded reals, what one step, a run
    of steps, the blend, the step count and the convergence test compute;
    the imperative solver in module SpringSolver is proved against them. */
module SpringDynamics {
  import opened Vectors

  /** kINTUSolverDt: the fixed integration step, in seconds. */
  const SolverDt: real := 0.001

  /** kINTUThresholdFactor: the fraction of the initial displacement's norm
      used as the convergence scale. */
  const ThresholdFactor: real := 0.0001

  /** Position and velocity of the mass at one instant. */
  datatype Kinematics = Kinematics(position: seq<real>, velocity: seq<real>)
  {
    ghost predicate WellFormed(n: nat) { |position| == n && |velocity| == n }
  }

  /** A time derivative of a Kinematics: (dposition/dt, dvelocity/dt). */
  datatype Slope = Slope(dp: seq<real>, dv: seq<real>)

  /** The result of one Runge-Kutta step: the new state and the combined
      acceleration estimate that the solver keeps for its convergence test. */
  datatype StepResult = StepResult(next: Kinematics, acceleration: seq<real>)

  /** What the fixed-step loop of an advance works on: the state before the
      latest step, the state after it, and the cached acceleration. */
  datatype LoopState = LoopState(previous: Kinematics, current: Kinematics, acceleration: seq<real>)
  {
    ghost predicate WellFormed(n: nat) {
      previous.WellFormed(n) && current.WellFormed(n) && |acceleration| == n
    }
  }

  /** The three convergence thresholds of a context. */
  datatype Thresholds = Thresholds(position: real, velocity: real, acceleration: real)

  /** The spring equation's right-hand side for one component. */
  function ComponentAcceleration(k: real, b: real, m: real, x: real, u: real): real
    requires m != 0.0
  {
    -(k / m) * x - (b / m) * u
  }

  /** The right-hand side of the spring equation: the acceleration of a mass
      m on a spring of stiffness k with damping b, at position p moving with
      velocity v. It does not depend on time. */
  function SpringAcceleration(k: real, b: real, m: real, p: seq<real>, v: seq<real>): (a: seq<real>)
    requires |p| == |v| && m != 0.0
    ensures |a| == |p|
  {
    seq(|p|, i requires 0 <= i < |p| => ComponentAcceleration(k, b, m, p[i], v[i]))
  }

  /** x + h * dx, componentwise: x moved for time h along dx. */
  function AdvancedBy(x: seq<real>, h: real, dx: seq<real>): (r: seq<real>)
    requires |x| == |dx|
    ensures |r| == |x|
  {
    seq(|x|, i requires 0 <= i < |x| => x[i] + h * dx[i])
  }

  /** The derivative of the state (p, v): velocity and spring acceleration. */
  function SlopeAt(k: real, b: real, m: real, p: seq<real>, v: seq<real>): (s: Slope)
    requires |p| == |v| && m != 0.0
    ensures |s.dp| == |p| && |s.dv| == |p|
  {
    Slope(v, SpringAcceleration(k, b, m, p, v))
  }

  /** The derivative at the state reached from (p, v) by following slope d
      for time h: one trial evaluation of a Runge-Kutta step. */
  function SlopeAfter(k: real, b: real, m: real, p: seq<real>, v: seq<real>, h: real, d: Slope): (s: Slope)
    requires |p| == |v| == |d.dp| == |d.dv| && m != 0.0
    ensures |s.dp| == |p| && |s.dv| == |p|
  {
    SlopeAt(k, b, m, AdvancedBy(p, h, d.dp), AdvancedBy(v, h, d.dv))
  }

  /** The Runge-Kutta weighting (a + 2b + 2c + d) / 6, componentwise. */
  function WeightedSlope(a: seq<real>, b: seq<real>, c: seq<real>, d: seq<real>): (r: seq<real>)
    requires |a| == |b| == |c| == |d|
    ensures |r| == |a|
  {
    seq(|a|, i requires 0 <= i < |a| => (a[i] + 2.0 * b[i] + 2.0 * c[i] + d[i]) / 6.0)
  }

  /** One component of the slope at the point reached from (x, u) by
      following the slope (dx, du) for time h. */
  function ComponentSlopeAfter(k: real, b: real, m: real, x: real, u: real, h: real, dx: real, du: real): (real, real)
    requires m != 0.0
  {
    (u + h * du, ComponentAcceleration(k, b, m, x + h * dx, u + h * du))
  }

  /** The combined slope of a classical fourth-order Runge-Kutta step of
      length dt for one component at position x with velocity u: the slope
      at the start, two trial slopes at the half step and one at the full
      step, weighted (a + 2b + 2c + d) / 6. The spring equation does not
      couple components, so the combined slope of the whole state is this
      slope taken componentwise (lemma Rk4SlopeByStages). */
  function ComponentSlope(k: real, b: real, m: real, x: real, u: real, dt: real): (real, real)
    requires m != 0.0
  {
    var sa := (u, ComponentAcceleration(k, b, m, x, u));
    var sb := ComponentSlopeAfter(k, b, m, x, u, dt * 0.5, sa.0, sa.1);
    var sc := ComponentSlopeAfter(k, b, m, x, u, dt * 0.5, sb.0, sb.1);
    var sd := ComponentSlopeAfter(k, b, m, x, u, dt, sc.0, sc.1);
    ((sa.0 + 2.0 * sb.0 + 2.0 * sc.0 + sd.0) / 6.0, (sa.1 + 2.0 * sb.1 + 2.0 * sc.1 + sd.1) / 6.0)
  }

  /** The combined Runge-Kutta slope of a step of length dt from (p, v). */
  function Rk4Slope(k: real, b: real, m: real, p: seq<real>, v: seq<real>, dt: real): (r: Slope)
    requires |p| == |v| && m != 0.0
    ensures |r.dp| == |p| && |r.dv| == |p|
  {
    Slope(seq(|p|, i requires 0 <= i < |p| => ComponentSlope(k, b, m, p[i], v[i], dt).0),
          seq(|p|, i requires 0 <= i < |p| => ComponentSlope(k, b, m, p[i], v[i], dt).1))
  }

  /** One Runge-Kutta step of length dt from (p, v): each component moved
      for time dt along its combined slope, and the combined acceleration. */
  function Rk4Step(k: real, b: real, m: real, p: seq<real>, v: seq<real>, dt: real): (r: StepResult)
    requires |p| == |v| && m != 0.0
    ensures r.next.WellFormed(|p|) && |r.acceleration| == |p|
  {
    StepResult(Kinematics(seq(|p|, i requires 0 <= i < |p| => p[i] + dt * ComponentSlope(k, b, m, p[i], v[i], dt).0),
                          seq(|p|, i requires 0 <= i < |p| => v[i] + dt * ComponentSlope(k, b, m, p[i], v[i], dt).1)),
               seq(|p|, i requires 0 <= i < |p| => ComponentSlope(k, b, m, p[i], v[i], dt).1))
  }

  /** The loop state an advance starts from: no step taken yet, so the
      previous and the current state are both the context's state. */
  function Start(state: Kinematics, acceleration: seq<real>): LoopState
  {
    LoopState(state, state, acceleration)
  }

  /** The loop state after n passes of the fixed-step loop from s. */
  function Run(k: real, b: real, m: real, s: LoopState, n: nat): (r: LoopState)
    requires m != 0.0 && s.WellFormed(|s.current.position|)
    ensures r.WellFormed(|s.current.position|)
    decreases n, 2
  {
    if n == 0 then s else Pass(k, b, m, s, n)
  }

  /** Pass n of the loop (n >= 1): the current state after n - 1 passes
      becomes the previous one, and the step it takes becomes current. */
  function Pass(k: real, b: real, m: real, s: LoopState, n: nat): (r: LoopState)
    requires m != 0.0 && s.WellFormed(|s.current.position|) && n >= 1
    ensures r.WellFormed(|s.current.position|)
    decreases n, 1
  {
    var step := StepOf(k, b, m, s, n);
    LoopState(Run(k, b, m, s, n - 1).current, step.next, step.acceleration)
  }

  /** The Runge-Kutta step of SolverDt that pass n takes from the current
      state after n - 1 passes. */
  function StepOf(k: real, b: real, m: real, s: LoopState, n: nat): (r: StepResult)
    requires m != 0.0 && s.WellFormed(|s.current.position|) && n >= 1
    ensures r.next.WellFormed(|s.current.position|) && |r.acceleration| == |s.current.position|
    decreases n, 0
  {
    var c := Run(k, b, m, s, n - 1).current;
    Rk4Step(k, b, m, c.position, c.velocity, SolverDt)
  }

  /** Pass n + 1 of a run moves the state after n passes one step on. */
  lemma RunSucceeds(k: real, b: real, m: real, s: LoopState, n: nat)
    requires m != 0.0 && s.WellFormed(|s.current.position|)
    ensures var c := Run(k, b, m, s, n).current;
      var step := Rk4Step(k, b, m, c.position, c.velocity, SolverDt);
      Run(k, b, m, s, n + 1) == LoopState(c, step.next, step.acceleration)
  {
    assert Run(k, b, m, s, n + 1) == Pass(k, b, m, s, n + 1);
    var c := Run(k, b, m, s, n).current;
    assert StepOf(k, b, m, s, n + 1) == Rk4Step(k, b, m, c.position, c.velocity, SolverDt);
  }

  /** The linear blend (1 - alpha) * previous + alpha * current. */
  function Lerp(previous: seq<real>, current: seq<real>, alpha: real): (r: seq<real>)
    requires |previous| == |current|
    ensures |r| == |previous|
  {
    seq(|previous|, i requires 0 <= i < |previous| => (1.0 - alpha) * previous[i] + alpha * current[i])
  }

  /** The number of whole fixed steps in an accumulated time. */
  function StepCount(total: real): nat
    requires total >= 0.0
  {
    (total / SolverDt).Floor
  }

  /** Convergence thresholds for a scale tau. */
  function ThresholdsFor(tau: real): (t: Thresholds)
  {
    Thresholds(tau / 2.0, 25.0 * tau, 625.0 * tau * tau)
  }

  function Abs(x: real): (r: real)
    ensures r >= 0.0 && (r == x || r == -x)
  {
    if x < 0.0 then -x else x
  }

  /** The convergence test on a state: a started context whose every position
      component is below the position threshold, whose squared speed is below
      the velocity threshold, and whose squared acceleration is below the
      acceleration threshold. */
  predicate IsConverged(started: bool, position: seq<real>, velocity: seq<real>, acceleration: seq<real>, t: Thresholds)
  {
    started
    && (forall i :: 0 <= i < |position| ==> Abs(position[i]) < t.position)
    && SumOfSquares(velocity) < t.velocity
    && SumOfSquares(acceleration) < t.acceleration
  }

  // ---------------------------------------------------------------------
  // Properties of the model

  /** The thresholds are tied together: the velocity threshold is fifty
      position thresholds and the acceleration threshold is the square of
      the velocity threshold; a zero scale makes all three zero. */
  lemma ThresholdsConsistent(tau: real)
    requires tau >= 0.0
    ensures var t := ThresholdsFor(tau);
      t.position >= 0.0 && t.velocity == 50.0 * t.position && t.acceleration == t.velocity * t.velocity
      && (tau == 0.0 <==> t == Thresholds(0.0, 0.0, 0.0))
  {
  }

  /** The scale passed to the thresholds is non-negative and, squared, is the
      squared norm of the initial position times the factor squared; it is
      zero exactly when the initial position is the zero vector. */
  lemma ThresholdScale(initial: seq<real>, sqrt: real -> real)
    requires IsSquareRoot(sqrt)
    ensures var tau := sqrt(SumOfSquares(initial)) * ThresholdFactor;
      tau >= 0.0
      && tau * tau == SumOfSquares(initial) * (ThresholdFactor * ThresholdFactor)
      && (tau == 0.0 <==> forall i :: 0 <= i < |initial| ==> initial[i] == 0.0)
  {
    var sq := SumOfSquares(initial);
    SumOfSquaresNonNegative(initial);
    SumOfSquaresZeroIff(initial);
    var r := sqrt(sq);
    assert r >= 0.0 && r * r == sq;
    assert (r * ThresholdFactor) * (r * ThresholdFactor) == (r * r) * (ThresholdFactor * ThresholdFactor);
    if r == 0.0 {
      assert sq == 0.0;
    }
    if sq == 0.0 {
      SquareZero(r);
    }
  }

  /** With a zero position threshold no state is converged: no component can
      have an absolute value below zero. */
  lemma {:induction false} ZeroThresholdNeverConverges(started: bool, position: seq<real>, velocity: seq<real>, acceleration: seq<real>, t: Thresholds)
    requires |position| >= 1 && t.position == 0.0
    ensures !IsConverged(started, position, velocity, acceleration, t)
  {
    assert Abs(position[0]) >= 0.0;
  }

  /** The spring exerts no force at rest. */
  lemma AccelerationAtRest(k: real, b: real, m: real, n: nat)
    requires m != 0.0
    ensures SpringAcceleration(k, b, m, Zeros(n), Zeros(n)) == Zeros(n)
  {
    var a := SpringAcceleration(k, b, m, Zeros(n), Zeros(n));
    forall i | 0 <= i < n ensures a[i] == 0.0 {
      assert a[i] == -(k / m) * 0.0 - (b / m) * 0.0;
    }
  }

  /** One Runge-Kutta step maps the rest state to the rest state and
      reports zero acceleration. */
  lemma Rk4StepAtRest(k: real, b: real, m: real, n: nat, dt: real)
    requires m != 0.0
    ensures Rk4Step(k, b, m, Zeros(n), Zeros(n), dt) == StepResult(Kinematics(Zeros(n), Zeros(n)), Zeros(n))
  {
    var z := Zeros(n);
    var r := Rk4Step(k, b, m, z, z, dt);
    ComponentSlopeAtRest(k, b, m, dt);
    forall i | 0 <= i < n ensures r.next.position[i] == 0.0 && r.next.velocity[i] == 0.0 && r.acceleration[i] == 0.0 {
    }
  }

  lemma ComponentSlopeAtRest(k: real, b: real, m: real, dt: real)
    requires m != 0.0
    ensures ComponentSlope(k, b, m, 0.0, 0.0, dt) == (0.0, 0.0)
  {
    assert ComponentAcceleration(k, b, m, 0.0, 0.0) == 0.0;
  }

  /** Rest is an equilibrium: any number of steps from the rest state (with
      zero cached acceleration) stays at rest with zero acceleration. */
  lemma {:induction false} RunAtRest(k: real, b: real, m: real, dim: nat, steps: nat)
    requires m != 0.0
    ensures var z := Zeros(dim);
      Run(k, b, m, Start(Kinematics(z, z), z), steps) == Start(Kinematics(z, z), z)
  {
    if steps > 0 {
      RunAtRest(k, b, m, dim, steps - 1);
      RunSucceeds(k, b, m, Start(Kinematics(Zeros(dim), Zeros(dim)), Zeros(dim)), steps - 1);
      Rk4StepAtRest(k, b, m, dim, SolverDt);
    }
  }

  /** Blending a state with itself gives that state, whatever alpha. */
  lemma LerpSame(x: seq<real>, alpha: real)
    ensures Lerp(x, x, alpha) == x
  {
    var r := Lerp(x, x, alpha);
    forall i | 0 <= i < |x| ensures r[i] == x[i] {
      assert r[i] == (1.0 - alpha) * x[i] + alpha * x[i];
    }
  }

  /** A zero alpha selects the previous state. */
  lemma LerpAtZero(previous: seq<real>, current: seq<real>)
    requires |previous| == |current|
    ensures Lerp(previous, current, 0.0) == previous
  {
    var r := Lerp(previous, current, 0.0);
    forall i | 0 <= i < |previous| ensures r[i] == previous[i] {
      assert r[i] == (1.0 - 0.0) * previous[i] + 0.0 * current[i];
    }
  }

  /** The step count leaves less than one step of time over, and never a
      negative amount: 0 <= total - n * dt < dt. */
  lemma StepCountBounds(total: real)
    requires total >= 0.0
    ensures var n := StepCount(total);
      0.0 <= total - n as real * SolverDt < SolverDt
  {
    var q := total / SolverDt;
    var n := q.Floor;
    assert n as real <= q < n as real + 1.0;
    assert q * SolverDt == total;
  }

  /** Every count of whole steps that fits in the total is at most the
      step count. */
  lemma StepCountAtLeast(total: real, n: nat)
    requires total >= 0.0
    requires n as real * SolverDt <= total
    ensures n <= StepCount(total)
  {
    var q := total / SolverDt;
    assert q * SolverDt == total;
    assert n as real <= q;
  }

  /** The step count is the only count with that property. */
  lemma StepCountUnique(total: real, n: nat)
    requires total >= 0.0
    requires 0.0 <= total - n as real * SolverDt < SolverDt
    ensures StepCount(total) == n
  {
    var q := total / SolverDt;
    assert q * SolverDt == total;
    assert n as real <= q < n as real + 1.0;
  }

  /** Component i of a trial slope depends on component i alone. */
  lemma SlopeAfterComponent(k: real, b: real, m: real, p: seq<real>, v: seq<real>, h: real, d: Slope, i: nat)
    requires |p| == |v| == |d.dp| == |d.dv| && m != 0.0 && i < |p|
    ensures var s := SlopeAfter(k, b, m, p, v, h, d);
      (s.dp[i], s.dv[i]) == ComponentSlopeAfter(k, b, m, p[i], v[i], h, d.dp[i], d.dv[i])
  {
    var pa, va := AdvancedBy(p, h, d.dp), AdvancedBy(v, h, d.dv);
    assert pa[i] == p[i] + h * d.dp[i] && va[i] == v[i] + h * d.dv[i];
    assert SpringAcceleration(k, b, m, pa, va)[i] == ComponentAcceleration(k, b, m, pa[i], va[i]);
  }

  /** The componentwise Runge-Kutta slope is the weighting of the four
      vector slopes the solver evaluates one after the other. */
  lemma Rk4SlopeByStages(k: real, b: real, m: real, p: seq<real>, v: seq<real>, dt: real,
                         sa: Slope, sb: Slope, sc: Slope, sd: Slope)
    requires |p| == |v| && m != 0.0
    requires sa == SlopeAt(k, b, m, p, v)
    requires sb == SlopeAfter(k, b, m, p, v, dt * 0.5, sa)
    requires sc == SlopeAfter(k, b, m, p, v, dt * 0.5, sb)
    requires sd == SlopeAfter(k, b, m, p, v, dt, sc)
    ensures Rk4Slope(k, b, m, p, v, dt) == Slope(WeightedSlope(sa.dp, sb.dp, sc.dp, sd.dp), WeightedSlope(sa.dv, sb.dv, sc.dv, sd.dv))
  {
    var r := Rk4Slope(k, b, m, p, v, dt);
    var wp, wv := WeightedSlope(sa.dp, sb.dp, sc.dp, sd.dp), WeightedSlope(sa.dv, sb.dv, sc.dv, sd.dv);
    forall i | 0 <= i < |p| ensures r.dp[i] == wp[i] && r.dv[i] == wv[i] {
      var x, u := p[i], v[i];
      assert (sa.dp[i], sa.dv[i]) == (u, ComponentAcceleration(k, b, m, x, u));
      SlopeAfterComponent(k, b, m, p, v, dt * 0.5, sa, i);
      SlopeAfterComponent(k, b, m, p, v, dt * 0.5, sb, i);
      SlopeAfterComponent(k, b, m, p, v, dt, sc, i);
    }
  }

  /** A Runge-Kutta step moves the state along the combined slope. */
  lemma Rk4StepBySlope(k: real, b: real, m: real, p: seq<real>, v: seq<real>, dt: real)
    requires |p| == |v| && m != 0.0
    ensures var d := Rk4Slope(k, b, m, p, v, dt);
      Rk4Step(k, b, m, p, v, dt) == StepResult(Kinematics(AdvancedBy(p, dt, d.dp), AdvancedBy(v, dt, d.dv)), d.dv)
  {
    var d := Rk4Slope(k, b, m, p, v, dt);
    var r := Rk4Step(k, b, m, p, v, dt);
    var ap, av := AdvancedBy(p, dt, d.dp), AdvancedBy(v, dt, d.dv);
    forall i | 0 <= i < |p| ensures r.next.position[i] == ap[i] && r.next.velocity[i] == av[i] && r.acceleration[i] == d.dv[i] {
    }
  }
}
