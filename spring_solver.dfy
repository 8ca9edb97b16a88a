/** The damped spring solver context and its operations (INTUSpringSolver.c).

    A context owns the spring's constants, its convergence thresholds, its
    kinematic state (position, velocity and the last computed acceleration,
    each a buffer of `Dimensions` reals) and the fixed-step time
    accumulator. `Advance` moves it to a new time by whole Runge-Kutta steps
    of `SolverDt` and blends the last two step states; `HasConverged`
    compares the state with the thresholds. Every method is proved against
    the value-level model in module SpringDynamics. */
module SpringSolver {
  import opened Vectors
  import opened SpringDynamics

  /** kINTUSpringSolverDimensions: the compile-time dimension, 1 unless the
      build defines another value. */
  const Dimensions: nat := 1

  /** INTUSpringState: what an advance returns. */
  datatype SpringState = SpringState(position: seq<real>)

  /** The context record. Its three state buffers are arrays allocated with
      the context and never replaced. */
  class Context {
    var stiffness: real
    var damping: real
    var mass: real

    var thresholdPosition: real
    var thresholdVelocity: real
    var thresholdAcceleration: real

    var lastTime: real
    var accumulatedTime: real

    const currentPosition: array<real>
    const currentVelocity: array<real>
    const currentAcceleration: array<real>

    var started: bool

    /** The buffers have the solver's dimension and are three distinct arrays. */
    ghost predicate Shape()
      reads this
    {
      currentPosition.Length == Dimensions
      && currentVelocity.Length == Dimensions
      && currentAcceleration.Length == Dimensions
      && currentPosition != currentVelocity
      && currentPosition != currentAcceleration
      && currentVelocity != currentAcceleration
    }

    /** The constants that construction checks. */
    ghost predicate Physical()
      reads this
    {
      Shape() && stiffness > 0.0 && damping >= 0.0 && mass > 0.0
    }

    /** The invariant of every context between calls. */
    ghost predicate Valid()
      reads this
    {
      Physical()
      && thresholdPosition >= 0.0
      && thresholdVelocity == 50.0 * thresholdPosition
      && thresholdAcceleration == thresholdVelocity * thresholdVelocity
      && 0.0 <= accumulatedTime < SolverDt
      && lastTime >= 0.0
    }

    /** The current position and velocity as values. */
    ghost function State(): Kinematics
      reads this, currentPosition, currentVelocity
    {
      Kinematics(currentPosition[..], currentVelocity[..])
    }

    /** The three thresholds as one value. */
    function Limits(): Thresholds
      reads this
    {
      Thresholds(thresholdPosition, thresholdVelocity, thresholdAcceleration)
    }

    /** The storage of a new context (the malloc in the creation function);
        its contents are set by the creation function. */
    constructor Allocate()
      ensures Shape()
      ensures fresh(currentPosition) && fresh(currentVelocity) && fresh(currentAcceleration)
    {
      currentPosition := new real[Dimensions];
      currentVelocity := new real[Dimensions];
      currentAcceleration := new real[Dimensions];
    }

    /** resetContext: time back to zero, the state to rest, not started.
        The constants and thresholds are left as they are. */
    method Reset()
      requires Shape()
      modifies this`lastTime, this`accumulatedTime, this`started
      modifies currentPosition, currentVelocity, currentAcceleration
      ensures lastTime == 0.0 && accumulatedTime == 0.0 && !started
      ensures currentPosition[..] == Zeros(Dimensions)
      ensures currentVelocity[..] == Zeros(Dimensions)
      ensures currentAcceleration[..] == Zeros(Dimensions)
    {
      lastTime := 0.0;
      accumulatedTime := 0.0;
      ZeroVector(Dimensions, currentPosition);
      ZeroVector(Dimensions, currentVelocity);
      ZeroVector(Dimensions, currentAcceleration);
      started := false;
    }

    /** setConstants: store the spring's constants unchanged. */
    method SetConstants(k: real, b: real, m: real)
      modifies this`stiffness, this`damping, this`mass
      ensures stiffness == k && damping == b && mass == m
    {
      stiffness := k;
      damping := b;
      mass := m;
    }

    /** setThreshold: derive the three thresholds from one scale. */
    method SetThreshold(threshold: real)
      modifies this`thresholdPosition, this`thresholdVelocity, this`thresholdAcceleration
      ensures Limits() == ThresholdsFor(threshold)
    {
      thresholdPosition := threshold / 2.0;
      thresholdVelocity := 25.0 * threshold;
      thresholdAcceleration := 625.0 * threshold * threshold;
    }

    /** acceleration: the spring equation's right-hand side at (p, v). The
        time argument is accepted and not used. */
    method Acceleration(positionVector: array<real>, velocityVector: array<real>, t: real, accelerationVector: array<real>)
      requires Physical()
      requires positionVector.Length == velocityVector.Length == accelerationVector.Length == Dimensions
      modifies accelerationVector
      ensures accelerationVector[..] == SpringAcceleration(stiffness, damping, mass, old(positionVector[..]), old(velocityVector[..]))
    {
      ghost var p, v := positionVector[..], velocityVector[..];
      assert p == positionVector[..Dimensions] && v == velocityVector[..Dimensions];
      var intermediate1 := new real[Dimensions];
      var intermediate2 := new real[Dimensions];
      MultiplyScalarWithVector(Dimensions, -stiffness / mass, positionVector, intermediate1);
      MultiplyScalarWithVector(Dimensions, damping / mass, velocityVector, intermediate2);
      SubVectors(Dimensions, intermediate1, intermediate2, accelerationVector);
      assert accelerationVector[..] == accelerationVector[..Dimensions];
      AccelerationByKernel(stiffness, damping, mass, p, v);
    }

    /** evaluate: the slope at (p, v): velocity and acceleration. */
    method Evaluate(positionVector: array<real>, velocityVector: array<real>, t: real,
                    deltaPosition: array<real>, deltaVelocity: array<real>)
      requires Physical()
      requires positionVector.Length == velocityVector.Length == Dimensions
      requires deltaPosition.Length == deltaVelocity.Length == Dimensions
      requires deltaPosition != positionVector && deltaPosition != deltaVelocity
      modifies deltaPosition, deltaVelocity
      ensures Slope(deltaPosition[..], deltaVelocity[..])
              == SlopeAt(stiffness, damping, mass, old(positionVector[..]), old(velocityVector[..]))
    {
      WholePrefix(velocityVector, Dimensions);
      CopyVector(Dimensions, velocityVector, deltaPosition);
      WholePrefix(deltaPosition, Dimensions);
      Acceleration(positionVector, velocityVector, t, deltaVelocity);
    }

    /** evaluateWithDerivative: the slope at the state reached from (p, v)
        by following the given slope for time dt. */
    method EvaluateWithDerivative(initialPositionVector: array<real>, initialVelocityVector: array<real>,
                                  t: real, dt: real,
                                  inputDeltaPosition: array<real>, inputDeltaVelocity: array<real>,
                                  outputDeltaPosition: array<real>, outputDeltaVelocity: array<real>)
      requires Physical()
      requires initialPositionVector.Length == initialVelocityVector.Length == Dimensions
      requires inputDeltaPosition.Length == inputDeltaVelocity.Length == Dimensions
      requires outputDeltaPosition.Length == outputDeltaVelocity.Length == Dimensions
      requires outputDeltaPosition != outputDeltaVelocity
      modifies outputDeltaPosition, outputDeltaVelocity
      ensures Slope(outputDeltaPosition[..], outputDeltaVelocity[..])
              == SlopeAfter(stiffness, damping, mass, old(initialPositionVector[..]), old(initialVelocityVector[..]),
                            dt, Slope(old(inputDeltaPosition[..]), old(inputDeltaVelocity[..])))
    {
      ghost var p0, v0 := initialPositionVector[..], initialVelocityVector[..];
      ghost var dp0, dv0 := inputDeltaPosition[..], inputDeltaVelocity[..];
      WholePrefix(initialPositionVector, Dimensions); WholePrefix(initialVelocityVector, Dimensions);
      WholePrefix(inputDeltaPosition, Dimensions); WholePrefix(inputDeltaVelocity, Dimensions);

      var dpdt := new real[Dimensions];
      var dvdt := new real[Dimensions];
      var positionVector := new real[Dimensions];
      var velocityVector := new real[Dimensions];

      MultiplyScalarWithVector(Dimensions, dt, inputDeltaPosition, dpdt);
      MultiplyScalarWithVector(Dimensions, dt, inputDeltaVelocity, dvdt);
      WholePrefix(dpdt, Dimensions); WholePrefix(dvdt, Dimensions);

      AddVectors(Dimensions, initialPositionVector, dpdt, positionVector);
      AddVectors(Dimensions, initialVelocityVector, dvdt, velocityVector);
      WholePrefix(positionVector, Dimensions); WholePrefix(velocityVector, Dimensions);
      AdvancedByKernel(p0, dt, dp0);
      AdvancedByKernel(v0, dt, dv0);

      CopyVector(Dimensions, velocityVector, outputDeltaPosition);
      WholePrefix(outputDeltaPosition, Dimensions);
      Acceleration(positionVector, velocityVector, t + dt, outputDeltaVelocity);
    }

    /** The four slope evaluations of integrate, into new buffers: the slope
        at (p, v), then the trial slopes at dt/2 along it, at dt/2 along the
        second and at dt along the third. */
    method TrialSlopes(positionVector: array<real>, velocityVector: array<real>, t: real, dt: real)
      returns (derivativePositionA: array<real>, derivativeVelocityA: array<real>,
               derivativePositionB: array<real>, derivativeVelocityB: array<real>,
               derivativePositionC: array<real>, derivativeVelocityC: array<real>,
               derivativePositionD: array<real>, derivativeVelocityD: array<real>)
      requires Physical()
      requires positionVector.Length == velocityVector.Length == Dimensions
      ensures fresh(derivativePositionA) && fresh(derivativeVelocityA) && fresh(derivativePositionB) && fresh(derivativeVelocityB)
      ensures fresh(derivativePositionC) && fresh(derivativeVelocityC) && fresh(derivativePositionD) && fresh(derivativeVelocityD)
      ensures derivativePositionA.Length == derivativeVelocityA.Length == derivativePositionB.Length == derivativeVelocityB.Length == Dimensions
      ensures derivativePositionC.Length == derivativeVelocityC.Length == derivativePositionD.Length == derivativeVelocityD.Length == Dimensions
      ensures var p, v := old(positionVector[..]), old(velocityVector[..]);
        var sa := Slope(derivativePositionA[..], derivativeVelocityA[..]);
        var sb := Slope(derivativePositionB[..], derivativeVelocityB[..]);
        var sc := Slope(derivativePositionC[..], derivativeVelocityC[..]);
        var sd := Slope(derivativePositionD[..], derivativeVelocityD[..]);
        sa == SlopeAt(stiffness, damping, mass, p, v)
        && sb == SlopeAfter(stiffness, damping, mass, p, v, dt * 0.5, sa)
        && sc == SlopeAfter(stiffness, damping, mass, p, v, dt * 0.5, sb)
        && sd == SlopeAfter(stiffness, damping, mass, p, v, dt, sc)
    {
      ghost var p, v := positionVector[..], velocityVector[..];

      derivativePositionA := new real[Dimensions];
      derivativeVelocityA := new real[Dimensions];
      derivativePositionB := new real[Dimensions];
      derivativeVelocityB := new real[Dimensions];
      derivativePositionC := new real[Dimensions];
      derivativeVelocityC := new real[Dimensions];
      derivativePositionD := new real[Dimensions];
      derivativeVelocityD := new real[Dimensions];

      Evaluate(positionVector, velocityVector, t, derivativePositionA, derivativeVelocityA);
      ghost var sa := Slope(derivativePositionA[..], derivativeVelocityA[..]);
      assert sa == SlopeAt(stiffness, damping, mass, p, v);
      assert positionVector[..] == p && velocityVector[..] == v;

      EvaluateWithDerivative(positionVector, velocityVector, t, dt * 0.5,
                             derivativePositionA, derivativeVelocityA, derivativePositionB, derivativeVelocityB);
      ghost var sb := Slope(derivativePositionB[..], derivativeVelocityB[..]);
      assert sb == SlopeAfter(stiffness, damping, mass, p, v, dt * 0.5, sa);
      assert positionVector[..] == p && velocityVector[..] == v;
      assert derivativePositionA[..] == sa.dp && derivativeVelocityA[..] == sa.dv;

      EvaluateWithDerivative(positionVector, velocityVector, t, dt * 0.5,
                             derivativePositionB, derivativeVelocityB, derivativePositionC, derivativeVelocityC);
      ghost var sc := Slope(derivativePositionC[..], derivativeVelocityC[..]);
      assert sc == SlopeAfter(stiffness, damping, mass, p, v, dt * 0.5, sb);
      assert positionVector[..] == p && velocityVector[..] == v;
      assert derivativePositionA[..] == sa.dp && derivativeVelocityA[..] == sa.dv;
      assert derivativePositionB[..] == sb.dp && derivativeVelocityB[..] == sb.dv;

      EvaluateWithDerivative(positionVector, velocityVector, t, dt,
                             derivativePositionC, derivativeVelocityC, derivativePositionD, derivativeVelocityD);
      assert derivativePositionA[..] == sa.dp && derivativeVelocityA[..] == sa.dv;
      assert derivativePositionB[..] == sb.dp && derivativeVelocityB[..] == sb.dv;
      assert derivativePositionC[..] == sc.dp && derivativeVelocityC[..] == sc.dv;
    }

    /** The weighting half of integrate: the combined Runge-Kutta slope of a
        step of length dt from (p, v), in new buffers. */
    method WeightedDerivatives(positionVector: array<real>, velocityVector: array<real>, t: real, dt: real)
      returns (dpdt: array<real>, dvdt: array<real>)
      requires Physical()
      requires positionVector.Length == velocityVector.Length == Dimensions
      ensures fresh(dpdt) && fresh(dvdt) && dpdt != dvdt
      ensures dpdt.Length == dvdt.Length == Dimensions
      ensures var d := Rk4Slope(stiffness, damping, mass, old(positionVector[..]), old(velocityVector[..]), dt);
        dpdt[..] == d.dp && dvdt[..] == d.dv
    {
      ghost var p, v := positionVector[..], velocityVector[..];
      var derivativePositionA, derivativeVelocityA, derivativePositionB, derivativeVelocityB,
          derivativePositionC, derivativeVelocityC, derivativePositionD, derivativeVelocityD :=
        TrialSlopes(positionVector, velocityVector, t, dt);
      ghost var sa := Slope(derivativePositionA[..], derivativeVelocityA[..]);
      ghost var sb := Slope(derivativePositionB[..], derivativeVelocityB[..]);
      ghost var sc := Slope(derivativePositionC[..], derivativeVelocityC[..]);
      ghost var sd := Slope(derivativePositionD[..], derivativeVelocityD[..]);
      dpdt := new real[Dimensions];
      dvdt := new real[Dimensions];

      WholePrefix(derivativePositionA, Dimensions); WholePrefix(derivativeVelocityA, Dimensions);
      WholePrefix(derivativePositionB, Dimensions); WholePrefix(derivativeVelocityB, Dimensions);
      WholePrefix(derivativePositionC, Dimensions); WholePrefix(derivativeVelocityC, Dimensions);
      WholePrefix(derivativePositionD, Dimensions); WholePrefix(derivativeVelocityD, Dimensions);
      Derivative(Dimensions, derivativePositionA, derivativePositionB, derivativePositionC, derivativePositionD, dpdt);
      WholePrefix(dpdt, Dimensions);
      Derivative(Dimensions, derivativeVelocityA, derivativeVelocityB, derivativeVelocityC, derivativeVelocityD, dvdt);
      WholePrefix(dvdt, Dimensions);
      Rk4SlopeByStages(stiffness, damping, mass, p, v, dt, sa, sb, sc, sd);
    }

    /** integrate: one Runge-Kutta step of length dt from (p, v) into the
        output buffers; the combined acceleration estimate is cached in
        currentAcceleration. */
    method Integrate(positionVector: array<real>, velocityVector: array<real>, t: real, dt: real,
                     outputPositionVector: array<real>, outputVelocityVector: array<real>)
      requires Physical()
      requires positionVector.Length == velocityVector.Length == Dimensions
      requires outputPositionVector.Length == outputVelocityVector.Length == Dimensions
      requires outputPositionVector != outputVelocityVector
      requires outputPositionVector != velocityVector
      requires outputPositionVector != currentAcceleration && outputVelocityVector != currentAcceleration
      modifies outputPositionVector, outputVelocityVector, currentAcceleration
      ensures var step := Rk4Step(stiffness, damping, mass, old(positionVector[..]), old(velocityVector[..]), dt);
        outputPositionVector[..] == step.next.position
        && outputVelocityVector[..] == step.next.velocity
        && currentAcceleration[..] == step.acceleration
    {
      ghost var p, v := positionVector[..], velocityVector[..];
      ghost var d := Rk4Slope(stiffness, damping, mass, p, v, dt);

      var dpdt, dvdt := WeightedDerivatives(positionVector, velocityVector, t, dt);
      var dpdtTimesDt := new real[Dimensions];
      var dvdtTimesDt := new real[Dimensions];
      WholePrefix(dpdt, Dimensions); WholePrefix(dvdt, Dimensions);
      WholePrefix(positionVector, Dimensions); WholePrefix(velocityVector, Dimensions);

      MultiplyScalarWithVector(Dimensions, dt, dpdt, dpdtTimesDt);
      MultiplyScalarWithVector(Dimensions, dt, dvdt, dvdtTimesDt);
      WholePrefix(dpdtTimesDt, Dimensions); WholePrefix(dvdtTimesDt, Dimensions);

      AddVectors(Dimensions, positionVector, dpdtTimesDt, outputPositionVector);
      AddVectors(Dimensions, velocityVector, dvdtTimesDt, outputVelocityVector);
      WholePrefix(outputPositionVector, Dimensions); WholePrefix(outputVelocityVector, Dimensions);
      AdvancedByKernel(p, dt, d.dp);
      AdvancedByKernel(v, dt, d.dv);
      assert outputPositionVector[..] == AdvancedBy(p, dt, d.dp);

      CopyVector(Dimensions, dvdt, currentAcceleration);
      WholePrefix(currentAcceleration, Dimensions);
      Rk4StepBySlope(stiffness, damping, mass, p, v, dt);
    }

    /** One pass of the fixed-step loop: the current state is copied into
        the previous-state buffers and one Runge-Kutta step from it is
        written to the current-state buffers and the acceleration. */
    method StepOnce(t: real, currentPositionCopy: array<real>, currentVelocityCopy: array<real>,
                    previousPosition: array<real>, previousVelocity: array<real>, ghost s0: LoopState, ghost n: nat)
      requires Physical()
      requires currentPositionCopy.Length == currentVelocityCopy.Length == Dimensions
      requires previousPosition.Length == previousVelocity.Length == Dimensions
      requires currentPositionCopy != currentVelocityCopy && previousPosition != previousVelocity
      requires currentPositionCopy != previousPosition && currentPositionCopy != previousVelocity
      requires currentVelocityCopy != previousPosition && currentVelocityCopy != previousVelocity
      requires currentPositionCopy != currentAcceleration && currentVelocityCopy != currentAcceleration
      requires previousPosition != currentAcceleration && previousVelocity != currentAcceleration
      requires s0.WellFormed(|s0.current.position|)
      requires Run(stiffness, damping, mass, s0, n)
        == LoopState(Kinematics(previousPosition[..], previousVelocity[..]),
                     Kinematics(currentPositionCopy[..], currentVelocityCopy[..]),
                     currentAcceleration[..])
      modifies currentAcceleration, currentPositionCopy, currentVelocityCopy, previousPosition, previousVelocity
      ensures Run(stiffness, damping, mass, s0, n + 1)
        == LoopState(Kinematics(previousPosition[..], previousVelocity[..]),
                     Kinematics(currentPositionCopy[..], currentVelocityCopy[..]),
                     currentAcceleration[..])
    {
      ghost var p, v := currentPositionCopy[..], currentVelocityCopy[..];
      WholePrefix(currentPositionCopy, Dimensions); WholePrefix(currentVelocityCopy, Dimensions);
      CopyVector(Dimensions, currentPositionCopy, previousPosition);
      CopyVector(Dimensions, currentVelocityCopy, previousVelocity);
      WholePrefix(previousPosition, Dimensions); WholePrefix(previousVelocity, Dimensions);
      assert previousPosition[..] == p && previousVelocity[..] == v;
      Integrate(previousPosition, previousVelocity, t, SolverDt, currentPositionCopy, currentVelocityCopy);
      RunSucceeds(stiffness, damping, mass, s0, n);
    }

    /** The fixed-step loop of an advance: while at least one step of time
        is accumulated, the current state becomes the previous one and one
        Runge-Kutta step from it becomes the current one. The buffers hold
        the loop's local state; on entry previous and current agree. */
    method TakeFixedSteps(t: real, currentPositionCopy: array<real>, currentVelocityCopy: array<real>,
                          previousPosition: array<real>, previousVelocity: array<real>)
      requires Physical() && accumulatedTime >= 0.0
      requires currentPositionCopy.Length == currentVelocityCopy.Length == Dimensions
      requires previousPosition.Length == previousVelocity.Length == Dimensions
      requires currentPositionCopy != currentVelocityCopy && previousPosition != previousVelocity
      requires currentPositionCopy != previousPosition && currentPositionCopy != previousVelocity
      requires currentVelocityCopy != previousPosition && currentVelocityCopy != previousVelocity
      requires currentPositionCopy != currentAcceleration && currentVelocityCopy != currentAcceleration
      requires previousPosition != currentAcceleration && previousVelocity != currentAcceleration
      requires previousPosition[..] == currentPositionCopy[..] && previousVelocity[..] == currentVelocityCopy[..]
      modifies this`accumulatedTime, currentAcceleration
      modifies currentPositionCopy, currentVelocityCopy, previousPosition, previousVelocity
      ensures var steps := StepCount(old(accumulatedTime));
        accumulatedTime == old(accumulatedTime) - steps as real * SolverDt
        && Run(stiffness, damping, mass,
               Start(Kinematics(old(currentPositionCopy[..]), old(currentVelocityCopy[..])), old(currentAcceleration[..])),
               steps)
           == LoopState(Kinematics(previousPosition[..], previousVelocity[..]),
                        Kinematics(currentPositionCopy[..], currentVelocityCopy[..]),
                        currentAcceleration[..])
    {
      ghost var total := accumulatedTime;
      ghost var s0 := Start(Kinematics(currentPositionCopy[..], currentVelocityCopy[..]), currentAcceleration[..]);
      ghost var steps: nat := 0;
      var t := t;

      while accumulatedTime >= SolverDt
        invariant accumulatedTime == total - steps as real * SolverDt
        invariant 0.0 <= accumulatedTime
        invariant steps <= StepCount(total)
        invariant Run(stiffness, damping, mass, s0, steps)
          == LoopState(Kinematics(previousPosition[..], previousVelocity[..]),
                       Kinematics(currentPositionCopy[..], currentVelocityCopy[..]),
                       currentAcceleration[..])
        decreases StepCount(total) - steps
      {
        StepOnce(t, currentPositionCopy, currentVelocityCopy, previousPosition, previousVelocity, s0, steps);
        t := t + SolverDt;
        accumulatedTime := accumulatedTime - SolverDt;
        StepCountAtLeast(total, steps + 1);
        steps := steps + 1;
      }
      StepCountBounds(total);
      StepCountUnique(total, steps);
    }

    /** INTUAdvanceSpringSolver.

        A time earlier than the last one resets the context and returns the
        zero vector; `started` is set first and then cleared again by the
        reset. Otherwise the elapsed time is added to the accumulator, whole
        steps of SolverDt are taken while it holds at least one step, and
        the last two step states are blended by alpha = accumulatedTime /
        SolverDt. The blend, not the last step state, becomes the context's
        state and the next call's starting point. */
    method Advance(newTime: real) returns (state: SpringState)
      requires Valid()
      modifies this`started, this`lastTime, this`accumulatedTime
      modifies currentPosition, currentVelocity, currentAcceleration
      ensures Valid()
      ensures old(newTime < lastTime) ==>
        state.position == Zeros(Dimensions)
        && !started && lastTime == 0.0 && accumulatedTime == 0.0
        && currentPosition[..] == Zeros(Dimensions)
        && currentVelocity[..] == Zeros(Dimensions)
        && currentAcceleration[..] == Zeros(Dimensions)
      ensures old(newTime >= lastTime) ==>
        var total := old(accumulatedTime) + (newTime - old(lastTime));
        var run := Run(stiffness, damping, mass, Start(old(State()), old(currentAcceleration[..])), StepCount(total));
        var alpha := accumulatedTime / SolverDt;
        started && lastTime == newTime
        && accumulatedTime == total - StepCount(total) as real * SolverDt
        && 0.0 <= alpha < 1.0
        && currentPosition[..] == Lerp(run.previous.position, run.current.position, alpha)
        && currentVelocity[..] == Lerp(run.previous.velocity, run.current.velocity, alpha)
        && currentAcceleration[..] == run.acceleration
        && state.position == currentPosition[..]
      ensures old(newTime >= lastTime) && old(accumulatedTime) + (newTime - old(lastTime)) < SolverDt ==>
        State() == old(State()) && currentAcceleration[..] == old(currentAcceleration[..])
    {
      started := true;

      if newTime < lastTime {
        Reset();
        state := SpringState(Zeros(Dimensions));
        return;
      }

      accumulatedTime := accumulatedTime + (newTime - lastTime);
      var t := lastTime;
      lastTime := newTime;

      ghost var total := accumulatedTime;
      var previousPosition, previousVelocity, currentPositionCopy, currentVelocityCopy := Steps(t);
      state := Blend(previousPosition, previousVelocity, currentPositionCopy, currentVelocityCopy);

      if StepCount(total) == 0 {
        LerpSame(old(currentPosition[..]), accumulatedTime / SolverDt);
        LerpSame(old(currentVelocity[..]), accumulatedTime / SolverDt);
      }
    }

    /** The stepping part of an advance: local copies of the state, then
        the fixed-step loop on them. */
    method Steps(t: real) returns (previousPosition: array<real>, previousVelocity: array<real>,
                                   currentPositionCopy: array<real>, currentVelocityCopy: array<real>)
      requires Physical() && accumulatedTime >= 0.0
      modifies this`accumulatedTime, currentAcceleration
      ensures fresh(currentPositionCopy) && fresh(currentVelocityCopy) && fresh(previousPosition) && fresh(previousVelocity)
      ensures currentPositionCopy.Length == currentVelocityCopy.Length == Dimensions
      ensures previousPosition.Length == previousVelocity.Length == Dimensions
      ensures var steps := StepCount(old(accumulatedTime));
        accumulatedTime == old(accumulatedTime) - steps as real * SolverDt
        && Run(stiffness, damping, mass, Start(old(State()), old(currentAcceleration[..])), steps)
           == LoopState(Kinematics(previousPosition[..], previousVelocity[..]),
                        Kinematics(currentPositionCopy[..], currentVelocityCopy[..]),
                        currentAcceleration[..])
    {
      currentPositionCopy, currentVelocityCopy, previousPosition, previousVelocity := CopyState();
      TakeFixedSteps(t, currentPositionCopy, currentVelocityCopy, previousPosition, previousVelocity);
    }

    /** The local copies an advance works on: the current position and
        velocity, each copied once as the loop's current state and once as
        its previous state. */
    method CopyState() returns (currentPositionCopy: array<real>, currentVelocityCopy: array<real>,
                                previousPosition: array<real>, previousVelocity: array<real>)
      requires Shape()
      ensures fresh(currentPositionCopy) && fresh(currentVelocityCopy) && fresh(previousPosition) && fresh(previousVelocity)
      ensures currentPositionCopy.Length == currentVelocityCopy.Length == Dimensions
      ensures previousPosition.Length == previousVelocity.Length == Dimensions
      ensures currentPositionCopy != currentVelocityCopy && previousPosition != previousVelocity
      ensures currentPositionCopy != previousPosition && currentPositionCopy != previousVelocity
      ensures currentVelocityCopy != previousPosition && currentVelocityCopy != previousVelocity
      ensures currentPositionCopy[..] == currentPosition[..] && currentVelocityCopy[..] == currentVelocity[..]
      ensures previousPosition[..] == currentPosition[..] && previousVelocity[..] == currentVelocity[..]
    {
      currentPositionCopy := new real[Dimensions];
      currentVelocityCopy := new real[Dimensions];
      previousPosition := new real[Dimensions];
      previousVelocity := new real[Dimensions];

      WholePrefix(currentPosition, Dimensions); WholePrefix(currentVelocity, Dimensions);
      CopyVector(Dimensions, currentPosition, currentPositionCopy);
      CopyVector(Dimensions, currentVelocity, currentVelocityCopy);
      WholePrefix(currentPositionCopy, Dimensions); WholePrefix(currentVelocityCopy, Dimensions);
      CopyVector(Dimensions, currentPositionCopy, previousPosition);
      CopyVector(Dimensions, currentVelocityCopy, previousVelocity);
      WholePrefix(previousPosition, Dimensions); WholePrefix(previousVelocity, Dimensions);
    }

    /** The end of an advance: the last two step states blended by
        alpha = accumulatedTime / SolverDt become the context's position
        and velocity, and a copy of the position is returned. */
    method Blend(previousPosition: array<real>, previousVelocity: array<real>,
                 currentPositionCopy: array<real>, currentVelocityCopy: array<real>)
      returns (state: SpringState)
      requires Shape()
      requires currentPositionCopy.Length == currentVelocityCopy.Length == Dimensions
      requires previousPosition.Length == previousVelocity.Length == Dimensions
      modifies currentPosition, currentVelocity
      ensures currentPosition[..] == Lerp(old(previousPosition[..]), old(currentPositionCopy[..]), accumulatedTime / SolverDt)
      ensures currentVelocity[..] == Lerp(old(previousVelocity[..]), old(currentVelocityCopy[..]), accumulatedTime / SolverDt)
      ensures state.position == currentPosition[..]
    {
      var alpha := accumulatedTime / SolverDt;
      var advancedPosition := new real[Dimensions];
      var advancedVelocity := new real[Dimensions];

      WholePrefix(previousPosition, Dimensions); WholePrefix(previousVelocity, Dimensions);
      WholePrefix(currentPositionCopy, Dimensions); WholePrefix(currentVelocityCopy, Dimensions);
      Interpolate(Dimensions, previousPosition, previousVelocity, currentPositionCopy, currentVelocityCopy,
                  alpha, advancedPosition, advancedVelocity);
      WholePrefix(advancedPosition, Dimensions); WholePrefix(advancedVelocity, Dimensions);
      CopyVector(Dimensions, advancedPosition, currentPosition);
      CopyVector(Dimensions, advancedVelocity, currentVelocity);
      WholePrefix(currentPosition, Dimensions); WholePrefix(currentVelocity, Dimensions);

      var newPosition := new real[Dimensions];
      CopyVector(Dimensions, currentPosition, newPosition);
      WholePrefix(newPosition, Dimensions);
      state := SpringState(newPosition[..]);
    }

    /** INTUSpringSolverHasConverged: false before the first advance and
        whenever some position component is at or beyond the position
        threshold; otherwise whether the squared speed and the squared
        acceleration are both below their thresholds. */
    method HasConverged() returns (converged: bool)
      requires Valid()
      ensures converged == IsConverged(started, currentPosition[..], currentVelocity[..], currentAcceleration[..], Limits())
      ensures !started ==> !converged
      ensures (exists i :: 0 <= i < Dimensions && Abs(currentPosition[i]) >= thresholdPosition) ==> !converged
      ensures thresholdPosition == 0.0 ==> !converged
    {
      if !started {
        return false;
      }

      for i := 0 to Dimensions
        invariant forall j :: 0 <= j < i ==> Abs(currentPosition[j]) < thresholdPosition
      {
        if Abs(currentPosition[i]) >= thresholdPosition {
          return false;
        }
      }

      WholePrefix(currentVelocity, Dimensions);
      WholePrefix(currentAcceleration, Dimensions);
      var velocitySquared := SquaredNorm(Dimensions, currentVelocity);
      var velocityConverged := velocitySquared < thresholdVelocity;

      var accelerationSquared := SquaredNorm(Dimensions, currentAcceleration);
      var accelerationConverged := accelerationSquared < thresholdAcceleration;

      converged := velocityConverged && accelerationConverged;
      if thresholdPosition == 0.0 {
        ZeroThresholdNeverConverges(started, currentPosition[..], currentVelocity[..], currentAcceleration[..], Limits());
      }
    }
  }

  /** INTUSpringSolverContextCreate: null exactly when a constant is out of
      range or an initial vector is missing; otherwise a new, valid,
      not-started context at time zero holding the constants, copies of the
      initial vectors, zero acceleration and thresholds derived from
      tau = |initialPosition| * ThresholdFactor. The C library's sqrt is
      passed in as `sqrt`. */
  method Create(stiffness: real, damping: real, mass: real,
                initialPosition: array?<real>, initialVelocity: array?<real>,
                sqrt: real -> real)
    returns (context: Context?)
    requires initialPosition != null ==> initialPosition.Length >= Dimensions
    requires initialVelocity != null ==> initialVelocity.Length >= Dimensions
    requires IsSquareRoot(sqrt)
    ensures context == null <==>
      (stiffness <= 0.0 || damping < 0.0 || mass <= 0.0 || initialPosition == null || initialVelocity == null)
    ensures context != null ==>
      fresh(context) && fresh(context.currentPosition) && fresh(context.currentVelocity) && fresh(context.currentAcceleration)
      && context.Valid()
      && context.stiffness == stiffness && context.damping == damping && context.mass == mass
      && context.currentPosition[..] == initialPosition[..Dimensions]
      && context.currentVelocity[..] == initialVelocity[..Dimensions]
      && context.currentAcceleration[..] == Zeros(Dimensions)
      && context.lastTime == 0.0 && context.accumulatedTime == 0.0 && !context.started
      && context.Limits() == ThresholdsFor(sqrt(SumOfSquares(initialPosition[..Dimensions])) * ThresholdFactor)
      && ((forall i :: 0 <= i < Dimensions ==> initialPosition[i] == 0.0) ==>
            context.Limits() == Thresholds(0.0, 0.0, 0.0))
  {
    if stiffness <= 0.0 || damping < 0.0 || mass <= 0.0 || initialPosition == null || initialVelocity == null {
      return null;
    }

    var c := new Context.Allocate();
    c.Reset();
    c.SetConstants(stiffness, damping, mass);

    var positionNorm := Norm(Dimensions, initialPosition, sqrt);
    var threshold := positionNorm * ThresholdFactor;
    c.SetThreshold(threshold);
    ThresholdScale(initialPosition[..Dimensions], sqrt);
    ThresholdsConsistent(threshold);

    CopyVector(Dimensions, initialPosition, c.currentPosition);
    CopyVector(Dimensions, initialVelocity, c.currentVelocity);

    context := c;
  }

  /** derivative: the Runge-Kutta weighting (a + 2b + 2c + d) / 6, computed
      in place in `output`. The output may be the b or c buffer, but not a
      or d, which are read after the output is first written. */
  method Derivative(dimension: nat, ax: array<real>, bx: array<real>, cx: array<real>, dx: array<real>, output: array<real>)
    requires dimension <= ax.Length && dimension <= bx.Length && dimension <= cx.Length && dimension <= dx.Length
    requires dimension <= output.Length
    requires output != ax && output != dx
    modifies output
    ensures output[..dimension] ==
      WeightedSlope(old(ax[..dimension]), old(bx[..dimension]), old(cx[..dimension]), old(dx[..dimension]))
    ensures output[dimension..] == old(output[dimension..])
  {
    ghost var a, b, c, d := ax[..dimension], bx[..dimension], cx[..dimension], dx[..dimension];
    AddVectors(dimension, bx, cx, output);
    MultiplyScalarWithVector(dimension, 2.0, output, output);
    AddVectors(dimension, ax, output, output);
    AddVectors(dimension, output, dx, output);
    MultiplyScalarWithVector(dimension, 1.0 / 6.0, output, output);
    WeightedSlopeByKernel(a, b, c, d);
  }

  /** interpolate: blend previous and current states by alpha,
      (1 - alpha) * previous + alpha * current, into the output buffers.
      The position output must not be the previous-velocity buffer, which
      is read after it is written. */
  method Interpolate(dimension: nat,
                     previousPositionVector: array<real>, previousVelocityVector: array<real>,
                     currentPositionVector: array<real>, currentVelocityVector: array<real>,
                     alpha: real,
                     outputPositionVector: array<real>, outputVelocityVector: array<real>)
    requires dimension <= previousPositionVector.Length && dimension <= previousVelocityVector.Length
    requires dimension <= currentPositionVector.Length && dimension <= currentVelocityVector.Length
    requires dimension <= outputPositionVector.Length && dimension <= outputVelocityVector.Length
    requires outputPositionVector != outputVelocityVector
    requires outputPositionVector != previousVelocityVector
    modifies outputPositionVector, outputVelocityVector
    ensures outputPositionVector[..dimension] ==
      Lerp(old(previousPositionVector[..dimension]), old(currentPositionVector[..dimension]), alpha)
    ensures outputVelocityVector[..dimension] ==
      Lerp(old(previousVelocityVector[..dimension]), old(currentVelocityVector[..dimension]), alpha)
    ensures outputPositionVector[dimension..] == old(outputPositionVector[dimension..])
    ensures outputVelocityVector[dimension..] == old(outputVelocityVector[dimension..])
  {
    ghost var pp, pv := previousPositionVector[..dimension], previousVelocityVector[..dimension];
    ghost var cp, cv := currentPositionVector[..dimension], currentVelocityVector[..dimension];

    var currentPositionTimesAlpha := new real[dimension];
    var currentVelocityTimesAlpha := new real[dimension];

    MultiplyScalarWithVector(dimension, alpha, currentPositionVector, currentPositionTimesAlpha);
    MultiplyScalarWithVector(dimension, alpha, currentVelocityVector, currentVelocityTimesAlpha);

    MultiplyScalarWithVector(dimension, 1.0 - alpha, previousPositionVector, outputPositionVector);
    MultiplyScalarWithVector(dimension, 1.0 - alpha, previousVelocityVector, outputVelocityVector);

    AddVectors(dimension, currentPositionTimesAlpha, outputPositionVector, outputPositionVector);
    AddVectors(dimension, currentVelocityTimesAlpha, outputVelocityVector, outputVelocityVector);

    LerpByKernel(pp, cp, alpha);
    LerpByKernel(pv, cv, alpha);
  }

  // ---------------------------------------------------------------------
  // The kernel compositions that the C helpers perform, equated with the
  // textbook forms of the value-level model.

  /** p * (-k/m) - v * (b/m), as acceleration computes it, is the spring
      equation's right-hand side. */
  lemma AccelerationByKernel(k: real, b: real, m: real, p: seq<real>, v: seq<real>)
    requires |p| == |v| && m != 0.0
    ensures Difference(Scaled(p, -k / m), Scaled(v, b / m)) == SpringAcceleration(k, b, m, p, v)
  {
    var lhs, rhs := Difference(Scaled(p, -k / m), Scaled(v, b / m)), SpringAcceleration(k, b, m, p, v);
    forall i | 0 <= i < |p| ensures lhs[i] == rhs[i] {
      assert p[i] * (-k / m) == -(k / m) * p[i];
      assert v[i] * (b / m) == (b / m) * v[i];
    }
  }

  /** x + dx * h, as the kernel computes it, is x advanced by h along dx. */
  lemma AdvancedByKernel(x: seq<real>, h: real, dx: seq<real>)
    requires |x| == |dx|
    ensures Sum(x, Scaled(dx, h)) == AdvancedBy(x, h, dx)
  {
    var lhs, rhs := Sum(x, Scaled(dx, h)), AdvancedBy(x, h, dx);
    forall i | 0 <= i < |x| ensures lhs[i] == rhs[i] {
      assert dx[i] * h == h * dx[i];
    }
  }

  /** ((a + 2 * (b + c)) + d) * (1/6), as derivative computes it, is the
      Runge-Kutta weighting. */
  lemma WeightedSlopeByKernel(a: seq<real>, b: seq<real>, c: seq<real>, d: seq<real>)
    requires |a| == |b| == |c| == |d|
    ensures Scaled(Sum(Sum(a, Scaled(Sum(b, c), 2.0)), d), 1.0 / 6.0) == WeightedSlope(a, b, c, d)
  {
    var lhs, rhs := Scaled(Sum(Sum(a, Scaled(Sum(b, c), 2.0)), d), 1.0 / 6.0), WeightedSlope(a, b, c, d);
    forall i | 0 <= i < |a| ensures lhs[i] == rhs[i] {
      assert lhs[i] == ((a[i] + (b[i] + c[i]) * 2.0) + d[i]) * (1.0 / 6.0);
    }
  }

  /** current * alpha + previous * (1 - alpha), as interpolate computes it,
      is the linear blend. */
  lemma LerpByKernel(previous: seq<real>, current: seq<real>, alpha: real)
    requires |previous| == |current|
    ensures Sum(Scaled(current, alpha), Scaled(previous, 1.0 - alpha)) == Lerp(previous, current, alpha)
  {
    var lhs, rhs := Sum(Scaled(current, alpha), Scaled(previous, 1.0 - alpha)), Lerp(previous, current, alpha);
    forall i | 0 <= i < |previous| ensures lhs[i] == rhs[i] {
      assert current[i] * alpha == alpha * current[i];
      assert previous[i] * (1.0 - alpha) == (1.0 - alpha) * previous[i];
    }
  }
}
