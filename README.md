# Spring solver and easing curves of INTUAnimationEngine, in Dafny

INTUAnimationEngine animates view properties by sampling a progress
function over time. This project models the two numerical parts of it:

- **The damped spring solver** (`INTUSpringSolver.c` over the vector
  kernel `INTUVector.h`). It simulates a mass on a spring with damping:
  position' = velocity and velocity' = -(k/m) position - (b/m) velocity.
  A context holds the spring's constants, three convergence thresholds
  derived from the initial displacement, the current position, velocity
  and acceleration, and a time accumulator. Advancing to a new time adds
  the elapsed time to the accumulator. It then takes whole fourth-order
  Runge-Kutta steps of 0.001 s while a full step of time is accumulated,
  and blends the last two step states by the fraction of a step left
  over. A time earlier than the last one resets the context. A separate
  query reports whether the spring has come to rest.
- **The easing curves** (`Source/INTUEasingFunctions.c`) that are
  rational in the completion fraction p: Linear; the Quadratic, Cubic,
  Quartic and Quintic curves in their In, Out and InOut forms; the three
  Bounce curves; and the guards of the three Exponential curves.

Files:

- `vectors.dfy` (module `Vectors`): the vector kernel. Each helper is a
  method with a `for` loop over an array. Its contract ties the written
  prefix to a function on sequences of the inputs as they were before the
  call, so the contract holds when the output buffer is also an input.
- `spring_dynamics.dfy` (module `SpringDynamics`): the value-level model.
  It covers the spring equation, one Runge-Kutta step, `Run` (the state of
  the fixed-step loop after n passes), the blend, the step count, the
  thresholds and the convergence test.
- `spring_solver.dfy` (module `SpringSolver`): the context as a class
  whose fields are the C struct's fields. The three state buffers are
  arrays. Each C function is a method proved against module
  `SpringDynamics`.
- `easing.dfy` (module `Easing`): the curves as functions that compute
  the C expressions in the same order. The lemmas relate them to the
  closed forms in the comments above the C functions.

The main results:

- `SpringSolver.Context.Advance` states the whole new state after a call.
  In the normal case, the cached acceleration is that of the last step.
  The position and velocity are the blend, by `accumulatedTime / 0.001`,
  of the last two states of `Run` from the old state. `Run` takes exactly
  `floor(total / 0.001)` steps. Afterwards the accumulator holds what is
  left over, in [0, 0.001). In the rewind case, the context is the reset
  context and the result is the zero vector.
- `SpringSolver.Context.HasConverged` computes exactly the convergence
  predicate. It is false before the first advance, and false whenever the
  position threshold is zero.
- The context invariant `Valid` holds after every operation. `Valid`
  covers the constants' ranges, the relation between the three thresholds
  and the accumulator's range.

A zero initial position gives a zero scale
(INTUSpringSolver.c:155), so all three thresholds are zero. No position
component has an absolute value below zero (line 223), so such a context
never reports convergence (`SpringDynamics.ZeroThresholdNeverConverges`,
last clause of `HasConverged`).

Two behaviours of the code that the model keeps:

- The blend, not the last step state, is stored back as the context's
  position and velocity. The next advance starts from it.
- When the accumulated time is a positive whole multiple of a step, the
  blend factor is 0. The returned state is then the state one step
  earlier (`SpringDynamics.LerpAtZero`). When no step is taken, previous
  and current agree and the state is unchanged (`SpringDynamics.LerpSame`).

## Model

| member | source | states |
|---|---|---|
| Vectors.ZeroVector | INTUAnimationEngine/SpringSolver/INTUVector.h:38-43 | the first `dimensions` entries become 0 and the rest are unchanged |
| Vectors.CopyVector | INTUAnimationEngine/SpringSolver/INTUVector.h:45-50 | the output prefix equals the input prefix as it was before the call; the rest of the output is unchanged; a distinct input is not modified |
| Vectors.MultiplyScalarWithVector | INTUAnimationEngine/SpringSolver/INTUVector.h:52-57 | the output prefix is the old input prefix scaled by the scalar, also when output and input are the same buffer |
| Vectors.AddVectors | INTUAnimationEngine/SpringSolver/INTUVector.h:59-64 | the output prefix is the componentwise sum of the old inputs, also when the output is one of them |
| Vectors.SubVectors | INTUAnimationEngine/SpringSolver/INTUVector.h:66-71 | the output prefix is the componentwise difference of the old inputs, also when the output is one of them |
| Vectors.SquaredNorm | INTUAnimationEngine/SpringSolver/INTUVector.h:73-82 | the result is the sum of the squares of the prefix and is never negative |
| Vectors.Norm | INTUAnimationEngine/SpringSolver/INTUVector.h:84-87 | for a square-root function, the result is non-negative and its square is the squared norm |
| Vectors.SumOfSquaresNonNegative | INTUAnimationEngine/SpringSolver/INTUVector.h:73-82 | a squared norm is never negative |
| Vectors.SumOfSquaresZeroIff | INTUAnimationEngine/SpringSolver/INTUVector.h:73-82 | a squared norm is zero if and only if every component is zero |
| Vectors.SquareRootUnique | INTUAnimationEngine/SpringSolver/INTUVector.h:84-87 | two non-negative square roots of one number are equal, so the norm is determined |
| SpringDynamics.SpringAcceleration | INTUAnimationEngine/SpringSolver/INTUSpringSolver.c:342-354 | the acceleration -(k/m) p - (b/m) v, componentwise, the same length as the state |
| SpringDynamics.Rk4Step | INTUAnimationEngine/SpringSolver/INTUSpringSolver.c:261-292 | the next state of a classical Runge-Kutta step of dt, componentwise, and the combined acceleration; it keeps the state's dimension |
| SpringDynamics.Run | INTUAnimationEngine/SpringSolver/INTUSpringSolver.c:192-200 | the previous state, current state and acceleration after n passes of the fixed-step loop; it keeps the state's dimension |
| SpringDynamics.Lerp | INTUAnimationEngine/SpringSolver/INTUSpringSolver.c:356-375 | the blend (1 - alpha) previous + alpha current, componentwise, of the same length |
| SpringDynamics.IsConverged | INTUAnimationEngine/SpringSolver/INTUSpringSolver.c:214-233 | started, every position component strictly below the position threshold in absolute value, squared speed and squared acceleration strictly below their thresholds |
| Vectors.SumOfSquares | INTUAnimationEngine/SpringSolver/INTUVector.h:73-82 | the sum of v[i] * v[i] added in index order, as the loop adds them; its sign is stated by SumOfSquaresNonNegative |
| SpringDynamics.ThresholdsConsistent | INTUAnimationEngine/SpringSolver/INTUSpringSolver.c:254-259 | for a scale tau >= 0, the position threshold is non-negative, the velocity threshold is 50 times it and the acceleration threshold is the velocity threshold squared; all three are zero if and only if tau is zero |
| SpringDynamics.ThresholdScale | INTUAnimationEngine/SpringSolver/INTUSpringSolver.c:153-156 | the scale norm(initial) * 0.0001 is non-negative, its square is the squared norm times 0.0001 squared, and it is zero if and only if the initial position is the zero vector |
| SpringDynamics.ZeroThresholdNeverConverges | INTUAnimationEngine/SpringSolver/INTUSpringSolver.c:222-226 | with a zero position threshold, no state passes the convergence test |
| SpringDynamics.AccelerationAtRest | INTUAnimationEngine/SpringSolver/INTUSpringSolver.c:342-354 | the spring exerts no acceleration at zero position and zero velocity |
| SpringDynamics.Rk4StepAtRest | INTUAnimationEngine/SpringSolver/INTUSpringSolver.c:261-292 | one Runge-Kutta step maps the rest state to itself and reports zero acceleration |
| SpringDynamics.RunAtRest | INTUAnimationEngine/SpringSolver/INTUSpringSolver.c:192-200 | any number of fixed steps from the rest state with zero acceleration stays at rest with zero acceleration |
| SpringDynamics.RunSucceeds | INTUAnimationEngine/SpringSolver/INTUSpringSolver.c:192-200 | pass n + 1 of the loop makes the current state after n passes the previous state and one Runge-Kutta step from it the current state and acceleration |
| SpringDynamics.Rk4SlopeByStages | INTUAnimationEngine/SpringSolver/INTUSpringSolver.c:276-283 | the four slope evaluations at the start, twice at the half step and at the full step, weighted (a + 2b + 2c + d) / 6, give the classical Runge-Kutta slope componentwise |
| SpringDynamics.Rk4StepBySlope | INTUAnimationEngine/SpringSolver/INTUSpringSolver.c:285-291 | a step moves position and velocity by dt along the combined slope and reports the slope's velocity part as the acceleration |
| SpringDynamics.StepCountBounds | INTUAnimationEngine/SpringSolver/INTUSpringSolver.c:192-200 | after the step count of whole steps, between 0 and less than one step of time is left |
| SpringDynamics.StepCountAtLeast | INTUAnimationEngine/SpringSolver/INTUSpringSolver.c:192-200 | every number of whole steps that fits in the total is at most the step count |
| SpringDynamics.StepCountUnique | INTUAnimationEngine/SpringSolver/INTUSpringSolver.c:192-200 | the step count is the only count that leaves a remainder in [0, dt) |
| SpringDynamics.LerpSame | INTUAnimationEngine/SpringSolver/INTUSpringSolver.c:356-375 | blending a state with itself gives that state for every alpha, so an advance that takes no step leaves the state unchanged |
| SpringDynamics.LerpAtZero | INTUAnimationEngine/SpringSolver/INTUSpringSolver.c:202-207 | a blend factor of 0 selects the previous step state, which is one step behind the last state computed |
| SpringSolver.Context.Allocate | INTUAnimationEngine/SpringSolver/INTUSpringSolver.c:147 | a new context has three fresh, distinct buffers of the solver's dimension |
| SpringSolver.Context.Reset | INTUAnimationEngine/SpringSolver/INTUSpringSolver.c:237-245 | time and accumulator become 0, the three state buffers become zero, `started` becomes false, and constants and thresholds are untouched |
| SpringSolver.Context.SetConstants | INTUAnimationEngine/SpringSolver/INTUSpringSolver.c:247-252 | the three constants are stored unchanged and nothing else changes |
| SpringSolver.Context.SetThreshold | INTUAnimationEngine/SpringSolver/INTUSpringSolver.c:254-259 | the thresholds become tau / 2, 25 tau and 625 tau^2, and nothing else changes |
| SpringSolver.Context.Acceleration | INTUAnimationEngine/SpringSolver/INTUSpringSolver.c:342-354 | the output is the spring equation's acceleration at the old position and velocity |
| SpringSolver.Context.Evaluate | INTUAnimationEngine/SpringSolver/INTUSpringSolver.c:308-317 | the outputs are the state's derivative: the velocity and the acceleration |
| SpringSolver.Context.EvaluateWithDerivative | INTUAnimationEngine/SpringSolver/INTUSpringSolver.c:319-340 | the outputs are the derivative at the state reached by following the input slope for dt |
| SpringSolver.Context.TrialSlopes | INTUAnimationEngine/SpringSolver/INTUSpringSolver.c:269-280 | the four buffers hold the slope at the start, then the slopes after dt/2 along the first, dt/2 along the second and dt along the third |
| SpringSolver.Context.WeightedDerivatives | INTUAnimationEngine/SpringSolver/INTUSpringSolver.c:269-283 | the two buffers hold the combined Runge-Kutta slope of a step of dt |
| SpringSolver.Context.Integrate | INTUAnimationEngine/SpringSolver/INTUSpringSolver.c:261-292 | the outputs are the next state of one Runge-Kutta step of dt, and the cached acceleration is that step's combined acceleration |
| SpringSolver.Context.StepOnce | INTUAnimationEngine/SpringSolver/INTUSpringSolver.c:193-196 | if the buffers hold the run after n passes, then after this pass they hold the run after n + 1 passes |
| SpringSolver.Context.TakeFixedSteps | INTUAnimationEngine/SpringSolver/INTUSpringSolver.c:192-200 | the loop takes exactly floor(accumulated / dt) steps and leaves the remainder in the accumulator; the buffers hold the previous and current states of that run and the acceleration of its last step |
| SpringSolver.Context.CopyState | INTUAnimationEngine/SpringSolver/INTUSpringSolver.c:184-190 | four fresh, distinct buffers, where both the current and the previous copies hold the context's position and velocity |
| SpringSolver.Context.Steps | INTUAnimationEngine/SpringSolver/INTUSpringSolver.c:184-200 | the local buffers hold the run of floor(accumulated / dt) steps from the context's state; the accumulator keeps the remainder |
| SpringSolver.Context.Blend | INTUAnimationEngine/SpringSolver/INTUSpringSolver.c:202-211 | the context's position and velocity become the blend of previous and current by accumulatedTime / dt, and the returned position is the new position |
| SpringSolver.Context.Advance | INTUAnimationEngine/SpringSolver/INTUSpringSolver.c:169-212 | on rewind: reset context, zero result and not started; otherwise: started, time updated, remainder in [0, dt) kept, acceleration from the last step, and position and velocity from the blend by the remainder of the last two step states; with less than a step of time, the state is unchanged; `Valid` is preserved |
| SpringSolver.Context.HasConverged | INTUAnimationEngine/SpringSolver/INTUSpringSolver.c:214-233 | the result is the convergence predicate; it is false if not started, false if some position component is at or beyond the threshold, and false with a zero position threshold |
| SpringSolver.Create | INTUAnimationEngine/SpringSolver/INTUSpringSolver.c:133-162 | null if and only if a constant is out of range or an initial vector is missing; otherwise a fresh valid context with the constants, copies of the initial vectors, zero acceleration, time 0, not started, and thresholds from norm(initial position) * 0.0001, all zero for a zero initial position |
| SpringSolver.Derivative | INTUAnimationEngine/SpringSolver/INTUSpringSolver.c:294-306 | the output is (a + 2b + 2c + d) / 6 of the old inputs, computed in place |
| SpringSolver.Interpolate | INTUAnimationEngine/SpringSolver/INTUSpringSolver.c:356-375 | the outputs are (1 - alpha) previous + alpha current for position and velocity |
| SpringSolver.AccelerationByKernel | INTUAnimationEngine/SpringSolver/INTUSpringSolver.c:350-353 | p * (-k/m) - v * (b/m), as the kernel calls compute it, is the spring acceleration |
| SpringSolver.AdvancedByKernel | INTUAnimationEngine/SpringSolver/INTUSpringSolver.c:332-336 | x + dx * h, as the kernel calls compute it, is x advanced by h along dx |
| SpringSolver.WeightedSlopeByKernel | INTUAnimationEngine/SpringSolver/INTUSpringSolver.c:301-305 | ((a + 2(b + c)) + d) / 6, as the kernel calls compute it, is the Runge-Kutta weighting |
| SpringSolver.LerpByKernel | INTUAnimationEngine/SpringSolver/INTUSpringSolver.c:367-374 | current * alpha + previous * (1 - alpha), as the kernel calls compute it, is the linear blend |
| Easing.Linear | Source/INTUEasingFunctions.c:29-33 | 0 maps to 0 and 1 maps to 1 |
| Easing.EaseInQuadratic | Source/INTUEasingFunctions.c:53-57 | 0 maps to 0 and 1 maps to 1 |
| Easing.EaseOutQuadratic | Source/INTUEasingFunctions.c:59-63 | 0 maps to 0 and 1 maps to 1 |
| Easing.EaseInOutQuadratic | Source/INTUEasingFunctions.c:65-78 | 0 maps to 0 and 1 maps to 1 |
| Easing.OutQuadraticClosedForm | Source/INTUEasingFunctions.c:59-63 | the Out quadratic is y = -x^2 + 2x |
| Easing.InOutQuadraticClosedForm | Source/INTUEasingFunctions.c:65-78 | the InOut quadratic is (1/2)(2x)^2 below 1/2 and -(1/2)((2x - 1)(2x - 3) - 1) from 1/2 on |
| Easing.QuadraticReflection | Source/INTUEasingFunctions.c:53-63 | Out(p) = 1 - In(1 - p) |
| Easing.QuadraticHalves | Source/INTUEasingFunctions.c:53-78 | InOut(p) is (1/2) In(2p) below 1/2 and (1/2) Out(2p - 1) + 1/2 from 1/2 on, so both halves meet at 1/2 |
| Easing.EaseInCubic | Source/INTUEasingFunctions.c:80-84 | 0 maps to 0 and 1 maps to 1 |
| Easing.EaseOutCubic | Source/INTUEasingFunctions.c:86-91 | 0 maps to 0 and 1 maps to 1 |
| Easing.EaseInOutCubic | Source/INTUEasingFunctions.c:93-107 | 0 maps to 0 and 1 maps to 1 |
| Easing.OutCubicClosedForm | Source/INTUEasingFunctions.c:86-91 | the Out cubic is y = (x - 1)^3 + 1 |
| Easing.InOutCubicClosedForm | Source/INTUEasingFunctions.c:93-107 | the InOut cubic is (1/2)(2x)^3 below 1/2 and (1/2)((2x - 2)^3 + 2) from 1/2 on |
| Easing.CubicReflection | Source/INTUEasingFunctions.c:80-91 | Out(p) = 1 - In(1 - p) |
| Easing.CubicHalves | Source/INTUEasingFunctions.c:80-107 | InOut(p) is (1/2) In(2p) below 1/2 and (1/2) Out(2p - 1) + 1/2 from 1/2 on, so both halves meet at 1/2 |
| Easing.EaseInQuartic | Source/INTUEasingFunctions.c:109-113 | 0 maps to 0 and 1 maps to 1 |
| Easing.EaseOutQuartic | Source/INTUEasingFunctions.c:115-120 | 0 maps to 0 and 1 maps to 1 |
| Easing.EaseInOutQuartic | Source/INTUEasingFunctions.c:122-136 | 0 maps to 0 and 1 maps to 1 |
| Easing.OutQuarticClosedForm | Source/INTUEasingFunctions.c:115-120 | the Out quartic is y = 1 - (x - 1)^4 |
| Easing.InOutQuarticClosedForm | Source/INTUEasingFunctions.c:122-136 | the InOut quartic is (1/2)(2x)^4 below 1/2 and -(1/2)((2x - 2)^4 - 2) from 1/2 on |
| Easing.QuarticReflection | Source/INTUEasingFunctions.c:109-120 | Out(p) = 1 - In(1 - p) |
| Easing.QuarticHalves | Source/INTUEasingFunctions.c:109-136 | InOut(p) is (1/2) In(2p) below 1/2 and (1/2) Out(2p - 1) + 1/2 from 1/2 on, so both halves meet at 1/2 |
| Easing.EaseInQuintic | Source/INTUEasingFunctions.c:138-142 | 0 maps to 0 and 1 maps to 1 |
| Easing.EaseOutQuintic | Source/INTUEasingFunctions.c:144-149 | 0 maps to 0 and 1 maps to 1 |
| Easing.EaseInOutQuintic | Source/INTUEasingFunctions.c:151-165 | 0 maps to 0 and 1 maps to 1 |
| Easing.OutQuinticClosedForm | Source/INTUEasingFunctions.c:144-149 | the Out quintic is y = (x - 1)^5 + 1 |
| Easing.InOutQuinticClosedForm | Source/INTUEasingFunctions.c:151-165 | the InOut quintic is (1/2)(2x)^5 below 1/2 and (1/2)((2x - 2)^5 + 2) from 1/2 on |
| Easing.QuinticReflection | Source/INTUEasingFunctions.c:138-149 | Out(p) = 1 - In(1 - p) |
| Easing.QuinticHalves | Source/INTUEasingFunctions.c:138-165 | InOut(p) is (1/2) In(2p) below 1/2 and (1/2) Out(2p - 1) + 1/2 from 1/2 on, so both halves meet at 1/2 |
| Easing.EaseInExponential | Source/INTUEasingFunctions.c:167-171 | the guard: 0 maps to 0, whatever pow computes |
| Easing.EaseOutExponential | Source/INTUEasingFunctions.c:173-177 | the guard: 1 maps to 1, whatever pow computes |
| Easing.EaseInOutExponential | Source/INTUEasingFunctions.c:179-194 | the guards: 0 maps to 0 and 1 maps to 1, whatever pow computes |
| Easing.EaseOutBounce | Source/INTUEasingFunctions.c:285-303 | 0 maps to 0 and 1 maps to 1 |
| Easing.EaseInBounce | Source/INTUEasingFunctions.c:280-283 | 0 maps to 0 and 1 maps to 1 |
| Easing.EaseInOutBounce | Source/INTUEasingFunctions.c:305-315 | 0 maps to 0, 1 maps to 1, and 1/2 maps to 1/2 |
| Easing.BounceArcsMeet | Source/INTUEasingFunctions.c:285-303 | adjacent arcs of the Out bounce agree at 4/11, 8/11 and 9/10, where both equal 1, so the curve is continuous |
| Easing.InOutBounceHalvesMeet | Source/INTUEasingFunctions.c:305-315 | the lower half ends, and the upper half starts, at 1/2 |
| Easing.BounceArcsBounded | Source/INTUEasingFunctions.c:285-303 | each arc of the Out bounce stays within [0, 1] on its interval |
| Easing.BounceBounded | Source/INTUEasingFunctions.c:280-315 | the Out, In and InOut bounce curves map [0, 1] into [0, 1] |

## Left out

- Floating point: `double` and `CGFloat` are modelled as exact reals. IEEE rounding is not modelled. In particular, the repeated subtraction of 0.001 from the accumulator can end with a different step count in the C code than the exact floor of the model.
- `sqrt` and `pow` of the C library are not part of this model. The norm takes a square-root function as a parameter, constrained to be the non-negative square root. The Exponential curves take `pow` as a parameter, and only their guards are stated.
- The solver's dimension is fixed at the default of 1. A build that defines another dimension is not modelled. The vector kernel is proved for any dimension.
- `INTUSpringSolverContextDestroy` (the `free` of a context) is left out: the model has no explicit deallocation. `malloc` in the creation function is assumed to succeed, as the C code assumes.
- Calling advance or convergence check on a missing or destroyed context is undefined in C. The methods require a valid context.
- The time argument `t` of the acceleration and evaluation functions is passed along and not used, as in C.
- SpringSolver.Context.TrialSlopes, WeightedDerivatives, StepOnce, Steps, CopyState and Blend are sections of `integrate` and `INTUAdvanceSpringSolver`, stated separately so that each proof stays small. They are not functions of the C code.
- The Sine, Circular, Back and Elastic easing curves, and the non-guard branches of the Exponential curves, are left out. They depend on `sin`, `cos`, `sqrt` and `pow`; the Exponential branches are modelled with `pow` as a parameter only.
- The Objective-C animation engine (`INTUAnimationEngine.h`), the interpolation helpers (`INTUInterpolationFunctions.h`) and the remaining headers are not part of this model. They schedule frames and interpolate view properties.
- Energy decay under damping, and perpetual motion without damping, are not proved. They are asymptotic properties of the differential equation, not of the code's finite computation.
