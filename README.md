# Cart-pendulum coupling: Newmark integrator and checkpoint loop

This project models the numerical core of the cart-pendulum example of a
preCICE-coupled simulation. A cart on a spring carries a pendulum. Two
separate participants, the cart and the pendulum, each integrate one
degree of freedom and exchange accelerations through the preCICE
coordinator.

- `time_steppers.dfy` (module `TimeSteppers`) models the Newmark-beta
  integrator class. `NewmarkBeta` is a datatype: its four parameters are
  set once when it is built, with beta = 1/4 and gamma = 1/2 by default,
  and nothing changes them. `DoStep` is a function, so repeated calls with
  the same inputs give the same outputs. The arithmetic is exact over
  `real`.
- `problem_definition.dfy` (module `ProblemDefinition`) holds the physical
  constants, the initial conditions and each subsystem's lumped mass and
  stiffness.
- `coupling.dfy` (module `Coupling`) models the coupling loop that both
  participant scripts run. The coordinator is represented by a script:
  one `Answer` per loop iteration, giving
  - whether to restore the checkpoint,
  - the step size,
  - the partner's value, if any,
  - whether to save a checkpoint.
  
  The loop hands back the values it writes and the step sizes it advances
  by; these are recorded as output logs.
  - `Drive` is the imperative loop. It reassigns the live and checkpoint
    variables and appends to the result list.
  - `Advance` is one iteration's body.
  - `Drive` is proved equal to the specification function `Run`, which is
    built from `Iteration`.
  - The lemmas state what the loop promises: exact rollback, a checkpoint
    that changes only on request, time advancing by exactly dt, one row
    per iteration, and rows that solve the equation of motion.
- `solver_cart.dfy` and `solver_pendulum.dfy` instantiate the loop. The
  cart uses the force `F = -m*l*theta''` and four reference columns. The
  pendulum uses `F = -x''` and two reference columns.

Three facts about the code shape what the model promises:

- **Row times can decrease.** The loop appends a result row in every
  iteration, including iterations that a later restore rolls back, so a
  row time can be smaller than the one before it
  (`Coupling.RowTimesCanDecrease`). Times increase only for scripts
  without restores and with positive step sizes
  (`Coupling.RowTimesIncreaseWithoutRestore`).
- **Nothing checks the sign of the effective mass.** The integrator
  divides by it unchecked (cart-pendulum/timeSteppers.py:18-21); only a
  zero effective mass goes wrong, by dividing by zero (an error or a
  non-finite value). `DoStep` therefore requires only a non-zero
  effective mass.
- **The cart's first step divides by 5.0105.** For dt = 0.01 the effective
  mass is 5.01 + 0.25*0.01²*20 = 5.0105, not the lumped mass 5.01
  (`SolverCart.FirstFreeStep`).

## Model

| member | source | states |
|---|---|---|
| TimeSteppers.NewmarkBeta.EffectiveMass | cart-pendulum/timeSteppers.py:18 | for mass > 0, stiffness >= 0 and beta >= 0, the effective mass is at least the mass and so positive for every dt; the division that computes the new acceleration is always defined |
| TimeSteppers.NewmarkBeta.DoStep | cart-pendulum/timeSteppers.py:8-27 | one step (predictor, effective mass, acceleration from the force balance, corrector); its result satisfies M*a_new + K*u_new == F at the new time, and it has the corrector form u_new == u + dt*v + dt²*((1/2 - beta)*a + beta*a_new) and v_new == v + dt*((1 - gamma)*a + gamma*a_new) |
| TimeSteppers.StepIsUniqueSolution | cart-pendulum/timeSteppers.py:13-27 | a triple satisfies the implicit Newmark equations if and only if it is the step's result, so the closed-form update is the one solution |
| TimeSteppers.NewmarkSolutionsAgree | cart-pendulum/timeSteppers.py:18-21 | two solutions of the Newmark equations for the same data are equal when the effective mass is non-zero |
| TimeSteppers.SolvedAcceleration | cart-pendulum/timeSteppers.py:14-21 | any solution's acceleration is (F - K*u_pred)/M_eff, which is the formula the step uses |
| TimeSteppers.AverageAcceleration | cart-pendulum/timeSteppers.py:2-27 | with beta = 1/4 and gamma = 1/2 the step is the average-acceleration rule: v_new == v + dt*(a + a_new)/2 and u_new == u + dt*v + dt²*(a + a_new)/4 |
| TimeSteppers.ZeroIsFixedPoint | cart-pendulum/timeSteppers.py:14-27 | at rest and unloaded (u = v = a = 0, F = 0), one step returns (0, 0, 0) |
| Coupling.PartnerAcceleration | cart-pendulum/solver-cart.py:68-69 | the partner's acceleration is the value read, or 0.0 when the read is empty |
| Coupling.Force | cart-pendulum/solver-cart.py:71-72 | the cart's force is -(m*l) times the pendulum acceleration, the pendulum's is minus the cart acceleration, and a zero acceleration gives zero force |
| Coupling.ForceFromRead | cart-pendulum/solver-cart.py:68-72 | an empty read gives force 0; a value read gives -m*l*value for the cart and -value for the pendulum |
| Coupling.RowLayout | cart-pendulum/solver-cart.py:53-54 | a result row holds the committed (t, u, v, a) followed by the reference columns taken at that same time: four for the cart (position and velocity first), two for the pendulum, the angle and angular velocity always last |
| Coupling.Iteration | cart-pendulum/solver-cart.py:59-89 | the committed time is dt after the restored or live time; the written value is the committed acceleration; the checkpoint becomes the committed state on a save request and is otherwise unchanged |
| Coupling.IterationSolvesEquationOfMotion | cart-pendulum/solver-cart.py:72-76 | an iteration's committed state solves the equation of motion under the force from its read, and it is the Newmark step from the restored or live state |
| Coupling.Run | cart-pendulum/solver-cart.py:48-93 | a run over n answers has n+1 rows, n written values and n advances |
| Coupling.LastRowIsLive | cart-pendulum/solver-cart.py:89-93 | the last row of every run records the live state |
| Coupling.Advance | cart-pendulum/solver-cart.py:60-89 | one loop body (restore, read, step, write, save, commit) produces exactly the iteration's outcome |
| Coupling.Drive | cart-pendulum/solver-cart.py:29-93 | the imperative loop's rows and advances are those of Run; the written log is the optional initial 0.0 followed by Run's written values |
| Coupling.InitialCheckpoint | cart-pendulum/solver-cart.py:41-54 | before the loop, the checkpoint and the live state are (u0, v0, 0, 0), and the result list is one row at t = 0 |
| Coupling.RestoreIsExact | cart-pendulum/solver-cart.py:60-62 | once a restore is requested, the iteration's outcome does not depend on the live state it replaced |
| Coupling.RunPrefix | cart-pendulum/solver-cart.py:79-93 | rows, written values and advances are only ever appended: a run over a prefix of the script is a prefix of the run |
| Coupling.IterationInRun | cart-pendulum/solver-cart.py:57-93 | iteration k of a run adds row k+1 with its committed state, writes its acceleration and advances by its own dt |
| Coupling.TimeAdvancesByDt | cart-pendulum/solver-cart.py:65-89 | row k+1's time is dt after the previous row's time, or after the checkpoint's time when the iteration restored, and the same dt is passed to advance |
| Coupling.WrittenIsCommittedAcceleration | cart-pendulum/solver-cart.py:75-89 | the value written in iteration k equals the acceleration committed in row k+1 |
| Coupling.RowsSatisfyEquationOfMotion | cart-pendulum/solver-cart.py:68-93 | every row after the first satisfies M*a + K*u == F for the force derived from that iteration's read |
| Coupling.RowTimesIncreaseWithoutRestore | cart-pendulum/solver-cart.py:76-93 | without restore requests and with positive step sizes, row times strictly increase |
| Coupling.RowTimesCanDecrease | cart-pendulum/solver-cart.py:60-93 | a step of dt = 1 followed by a restore and a step of dt = 1/2 records time 1/2 after time 1, so row times are not monotone in general |
| Coupling.CheckpointWithoutSave | cart-pendulum/solver-cart.py:48-83 | if no iteration requests a save, the checkpoint stays the initial state |
| Coupling.CheckpointIsLastSave | cart-pendulum/solver-cart.py:82-83 | after a run, the checkpoint is the state committed by the last iteration that requested a save |
| Coupling.UnsavedIterationsKeepCheckpoint | cart-pendulum/solver-cart.py:82-83 | iterations without a save request leave the checkpoint as it was |
| Coupling.RejectedIterationsLeaveNoTrace | cart-pendulum/solver-cart.py:60-83 | after iterations that did not save, a restoring iteration has the same outcome as if it had directly followed the iterations before them |
| SolverCart.CartParticipant | cart-pendulum/solver-cart.py:36-43 | the cart uses valid Newmark parameters, and its force law has m*l = 0.04 |
| SolverCart.Simulate | cart-pendulum/solver-cart.py:29-93 | the cart's loop gives a first row (0, 0, 0.1, 0) at t = 0; every later row solves 5.01*x'' + 20*x == -0.04*theta'' for the value read (0 when empty); and each value written after the optional initial 0.0 is that row's acceleration |
| SolverCart.FirstFreeStep | cart-pendulum/timeSteppers.py:14-25 | the cart's first unforced step of dt = 0.01 gives a_new = -0.02/5.0105, v_new = 0.1 + 0.005*a_new and u_new = 0.001 + 0.000025*a_new |
| SolverCart.CartEquation | cart-pendulum/solver-cart.py:36-38 | with the cart's parameters, the balance is 5.01*a + 20*u == -0.04*theta'' |
| SolverPendulum.PendulumParticipant | cart-pendulum/solver-pendulum.py:39-51 | the pendulum uses valid Newmark parameters and the force law F = -x'' |
| SolverPendulum.Simulate | cart-pendulum/solver-pendulum.py:30-99 | the pendulum's loop gives a first row (0, 0, -0.01, 0) at t = 0 with the reference angle and angular velocity; every later row solves 4*theta'' + 9.81*theta == -x'' for the value read (0 when empty); and each value written after the optional initial 0.0 is that row's acceleration |
| SolverPendulum.PendulumEquation | cart-pendulum/solver-pendulum.py:39-41 | with the pendulum's parameters, the balance is 4*a + 9.81*u == -x'' |

## Left out

- preCICE itself is not modelled: participant construction, mesh and vertex setup, `initialize`, `finalize`, and the data exchange. The coordinator's answers are an input script and the written values and advances are output logs, so `is_coupling_ongoing` becomes "the script has another answer".
- The mesh and vertex ids passed to `read_data` and `write_data` are not modelled. The cart reads vertex 0; the pendulum reads its own vertex.
- The call to `advance` is modelled only as a log entry. The order of saving the checkpoint and calling `advance`, which differs in comments between the two scripts, has no effect in the model.
- The analytical reference solution in `cart-pendulum/problemDefinition.py` is not part of this model. It rests on floating-point root finding, a linear solve and trigonometry. Its values enter the rows through an uninterpreted function of time.
- The pendulum script's eigenfrequency printout after the loop is not modelled, for the same reason.
- CSV writing, directory creation and console printing are plain I/O and are left out.
- The plotting script is left out.
- IEEE-754 rounding, NaN and overflow are not modelled: the arithmetic is exact over `real`. Accuracy against the reference solution is not a property of this code that can be proved.
- The interplay of the two participant processes is left out. Each loop is modelled on its own against an arbitrary script, so the values it reads are arbitrary.
- TimeSteppers.NewmarkBeta.DoStep: a zero effective mass is excluded by its precondition; the script instead divides by zero there (an error or a non-finite value), and the model does not describe that outcome.
- Coupling.Run: it and the loop lemmas require valid integrator parameters (positive mass, non-negative stiffness and beta), under which the effective mass is never zero. The scripts instead divide by zero (an error or a non-finite value) only for parameters whose effective mass is zero for some step size; `TimeSteppers.NewmarkBeta.DoStep` keeps that exact non-zero requirement. `Valid()` also excludes non-physical parameters that never divide by zero, such as mass -1 with stiffness 0, which `DoStep` accepts; the model does not cover loops over those. Both participants' parameters are valid (`SolverCart.CartParticipant`, `SolverPendulum.PendulumParticipant`).
