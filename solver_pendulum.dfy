/** The pendulum participant: a Newmark integrator on the linearised
    pendulum  l*theta'' + g*theta = -x'', excited by the cart's
    acceleration. */
module SolverPendulum {
  import opened TimeSteppers
  import opened Coupling
  import ProblemDefinition

  /** Newmark with beta = 1/4 and gamma = 1/2 on the pendulum's effective
      mass (its length) and stiffness (gravity), starting from the initial
      angle and angular velocity; its force law is  F = -x''. */
  function PendulumParticipant(): (p: Participant)
    ensures p.stepper.Valid()
    ensures p.side.Pendulum?
  {
    Participant(Pendulum,
                NewmarkBeta(ProblemDefinition.PendulumEffectiveMass, ProblemDefinition.PendulumEffectiveStiffness,
                            beta := 0.25, gamma := 0.5),
                ProblemDefinition.Theta0, ProblemDefinition.Omega0)
  }

  /** The pendulum's main loop.  It records a first row at time zero with
      the initial state, then one row per iteration whose state solves
      4*theta'' + 9.81*theta == -x'' for the cart acceleration read in that
      iteration (zero when nothing was read); each iteration writes its new
      angular acceleration to the cart. */
  method Simulate(analytic: real -> Analytic, initialData: bool, script: seq<Answer>)
    returns (rows: seq<Row>, written: seq<real>, advanced: seq<real>)
    ensures rows == Run(PendulumParticipant(), analytic, script).rows
    ensures written == (if initialData then [0.0] else []) + Run(PendulumParticipant(), analytic, script).written
    ensures advanced == Run(PendulumParticipant(), analytic, script).advanced
    ensures |rows| == |script| + 1
    ensures rows[0] == Row(0.0, 0.0, -0.01, 0.0, [analytic(0.0).theta, analytic(0.0).dtheta])
    ensures forall k :: 0 <= k < |script| ==>
              4.0 * rows[k + 1].a + 9.81 * rows[k + 1].u == - PartnerAcceleration(script[k].partner)
    ensures forall j :: 1 <= j < |rows| ==> written[j - 1 + (if initialData then 1 else 0)] == rows[j].a
  {
    var p := PendulumParticipant();
    rows, written, advanced := Drive(p, analytic, initialData, script);
    RunPrefix(p, analytic, script, 0);
    forall k | 0 <= k < |script|
      ensures 4.0 * rows[k + 1].a + 9.81 * rows[k + 1].u == - PartnerAcceleration(script[k].partner)
    {
      RowsSatisfyEquationOfMotion(p, analytic, script, k);
      PendulumEquation(rows[k + 1].u, rows[k + 1].a, PartnerAcceleration(script[k].partner));
    }
    forall j | 1 <= j < |rows|
      ensures written[j - 1 + (if initialData then 1 else 0)] == rows[j].a
    {
      WrittenIsCommittedAcceleration(p, analytic, script, j - 1);
    }
  }

  /** The balance the generic loop proves, written out with this
      participant's constants. */
  lemma PendulumEquation(u: real, a: real, x: real)
    requires PendulumParticipant().stepper.InBalance(u, a, Force(PendulumParticipant().side, x))
    ensures 4.0 * a + 9.81 * u == - x
  {
  }
}
