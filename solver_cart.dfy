/** The cart participant: a Newmark integrator on the cart's lumped mass
    and spring, excited by the pendulum's inertial reaction. */
module SolverCart {
  import opened TimeSteppers
  import opened Coupling
  import ProblemDefinition

  /** Newmark with beta = 1/4 and gamma = 1/2 on the cart's effective mass
      and stiffness, starting from the cart's initial position and velocity;
      its force law is  F = -m*l*theta''. */
  function CartParticipant(): (p: Participant)
    ensures p.stepper.Valid()
    ensures p.side.Cart? && p.side.pendulumMass * p.side.pendulumLength == 0.04
  {
    Participant(Cart(ProblemDefinition.PendulumMass, ProblemDefinition.PendulumLength),
                NewmarkBeta(ProblemDefinition.CartEffectiveMass, ProblemDefinition.CartEffectiveStiffness,
                            beta := 0.25, gamma := 0.5),
                ProblemDefinition.X0, ProblemDefinition.V0)
  }

  /** The cart's main loop.  It records a first row at time zero with the
      initial state, then one row per iteration whose state solves
      5.01*x'' + 20*x == -0.04*theta'' for the pendulum acceleration read in
      that iteration (zero when nothing was read); each iteration writes its
      new acceleration to the pendulum. */
  method Simulate(analytic: real -> Analytic, initialData: bool, script: seq<Answer>)
    returns (rows: seq<Row>, written: seq<real>, advanced: seq<real>)
    ensures rows == Run(CartParticipant(), analytic, script).rows
    ensures written == (if initialData then [0.0] else []) + Run(CartParticipant(), analytic, script).written
    ensures advanced == Run(CartParticipant(), analytic, script).advanced
    ensures |rows| == |script| + 1
    ensures rows[0] == Row(0.0, 0.0, 0.1, 0.0, Reference(CartParticipant().side, analytic(0.0)))
    ensures forall k :: 0 <= k < |script| ==>
              5.01 * rows[k + 1].a + 20.0 * rows[k + 1].u == -0.04 * PartnerAcceleration(script[k].partner)
    ensures forall j :: 1 <= j < |rows| ==> written[j - 1 + (if initialData then 1 else 0)] == rows[j].a
  {
    var p := CartParticipant();
    rows, written, advanced := Drive(p, analytic, initialData, script);
    RunPrefix(p, analytic, script, 0);
    forall k | 0 <= k < |script|
      ensures 5.01 * rows[k + 1].a + 20.0 * rows[k + 1].u == -0.04 * PartnerAcceleration(script[k].partner)
    {
      RowsSatisfyEquationOfMotion(p, analytic, script, k);
      CartEquation(rows[k + 1].u, rows[k + 1].a, PartnerAcceleration(script[k].partner));
    }
    forall j | 1 <= j < |rows|
      ensures written[j - 1 + (if initialData then 1 else 0)] == rows[j].a
    {
      WrittenIsCommittedAcceleration(p, analytic, script, j - 1);
    }
  }

  /** A first unforced step of 0.01 s from the cart's initial state (at rest
      position, moving at 0.1): the predicted displacement 0.001 pulls the
      spring, so the new acceleration is -20*0.001/5.0105 and the new
      velocity drops by half a step of it. */
  lemma FirstFreeStep()
    ensures var r := CartParticipant().stepper.DoStep(0.0, 0.1, 0.0, 0.0, 0.01);
            r.a == -0.02 / 5.0105 && r.v == 0.1 + 0.005 * r.a && r.u == 0.001 + 0.000025 * r.a
  {
    var s := CartParticipant().stepper;
    assert s == NewmarkBeta(5.01, 20.0, 0.25, 0.5);
    assert s.EffectiveMass(0.01) == 5.0105;
    assert s.Predictor(0.0, 0.1, 0.0, 0.01) == 0.001;
  }

  /** The balance the generic loop proves, written out with this
      participant's constants. */
  lemma CartEquation(u: real, a: real, x: real)
    requires CartParticipant().stepper.InBalance(u, a, Force(CartParticipant().side, x))
    ensures 5.01 * a + 20.0 * u == -0.04 * x
  {
  }
}
