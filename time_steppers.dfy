/** The Newmark-beta single-step integrator for the one-degree-of-freedom
    equation of motion  M*u'' + K*u = F,  over exact real arithmetic. */
module TimeSteppers {

  /** The displacement, velocity and acceleration returned by one step. */
  datatype Kinematics = Kinematics(u: real, v: real, a: real)

  /** An integrator: its four parameters are given once, when it is built
      (beta and gamma default to the average-acceleration values), and no
      operation changes them. */
  datatype NewmarkBeta = NewmarkBeta(mass: real, stiffness: real, beta: real := 0.25, gamma: real := 0.5)
  {
    /** Physically meaningful parameters: positive mass, non-negative
        stiffness and beta. */
    predicate Valid() {
      mass > 0.0 && stiffness >= 0.0 && beta >= 0.0
    }

    /** The effective mass M + beta*dt^2*K that divides the force balance;
        for valid parameters it is positive whatever the step size, so the
        division in DoStep is always defined. */
    function EffectiveMass(dt: real): (mEff: real)
      ensures Valid() ==> mEff >= mass > 0.0
    {
      var dt2 := dt * dt;
      assert dt2 >= 0.0;
      assert Valid() ==> beta * dt2 >= 0.0;
      mass + beta * dt2 * stiffness
    }

    /** The displacement predicted from the old state alone. */
    function Predictor(u: real, v: real, a: real, dt: real): real {
      u + dt * v + 0.5 * (dt * dt) * (1.0 - 2.0 * beta) * a
    }

    /** One Newmark step with the force held constant over the step:
        predictor, effective mass, acceleration from the force balance,
        corrector.  The result satisfies the equation of motion at the end
        of the step and has Newmark's weighted corrector form;
        StepIsUniqueSolution below shows it is the only such triple. */
    function DoStep(u: real, v: real, a: real, F: real, dt: real): (r: Kinematics)
      requires EffectiveMass(dt) != 0.0
      ensures IsNewmarkStep(u, v, a, F, dt, r)
    {
      var uPred := Predictor(u, v, a, dt);
      var vPred := v + dt * (1.0 - gamma) * a;
      var mEff := EffectiveMass(dt);
      var aNew := (F - stiffness * uPred) / mEff;
      assert mEff * aNew == F - stiffness * uPred;
      CorrectorSplit(this, u, v, a, dt, aNew);
      Kinematics(uPred + beta * (dt * dt) * aNew, vPred + gamma * dt * aNew, aNew)
    }

    /** The equation of motion  M*a + K*u == F  at one instant. */
    predicate InBalance(u: real, a: real, F: real) {
      mass * a + stiffness * u == F
    }

    /** The implicit Newmark equations that a step from (u, v, a) under the
        force F must satisfy: the corrector relations and the equation of
        motion at the end of the step. */
    predicate IsNewmarkStep(u: real, v: real, a: real, F: real, dt: real, r: Kinematics) {
      && r.u == u + dt * v + dt * dt * ((0.5 - beta) * a + beta * r.a)
      && r.v == v + dt * ((1.0 - gamma) * a + gamma * r.a)
      && InBalance(r.u, r.a, F)
    }
  }

  /** DoStep computes THE solution of the implicit Newmark equations: its
      result satisfies them, and any triple that satisfies them is that
      result (the scalar system has exactly one solution). */
  lemma StepIsUniqueSolution(s: NewmarkBeta, u: real, v: real, a: real, F: real, dt: real, r: Kinematics)
    requires s.EffectiveMass(dt) != 0.0
    ensures s.IsNewmarkStep(u, v, a, F, dt, r) <==> r == s.DoStep(u, v, a, F, dt)
  {
    if s.IsNewmarkStep(u, v, a, F, dt, r) {
      NewmarkSolutionsAgree(s, u, v, a, F, dt, r, s.DoStep(u, v, a, F, dt));
    }
  }

  /** Two solutions of the implicit Newmark equations for the same data are
      equal, as long as the effective mass is non-zero. */
  lemma NewmarkSolutionsAgree(s: NewmarkBeta, u: real, v: real, a: real, F: real, dt: real, r1: Kinematics, r2: Kinematics)
    requires s.EffectiveMass(dt) != 0.0
    requires s.IsNewmarkStep(u, v, a, F, dt, r1) && s.IsNewmarkStep(u, v, a, F, dt, r2)
    ensures r1 == r2
  {
    SolvedAcceleration(s, u, v, a, F, dt, r1);
    SolvedAcceleration(s, u, v, a, F, dt, r2);
    assert r1.a == r2.a;
  }

  /** The acceleration of any solution of the Newmark equations is the force
      left after the spring's pull on the predicted displacement, divided by
      the effective mass. */
  lemma SolvedAcceleration(s: NewmarkBeta, u: real, v: real, a: real, F: real, dt: real, r: Kinematics)
    requires s.EffectiveMass(dt) != 0.0
    requires s.IsNewmarkStep(u, v, a, F, dt, r)
    ensures r.a == (F - s.stiffness * s.Predictor(u, v, a, dt)) / s.EffectiveMass(dt)
  {
    var h := s.beta * (dt * dt);
    CorrectorSplit(s, u, v, a, dt, r.a);
    ForceBalanceDeterminesAcceleration(s.mass, s.stiffness, h, s.EffectiveMass(dt), s.Predictor(u, v, a, dt), F, r.a);
  }

  /** The displacement corrector is the predicted displacement plus
      beta*dt^2 times the new acceleration. */
  lemma CorrectorSplit(s: NewmarkBeta, u: real, v: real, a: real, dt: real, x: real)
    ensures u + dt * v + dt * dt * ((0.5 - s.beta) * a + s.beta * x)
         == s.Predictor(u, v, a, dt) + s.beta * (dt * dt) * x
  {
  }

  /** The scalar force balance  M*x + K*(base + h*x) == F  has the single
      solution  x == (F - K*base) / mEff  when  mEff == M + h*K  is non-zero. */
  lemma ForceBalanceDeterminesAcceleration(M: real, K: real, h: real, mEff: real, base: real, F: real, x: real)
    requires mEff == M + h * K && mEff != 0.0
    requires M * x + K * (base + h * x) == F
    ensures x == (F - K * base) / mEff
  {
    assert mEff * x == F - K * base;
  }

  /** With the default parameters beta = 1/4 and gamma = 1/2 the step is the
      average-acceleration (trapezoidal) rule. */
  lemma AverageAcceleration(s: NewmarkBeta, u: real, v: real, a: real, F: real, dt: real)
    requires s.beta == 0.25 && s.gamma == 0.5
    requires s.EffectiveMass(dt) != 0.0
    ensures s.DoStep(u, v, a, F, dt).v == v + dt * (a + s.DoStep(u, v, a, F, dt).a) / 2.0
    ensures s.DoStep(u, v, a, F, dt).u == u + dt * v + dt * dt * (a + s.DoStep(u, v, a, F, dt).a) / 4.0
  {
  }

  /** Equilibrium is a fixed point: at rest, unloaded, the step stays there. */
  lemma ZeroIsFixedPoint(s: NewmarkBeta, dt: real)
    requires s.EffectiveMass(dt) != 0.0
    ensures s.DoStep(0.0, 0.0, 0.0, 0.0, dt) == Kinematics(0.0, 0.0, 0.0)
  {
  }
}
