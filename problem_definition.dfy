/** Physical constants and initial conditions of the cart-pendulum system,
    and the lumped one-degree-of-freedom parameters each subsystem uses.
    The analytical two-mode reference solution is not part of this model:
    its values enter the result rows as an opaque function of time. */
module ProblemDefinition {

  const CartMass: real := 5.0
  const PendulumMass: real := 0.01
  const PendulumLength: real := 4.0
  const SpringStiffness: real := 20.0
  const Gravity: real := 9.81

  /** Initial cart position and velocity, pendulum angle and angular velocity. */
  const X0: real := 0.0
  const V0: real := 0.1
  const Theta0: real := 0.0
  const Omega0: real := -0.01

  /** The cart carries the pendulum's mass and is held by the spring. */
  const CartEffectiveMass: real := CartMass + PendulumMass
  const CartEffectiveStiffness: real := SpringStiffness

  /** The linearised pendulum equation  l*theta'' + g*theta = -x''. */
  const PendulumEffectiveMass: real := PendulumLength
  const PendulumEffectiveStiffness: real := Gravity
}
