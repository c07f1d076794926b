/** Tuning constants of the heart-particle animation and two small real helpers.
    All JavaScript numbers are idealised as exact reals. */
module Config {

  /** Number of particles created by every rebuild. */
  const COUNT: nat := 850

  /** Radius (in canvas pixels) within which the pointer repels particles. */
  const REPULSE_RADIUS: real := 120.0

  /** Squared repulsion radius; the gate compares squared distances against it. */
  const R2: real := REPULSE_RADIUS * REPULSE_RADIUS

  /** Base stiffness of the spring pulling a particle back to its target. */
  const RETURN_SPRING: real := 0.06

  /** Extra relative stiffness contributed by a full pulse. */
  const PULSE_STIFFEN: real := 0.4

  /** Velocity damping applied to every particle on every tick. */
  const FRICTION: real := 0.86

  /** Amount `revealT` advances per tick. */
  const REVEAL_SPEED: real := 0.014

  /** Amount `pulse` decays per tick. */
  const PULSE_DECAY: real := 0.045

  /** Lower clamp of the pointer distance used by the repulsion force. */
  const MIN_DIST: real := 12.0

  /** Numerator of the inverse-square repulsion force. */
  const REPULSE_FORCE: real := 1100.0

  function Min(a: real, b: real): (m: real)
    ensures m <= a && m <= b
    ensures m == a || m == b
  {
    if a <= b then a else b
  }

  function Max(a: real, b: real): (m: real)
    ensures m >= a && m >= b
    ensures m == a || m == b
  {
    if a >= b then a else b
  }

  function Abs(a: real): (m: real)
    ensures m >= 0.0
    ensures m == a || m == -a
  {
    if a >= 0.0 then a else -a
  }
}
