/** The per-particle force step of one tick, in the fixed order spring,
    repulsion, friction, Euler integration. */
module Forces {
  import opened Config
  import opened Pointer

  /** One point of the heart outline: position, velocity, target, reveal
      order and visual size. */
  datatype Particle = Particle(
    x: real, y: real,
    vx: real, vy: real,
    tx: real, ty: real,
    order: real,
    size: real)

  /** The spring acts on a particle only once the reveal has reached it. */
  predicate Revealed(p: Particle, revealT: real) {
    p.order <= revealT
  }

  /** Stiffness of the return spring; a pulse stiffens it by up to 40%. */
  function SpringCoefficient(pulse: real): (k: real)
    ensures 0.0 <= pulse <= 1.0 ==> RETURN_SPRING <= k <= 0.084
    ensures pulse == 0.0 ==> k == RETURN_SPRING
    ensures pulse == 1.0 ==> k == 0.084
  {
    RETURN_SPRING * (1.0 + pulse * PULSE_STIFFEN)
  }

  /** A stronger pulse never gives a weaker spring. */
  lemma SpringCoefficientMonotone(a: real, b: real)
    requires a <= b
    ensures SpringCoefficient(a) <= SpringCoefficient(b)
  {
  }

  /** The spring impulse: it changes only the velocity, only for revealed
      particles, and always towards the target. */
  function Spring(p: Particle, revealT: real, pulse: real): (q: Particle)
    ensures q.(vx := p.vx, vy := p.vy) == p
    ensures !Revealed(p, revealT) ==> q == p
    ensures Revealed(p, revealT) ==>
              q.vx - p.vx == SpringCoefficient(pulse) * (p.tx - p.x) &&
              q.vy - p.vy == SpringCoefficient(pulse) * (p.ty - p.y)
    ensures 0.0 <= pulse ==> (q.vx - p.vx) * (p.tx - p.x) >= 0.0 && (q.vy - p.vy) * (p.ty - p.y) >= 0.0
    ensures p.x == p.tx && p.y == p.ty ==> q == p
  {
    if Revealed(p, revealT) then
      var k := SpringCoefficient(pulse);
      p.(vx := p.vx + (p.tx - p.x) * k, vy := p.vy + (p.ty - p.y) * k)
    else
      p
  }

  /** Squared distance from the particle to the pointer. */
  function D2(p: Particle, ptr: PointerState): real {
    (p.x - ptr.x) * (p.x - ptr.x) + (p.y - ptr.y) * (p.y - ptr.y)
  }

  /** Repulsion acts only while the pointer is over the canvas and strictly
      inside the repulsion radius. */
  predicate RepulsionApplies(p: Particle, ptr: PointerState) {
    ptr.inside && D2(p, ptr) < R2
  }

  /** `root` is the non-negative square root of `v`. */
  predicate IsSqrt(root: real, v: real) {
    root >= 0.0 && root * root == v
  }

  /** Inverse-square magnitude of the repulsion at the clamped distance `dist`. */
  function Magnitude(dist: real): (f: real)
    requires dist >= MIN_DIST
    ensures 0.0 < f <= REPULSE_FORCE / (MIN_DIST * MIN_DIST)
  {
    REPULSE_FORCE / (dist * dist)
  }

  /** The repulsion magnitude falls off as the distance grows. */
  lemma MagnitudeDecreasing(a: real, b: real)
    requires MIN_DIST <= a <= b
    ensures Magnitude(b) <= Magnitude(a)
  {
  }

  /** The impulse (ix, iy) points along the offset (dx, dy) from the pointer
      to the particle, and its length is `ImpulseLength(root)`, the force at
      the clamped distance scaled by root / max(MIN_DIST, root). */
  predicate PushesAway(ix: real, iy: real, dx: real, dy: real, root: real)
    requires root >= 0.0
  {
    && ix * dx >= 0.0
    && iy * dy >= 0.0
    && ix * dy == iy * dx
    && ix * ix + iy * iy == ImpulseLength(root) * ImpulseLength(root)
  }

  /** The repulsion impulse: it changes only the velocity, only when the
      pointer is inside the radius, and pushes along the ray from the pointer
      through the particle with length `ImpulseLength(root)`. */
  function Repel(p: Particle, ptr: PointerState, root: real): (q: Particle)
    requires RepulsionApplies(p, ptr) ==> IsSqrt(root, D2(p, ptr))
    ensures q.(vx := p.vx, vy := p.vy) == p
    ensures !RepulsionApplies(p, ptr) ==> q == p
    ensures RepulsionApplies(p, ptr) ==> PushesAway(q.vx - p.vx, q.vy - p.vy, p.x - ptr.x, p.y - ptr.y, root)
  {
    if RepulsionApplies(p, ptr) then
      var dx := p.x - ptr.x;
      var dy := p.y - ptr.y;
      var dist := Max(MIN_DIST, root);
      var force := Magnitude(dist);
      var ix := Impulse(dx, dist, force);
      var iy := Impulse(dy, dist, force);
      ImpulseDirection(dx, dy, dist, force);
      ImpulseSize(dx, dy, root, dist, force);
      assert PushesAway(ix, iy, dx, dy, root);
      p.(vx := p.vx + ix, vy := p.vy + iy)
    else
      p
  }

  /** One component of the repulsion impulse: the unit-vector component
      `d / dist` scaled by the force. */
  function Impulse(d: real, dist: real, force: real): real
    requires dist > 0.0
  {
    d / dist * force
  }

  /** Length of the repulsion impulse for a particle at true distance `root`:
      never more than the clamped inverse-square force, and exactly that force
      once the distance is past the clamp. */
  function ImpulseLength(root: real): (l: real)
    requires root >= 0.0
    ensures 0.0 <= l <= Magnitude(Max(MIN_DIST, root))
    ensures root >= MIN_DIST ==> l == Magnitude(root)
    ensures root > 0.0 ==> l > 0.0
  {
    var dist := Max(MIN_DIST, root);
    var f := Magnitude(dist);
    assert root / dist <= 1.0;
    assert Impulse(root, dist, f) == (root / dist) * f;
    Impulse(root, dist, f)
  }

  /** The impulse is a non-negative multiple of the offset (dx, dy). */
  lemma ImpulseDirection(dx: real, dy: real, dist: real, force: real)
    requires dist > 0.0 && force > 0.0
    ensures Impulse(dx, dist, force) * dx >= 0.0 && Impulse(dy, dist, force) * dy >= 0.0
    ensures Impulse(dx, dist, force) * dy == Impulse(dy, dist, force) * dx
  {
  }

  /** The impulse's squared length is that of the same formula applied to the
      true distance `root` in place of a component. */
  lemma ImpulseSize(dx: real, dy: real, root: real, dist: real, force: real)
    requires IsSqrt(root, dx * dx + dy * dy)
    requires dist > 0.0 && dist == Max(MIN_DIST, root) && force == Magnitude(dist)
    ensures Impulse(dx, dist, force) * Impulse(dx, dist, force) + Impulse(dy, dist, force) * Impulse(dy, dist, force)
              == ImpulseLength(root) * ImpulseLength(root)
  {
  }

  /** Damping applied after both forces, to revealed and unrevealed particles alike. */
  function Friction(p: Particle): Particle {
    p.(vx := p.vx * FRICTION, vy := p.vy * FRICTION)
  }

  /** Explicit Euler step with unit time. */
  function Integrate(p: Particle): Particle {
    p.(x := p.x + p.vx, y := p.y + p.vy)
  }

  /** One tick for one particle, with the tick's already-updated `revealT`
      and `pulse`. `root` is the square root of the squared pointer distance,
      needed only when the repulsion applies. */
  function StepParticle(p: Particle, ptr: PointerState, revealT: real, pulse: real, root: real): (q: Particle)
    requires RepulsionApplies(p, ptr) ==> IsSqrt(root, D2(p, ptr))
    ensures q.tx == p.tx && q.ty == p.ty && q.order == p.order && q.size == p.size
    ensures q.x == p.x + q.vx && q.y == p.y + q.vy
    ensures !RepulsionApplies(p, ptr) && !Revealed(p, revealT) ==>
              q.vx == FRICTION * p.vx && q.vy == FRICTION * p.vy
    ensures !RepulsionApplies(p, ptr) && Revealed(p, revealT) ==>
              q.vx == FRICTION * (p.vx + SpringCoefficient(pulse) * (p.tx - p.x)) &&
              q.vy == FRICTION * (p.vy + SpringCoefficient(pulse) * (p.ty - p.y))
    ensures !RepulsionApplies(p, ptr) && !Revealed(p, revealT) ==>
              Abs(q.vx) <= Abs(p.vx) && Abs(q.vy) <= Abs(p.vy) &&
              (p.vx != 0.0 ==> Abs(q.vx) < Abs(p.vx)) && (p.vy != 0.0 ==> Abs(q.vy) < Abs(p.vy))
    ensures !RepulsionApplies(p, ptr) && p.x == p.tx && p.y == p.ty && p.vx == 0.0 && p.vy == 0.0 ==> q == p
    ensures RepulsionApplies(p, ptr) ==>
              var sprung := Spring(p, revealT, pulse);
              PushesAway(q.vx / FRICTION - sprung.vx, q.vy / FRICTION - sprung.vy, p.x - ptr.x, p.y - ptr.y, root)
  {
    var sprung := Spring(p, revealT, pulse);
    assert D2(sprung, ptr) == D2(p, ptr);
    var pushed := Repel(sprung, ptr, root);
    assert sprung.x == p.x && sprung.y == p.y;
    Integrate(Friction(pushed))
  }
}
