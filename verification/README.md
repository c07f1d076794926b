# Heart particles — a Dafny model of the simulation core

The repository draws an animated heart on a canvas. About 850 particles spring
towards targets on a heart-shaped outline. They are revealed one after another
along the curve. The pointer pushes them away, and a click or press makes the
heart "pulse". This project models the deterministic state machine behind that
effect, which lives in `main.js`:

- the pointer-event reducer `onPointer`, which writes the pointer record
  `{x, y, down, inside}` and the `pulse` scalar;
- the per-frame scalar updates of `revealT` (reveal progress) and `pulse`;
- the per-particle force step: spring (gated on reveal order), pointer
  repulsion (gated on hover and radius), friction, then an Euler position update;
- the structural part of `rebuild`: COUNT particles, order `i / COUNT`, all at
  rest, with `revealT` reset to 0.

JavaScript numbers are idealised as exact Dafny `real`s. Anything that needs
randomness, trigonometry or a square root arrives as a parameter instead:

- Each particle's initial position, target and size come from `Math.random`
  and the heart curve. They are an opaque `Field.Placement` per particle.
- `Math.sqrt` of the squared pointer distance is supplied by the caller as
  `root`. It must be the exact non-negative root wherever the repulsion
  applies, because only there does the source take the root.
- The event's bounding-rect offset (`getBoundingClientRect`) is carried in
  the `Pointer.Event` value.

Modules: `Config` (the named constants COUNT, REPULSE_RADIUS, RETURN_SPRING,
FRICTION and REVEAL_SPEED of main.js:12-16 and R2 of main.js:124; the inline
literals 0.4, 0.045, 12 and 1100 of main.js:140, 134, 150 and 151 under the
names PULSE_STIFFEN, PULSE_DECAY, MIN_DIST and REPULSE_FORCE; and
`Min`/`Max`/`Abs`. DPR_CAP and THICKNESS belong to the left-out resize and
target computation and are not declared),
`Animator` (reveal/pulse scalars), `Pointer` (event reducer), `Forces`
(particle step), `Field` (rebuild), `Simulation` (the whole state and its
transitions).

## Model

| member | source | states |
|---|---|---|
| Animator.AdvanceReveal | main.js:133 | `revealT` never decreases. Inside [0,1] it stays inside [0,1]. At 1 it stays put. Below 1 it moves by exactly REVEAL_SPEED or lands on 1. |
| Animator.DecayPulse | main.js:134 | `pulse` never increases. For a non-negative pulse the new value is max(0, pulse − 0.045), so it never goes negative. Inside [0,1] it stays inside [0,1]. |
| Animator.RevealFromZero | main.js:133 | After a rebuild, n ticks leave `revealT` at min(1, n·0.014). |
| Animator.RevealCompletesIn72Ticks | main.js:133 | `revealT` reaches exactly 1 on tick 72 = ceil(1/0.014) and is still below 1 on tick 71. |
| Animator.RevealMonotone | main.js:133 | Over any number of ticks from [0,1], `revealT` stays in [t,1] and each tick is ≥ the previous one. |
| Animator.RevealAfterAdds | main.js:133 | n reveal ticks followed by m more are n + m ticks. |
| Animator.RevealStaysComplete | main.js:133 | Once `revealT` is 1, it is 1 after any number of ticks. |
| Animator.PulseFromFull | main.js:134 | From a full pulse, n ticks leave max(0, 1 − n·0.045). |
| Animator.PulseFadesIn23Ticks | main.js:134 | One tick after a press the pulse is 0.955. It is still positive after 22 ticks and exactly 0 after 23 = ceil(1/0.045). |
| Animator.PulseMonotone | main.js:134 | Over any number of ticks from [0,1], `pulse` stays in [0,p] and never increases from one tick to the next. |
| Pointer.OnPointer | main.js:110-122 | `pointerdown` sets `down` and `pointerup` clears it. `pointerleave` clears `inside` and `down`. `pointerenter` sets `inside` and keeps `down`. Every other event keeps `down`. `inside` changes only on enter/leave. x/y become client minus rect offset on move/down/up and are unchanged otherwise. `pulse` becomes exactly 1 on click/down and is unchanged otherwise. |
| Pointer.OnPointerKeepsPulseInRange | main.js:121 | No event takes `pulse` out of [0,1]. |
| Pointer.OnPointerIdempotent | main.js:110-122 | Handling the same event twice equals handling it once, so repeated clicks pin `pulse` at 1 rather than summing. |
| Pointer.ReplayPulse | main.js:121 | After a burst of events, `pulse` is 1 if any of them was a click or press. Otherwise it is unchanged. |
| Pointer.ReplayPosition | main.js:116-120 | After a burst of events, the pointer position is the one from the last move/down/up event (last write wins). If there was none, it is unchanged. |
| Forces.SpringCoefficient | main.js:140 | For pulse in [0,1] the stiffness lies in [0.06, 0.084]. It is 0.06 without a pulse and 0.084 at full pulse. |
| Forces.SpringCoefficientMonotone | main.js:140 | A stronger pulse never gives a weaker spring. |
| Forces.Spring | main.js:139-143 | Only velocity changes. A particle with order > revealT is untouched. A revealed one gains coefficient × (target − position). For a non-negative pulse the impulse points towards the target. A particle on its target gets none. |
| Forces.Magnitude | main.js:150-151 | At a clamped distance ≥ 12 the inverse-square force is positive and at most 1100/144. |
| Forces.MagnitudeDecreasing | main.js:150-151 | The force is monotonically decreasing in the distance, for distances ≥ 12. |
| Forces.Repel | main.js:145-155 | Only velocity changes. Nothing happens unless the pointer is inside the canvas and d2 < 120². Otherwise the impulse points along the ray from the pointer through the particle, and its length is `ImpulseLength(dist)`. |
| Forces.ImpulseLength | main.js:150-153 | The impulse length dist/max(12, dist) · 1100/max(12, dist)² is never more than the clamped force. It is exactly 1100/dist² once dist ≥ 12, and positive whenever the particle is not on the pointer. |
| Forces.ImpulseDirection | main.js:152-153 | (dx/dist·force, dy/dist·force) is a non-negative multiple of (dx, dy). |
| Forces.ImpulseSize | main.js:150-153 | The squared length of (dx/dist·force, dy/dist·force) equals `ImpulseLength` squared when dist is max(12, √d2). |
| Forces.StepParticle | main.js:139-160 | Target, order and size are unchanged. New position = old position + new (post-friction) velocity. Without repulsion, an unrevealed particle's velocity is 0.86 × the old one, so each non-zero component strictly shrinks in magnitude. A revealed one gets 0.86 × (old + spring impulse). A particle at rest on its target stays there. When repulsion applies, the new velocity divided by 0.86, minus the spring result, is an impulse pushing directly away from the pointer with length `ImpulseLength(dist)`. So repulsion is added after the spring and before friction. |
| Field.Build | main.js:78-95 | Exactly COUNT particles, in index order. Particle i has order i/COUNT, zero velocity, and the position, target and size of its placement. |
| Field.ShapedOrders | main.js:92 | Orders start at 0, are strictly increasing, lie in [0,1) and are spaced exactly 1/COUNT apart. |
| Field.RevealIsPrefix | main.js:139 | The revealed particles always form a prefix of the array. |
| Field.FullyRevealed | main.js:139 | With revealT = 1 every particle of the field feels its spring. |
| Simulation.Dispatch | main.js:110-122 | A pointer event leaves particles and `revealT` alone. It updates the pointer record exactly as `Pointer.OnPointer` does (down, inside, x, y). It sets `pulse` to 1 exactly on a press and preserves the state invariant. |
| Simulation.Rebuild | main.js:78-96 | Every particle is replaced with a built one: COUNT of them, at rest, each with its placement's position, target and size. `revealT` becomes 0. The pointer and `pulse` are kept. The invariant holds afterwards. |
| Simulation.Init | main.js:32-34 | The initial state followed by the first rebuild satisfies the invariant. |
| Simulation.Tick | main.js:126-161 | `revealT` and `pulse` advance first. Every particle then steps with the updated scalars. The pointer and the particle count are unchanged. The particles' reveal orders are kept, so a shaped field stays shaped, and the invariant (scalars in [0,1], shaped field) is preserved. |
| Simulation.RootsFrom | main.js:145-150 | Taking every particle's root from an exact square-root function meets the tick's demand: wherever the repulsion applies, the root is the true non-negative root of d2. |
| Simulation.RunFollowsSchedule | main.js:133-134 | Over any interleaving of frames and pointer events, with the pointer anywhere, `revealT` equals that of as many scalar ticks as there were frames, because events never touch it. Without a click or press, `pulse` follows the decay schedule the same way. The particle count, the shaped field and the invariant are kept. |
| Simulation.RebuildRevealsAllIn72Ticks | main.js:133 | After a rebuild (main.js:96 resets `revealT`), any run with at least 72 frames, whatever pointer events arrive and wherever the pointer is, leaves `revealT` at exactly 1, so the gate of main.js:139 lets every particle's spring act. |

## Left out

- `heartPoint` and the target/initial-position computation (main.js:55-59, 80-89): sine, cosine and power over floats have no exact Dafny counterpart, so positions, targets and sizes are inputs (`Field.Placement`).
- `Math.random` jitter and the particle `size` draw: nondeterministic, taken as inputs.
- `Math.sqrt` (main.js:150): a single frame takes the `root` values as an argument, constrained to be the exact root where they are used; a run of frames takes a square-root function that is exact on every non-negative real (`Simulation.IsSqrtFunction`).
- Sprite creation, background gradient and drawing (`makeDot`, main.js:36-53, 64-72, 163-175): rendering side effects only.
- `resize`, the device-pixel-ratio cap, canvas sizing, `getBoundingClientRect` (as a call), `requestAnimationFrame` scheduling, listener wiring and the `touchstart` default suppression (main.js:99-108, 177-192): DOM and scheduling plumbing. A resize is modelled only as the `Simulation.Rebuild` it triggers.
- Float rounding: every quantity is an exact real. The reveal and pulse tick counts (72 and 23) are therefore those of exact arithmetic.
- Forces.StepParticle: speed is stated per velocity component (|vx| and |vy| never grow, and each non-zero one strictly shrinks), not as the Euclidean magnitude.
- Convergence of a particle to its target over many ticks, and the bound on a target's distance from the curve: the first is an asymptotic property of the damped spring that the code does not state. The second depends on the trigonometry left out above.
- Animator.AdvanceReveal and Animator.DecayPulse keep the source's guards (`revealT < 1`, `pulse > 0`): for a `revealT` above 1 or a negative `pulse`, which no reachable state has, the value is left as it is and the contracts say only that it does not move the wrong way.
- A rebuild does not reset `pulse`; the code only resets `revealT` (main.js:96). The model follows the code.
