/** The whole simulation state and its three transitions: a pointer event, a
    rebuild (on start-up and on every resize) and a frame tick. */
module Simulation {
  import opened Config
  import opened Animator
  import opened Pointer
  import opened Forces
  import opened Field

  /** Particles, pointer record with `pulse`, and `revealT`. */
  datatype Sim = Sim(particles: seq<Particle>, input: Input, revealT: real)

  /** What holds between transitions once the first rebuild has run. */
  predicate Inv(s: Sim) {
    && 0.0 <= s.revealT <= 1.0
    && 0.0 <= s.input.pulse <= 1.0
    && Shaped(s.particles)
  }

  /** The square roots the tick needs: one per particle, the true root of the
      squared pointer distance wherever the repulsion applies. */
  predicate RootsFor(s: Sim, roots: seq<real>) {
    && |roots| == |s.particles|
    && forall i :: 0 <= i < |s.particles| && RepulsionApplies(s.particles[i], s.input.pointer) ==>
         IsSqrt(roots[i], D2(s.particles[i], s.input.pointer))
  }

  /** A pointer event: the pointer record and `pulse` change as the event
      handler says, nothing else changes, and the invariant survives. */
  function Dispatch(s: Sim, e: Event): (r: Sim)
    ensures r.particles == s.particles && r.revealT == s.revealT
    ensures r.input.pointer == OnPointer(s.input, e).pointer
    ensures Presses(e.kind) ==> r.input.pulse == 1.0
    ensures !Presses(e.kind) ==> r.input.pulse == s.input.pulse
    ensures Inv(s) ==> Inv(r)
  {
    s.(input := OnPointer(s.input, e))
  }

  /** Replaces every particle with a freshly built one and restarts the
      reveal; the pointer record and `pulse` are left alone. */
  function Rebuild(s: Sim, placements: seq<Placement>): (r: Sim)
    requires |placements| == COUNT
    ensures r.input == s.input
    ensures r.revealT == 0.0
    ensures Shaped(r.particles)
    ensures forall i :: 0 <= i < |r.particles| ==>
              && r.particles[i].vx == 0.0 && r.particles[i].vy == 0.0
              && r.particles[i].x == placements[i].x && r.particles[i].y == placements[i].y
              && r.particles[i].tx == placements[i].tx && r.particles[i].ty == placements[i].ty
              && r.particles[i].size == placements[i].size
    ensures 0.0 <= s.input.pulse <= 1.0 ==> Inv(r)
  {
    Sim(Build(placements), s.input, 0.0)
  }

  /** The state the page starts in, before its first rebuild. */
  const Start: Sim := Sim([], Pointer.Initial, 0.0)

  /** Start-up: the initial resize rebuilds the field, after which the
      invariant holds. */
  function Init(placements: seq<Placement>): (s: Sim)
    requires |placements| == COUNT
    ensures Inv(s)
    ensures s.input == Pointer.Initial && s.revealT == 0.0
  {
    Rebuild(Start, placements)
  }

  /** One animation frame: advance `revealT`, decay `pulse`, then move every
      particle with the already-updated scalars. The pointer never changes. */
  function Tick(s: Sim, roots: seq<real>): (r: Sim)
    requires RootsFor(s, roots)
    ensures r.input.pointer == s.input.pointer
    ensures r.revealT == AdvanceReveal(s.revealT)
    ensures r.input.pulse == DecayPulse(s.input.pulse)
    ensures |r.particles| == |s.particles|
    ensures forall i :: 0 <= i < |s.particles| ==>
              r.particles[i] == StepParticle(s.particles[i], s.input.pointer, r.revealT, r.input.pulse, roots[i])
    ensures Shaped(s.particles) ==> Shaped(r.particles)
    ensures Inv(s) ==> Inv(r)
  {
    var revealT := AdvanceReveal(s.revealT);
    var pulse := DecayPulse(s.input.pulse);
    var ps := seq(|s.particles|, i requires 0 <= i < |s.particles| =>
                StepParticle(s.particles[i], s.input.pointer, revealT, pulse, roots[i]));
    Sim(ps, Input(s.input.pointer, pulse), revealT)
  }

  /** `sqrt` agrees with the exact square root on every non-negative real,
      as `Math.sqrt` does up to rounding. */
  ghost predicate IsSqrtFunction(sqrt: real -> real) {
    forall v :: 0.0 <= v ==> IsSqrt(sqrt(v), v)
  }

  /** The roots one frame takes: the square root of every particle's squared
      distance to the pointer. */
  function RootsFrom(s: Sim, sqrt: real -> real): (roots: seq<real>)
    requires IsSqrtFunction(sqrt)
    ensures RootsFor(s, roots)
  {
    seq(|s.particles|, i requires 0 <= i < |s.particles| => sqrt(D2(s.particles[i], s.input.pointer)))
  }

  /** What happens between two rebuilds: an animation frame, or a pointer
      event delivered between frames. */
  datatype Step = Frame | Deliver(e: Event)

  /** The state after `steps`, in order, with square roots taken by `sqrt`. */
  function Run(s: Sim, steps: seq<Step>, sqrt: real -> real): Sim
    requires IsSqrtFunction(sqrt)
  {
    if |steps| == 0 then s else
      var prev := Run(s, steps[..|steps| - 1], sqrt);
      match steps[|steps| - 1]
      case Frame => Tick(prev, RootsFrom(prev, sqrt))
      case Deliver(e) => Dispatch(prev, e)
  }

  /** Number of animation frames among `steps`. */
  function Frames(steps: seq<Step>): nat {
    if |steps| == 0 then 0 else Frames(steps[..|steps| - 1]) + (if steps[|steps| - 1].Frame? then 1 else 0)
  }

  /** `steps` delivers no click or press. */
  predicate NoPress(steps: seq<Step>) {
    forall i :: 0 <= i < |steps| && steps[i].Deliver? ==> !Presses(steps[i].e.kind)
  }

  /** Over any run, `revealT` follows the scalar schedule: it is that of as
      many ticks as the run has frames, whatever the pointer does. So does
      `pulse` when nothing presses. Particle count and invariant are kept. */
  lemma {:induction false} RunFollowsSchedule(s: Sim, steps: seq<Step>, sqrt: real -> real)
    requires IsSqrtFunction(sqrt)
    ensures Run(s, steps, sqrt).revealT == RevealAfter(Frames(steps), s.revealT)
    ensures NoPress(steps) ==> Run(s, steps, sqrt).input.pulse == PulseAfter(Frames(steps), s.input.pulse)
    ensures |Run(s, steps, sqrt).particles| == |s.particles|
    ensures Shaped(s.particles) ==> Shaped(Run(s, steps, sqrt).particles)
    ensures Inv(s) ==> Inv(Run(s, steps, sqrt))
  {
    if |steps| > 0 {
      var init := steps[..|steps| - 1];
      RunFollowsSchedule(s, init, sqrt);
      if NoPress(steps) {
        assert forall i :: 0 <= i < |init| ==> init[i] == steps[i];
      }
    }
  }

  /** Once a rebuild is followed by 72 frames, whatever pointer events come
      in between and wherever the pointer is, the reveal has completed and
      every particle of the field feels its spring. */
  lemma RebuildRevealsAllIn72Ticks(s: Sim, placements: seq<Placement>, steps: seq<Step>, sqrt: real -> real)
    requires |placements| == COUNT && IsSqrtFunction(sqrt)
    requires Frames(steps) >= 72
    ensures Run(Rebuild(s, placements), steps, sqrt).revealT == 1.0
    ensures forall i :: 0 <= i < |Run(Rebuild(s, placements), steps, sqrt).particles| ==>
              Revealed(Run(Rebuild(s, placements), steps, sqrt).particles[i], 1.0)
  {
    var r := Rebuild(s, placements);
    RunFollowsSchedule(r, steps, sqrt);
    RevealCompletesIn72Ticks();
    RevealAfterAdds(72, Frames(steps) - 72, 0.0);
    RevealStaysComplete(Frames(steps) - 72);
    FullyRevealed(Run(r, steps, sqrt).particles);
  }
}
