/** The structural part of the particle-field rebuild: exactly COUNT particles,
    reveal order i / COUNT in index order, all at rest. Where each particle
    starts, where it is heading and how large it is come from trigonometry and
    random jitter; they arrive here as opaque per-particle placements. */
module Field {
  import opened Config
  import opened Forces

  /** The per-particle values the rebuild draws at random or computes from the
      heart curve: initial position, target and visual size. */
  datatype Placement = Placement(x: real, y: real, tx: real, ty: real, size: real)

  /** Reveal order of the `i`-th particle. */
  function Order(i: nat): real {
    i as real / COUNT as real
  }

  /** A field as every rebuild leaves it, and as ticks keep it: COUNT
      particles whose orders are their index over COUNT. */
  predicate Shaped(ps: seq<Particle>) {
    && |ps| == COUNT
    && forall i :: 0 <= i < |ps| ==> ps[i].order == Order(i)
  }

  /** Particle `i` as built from its placement. */
  function Spawn(pl: Placement, i: nat): Particle {
    Particle(pl.x, pl.y, 0.0, 0.0, pl.tx, pl.ty, Order(i), pl.size)
  }

  /** Builds the particle array, one particle per placement, in index order. */
  function Build(placements: seq<Placement>): (ps: seq<Particle>)
    requires |placements| == COUNT
    ensures Shaped(ps)
    ensures forall i :: 0 <= i < |ps| ==>
              && ps[i].vx == 0.0 && ps[i].vy == 0.0
              && ps[i].x == placements[i].x && ps[i].y == placements[i].y
              && ps[i].tx == placements[i].tx && ps[i].ty == placements[i].ty
              && ps[i].size == placements[i].size
  {
    seq(COUNT, i requires 0 <= i < COUNT => Spawn(placements[i], i))
  }

  /** Orders in a shaped field are strictly increasing, start at 0 and stay
      below 1: they split [0, 1) into COUNT equal bins in index order. */
  lemma ShapedOrders(ps: seq<Particle>)
    requires Shaped(ps)
    ensures ps[0].order == 0.0
    ensures forall i, j :: 0 <= i < j < |ps| ==> ps[i].order < ps[j].order
    ensures forall i :: 0 <= i < |ps| ==> 0.0 <= ps[i].order < 1.0
    ensures forall i :: 0 <= i < |ps| - 1 ==> ps[i + 1].order - ps[i].order == 1.0 / COUNT as real
  {
  }

  /** Reveal gating follows the orders: when `revealT` has reached particle
      `j`, it has reached every earlier particle too. */
  lemma RevealIsPrefix(ps: seq<Particle>, revealT: real, j: int)
    requires Shaped(ps)
    requires 0 <= j < |ps| && Revealed(ps[j], revealT)
    ensures forall i :: 0 <= i <= j ==> Revealed(ps[i], revealT)
  {
  }

  /** With `revealT == 1` every particle of a shaped field feels its spring. */
  lemma FullyRevealed(ps: seq<Particle>)
    requires Shaped(ps)
    ensures forall i :: 0 <= i < |ps| ==> Revealed(ps[i], 1.0)
  {
  }
}
