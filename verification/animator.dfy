/** The two animation scalars advanced once per frame: `revealT`, which gates the
    spring of each particle by its reveal order, and `pulse`, which a press sets
    to 1 and which then fades out. */
module Animator {
  import opened Config

  /** One tick of `revealT`: it only moves while below 1, and never past 1. */
  function AdvanceReveal(t: real): (r: real)
    ensures r >= t
    ensures 0.0 <= t <= 1.0 ==> 0.0 <= r <= 1.0
    ensures t >= 1.0 ==> r == t
    ensures t < 1.0 ==> r == 1.0 || r == t + REVEAL_SPEED
    ensures t < 1.0 && t + REVEAL_SPEED <= 1.0 ==> r == t + REVEAL_SPEED
  {
    if t < 1.0 then Min(1.0, t + REVEAL_SPEED) else t
  }

  /** One tick of `pulse`: it only moves while positive, and never below 0. */
  function DecayPulse(p: real): (r: real)
    ensures r <= p
    ensures p >= 0.0 ==> r == Max(0.0, p - PULSE_DECAY)
    ensures 0.0 <= p <= 1.0 ==> 0.0 <= r <= 1.0
  {
    if p > 0.0 then Max(0.0, p - PULSE_DECAY) else p
  }

  /** `revealT` after `n` ticks starting from `t`. */
  function RevealAfter(n: nat, t: real): real
  {
    if n == 0 then t else AdvanceReveal(RevealAfter(n - 1, t))
  }

  /** `pulse` after `n` ticks starting from `p`, with no press in between. */
  function PulseAfter(n: nat, p: real): real
  {
    if n == 0 then p else DecayPulse(PulseAfter(n - 1, p))
  }

  /** After a rebuild (`revealT == 0`), `n` ticks leave `revealT` at
      min(1, n * REVEAL_SPEED). */
  lemma {:induction false} RevealFromZero(n: nat)
    ensures RevealAfter(n, 0.0) == Min(1.0, n as real * REVEAL_SPEED)
  {
    if n > 0 {
      RevealFromZero(n - 1);
    }
  }

  /** `revealT` reaches exactly 1 on tick ceil(1 / REVEAL_SPEED) = 72 after a
      rebuild, and not a tick earlier. */
  lemma RevealCompletesIn72Ticks()
    ensures RevealAfter(71, 0.0) < 1.0
    ensures RevealAfter(72, 0.0) == 1.0
  {
    RevealFromZero(71);
    RevealFromZero(72);
  }

  /** Starting inside [0, 1], `revealT` stays inside [0, 1] and never decreases. */
  lemma {:induction false} RevealMonotone(n: nat, t: real)
    requires 0.0 <= t <= 1.0
    ensures t <= RevealAfter(n, t) <= 1.0
    ensures n > 0 ==> RevealAfter(n - 1, t) <= RevealAfter(n, t)
  {
    if n > 0 {
      RevealMonotone(n - 1, t);
    }
  }

  /** `revealT` after `n` ticks and then `m` more is that of `n + m`. */
  lemma {:induction false} RevealAfterAdds(n: nat, m: nat, t: real)
    ensures RevealAfter(m, RevealAfter(n, t)) == RevealAfter(n + m, t)
  {
    if m > 0 {
      RevealAfterAdds(n, m - 1, t);
    }
  }

  /** Once `revealT` is 1 it stays 1. */
  lemma {:induction false} RevealStaysComplete(n: nat)
    ensures RevealAfter(n, 1.0) == 1.0
  {
    if n > 0 {
      RevealStaysComplete(n - 1);
    }
  }

  /** From a full pulse, `n` ticks leave max(0, 1 - n * PULSE_DECAY). */
  lemma {:induction false} PulseFromFull(n: nat)
    ensures PulseAfter(n, 1.0) == Max(0.0, 1.0 - n as real * PULSE_DECAY)
  {
    if n > 0 {
      PulseFromFull(n - 1);
    }
  }

  /** A full pulse fades to exactly 0 on tick ceil(1 / PULSE_DECAY) = 23, not
      earlier; one tick after a press it is 0.955. */
  lemma PulseFadesIn23Ticks()
    ensures PulseAfter(1, 1.0) == 0.955
    ensures PulseAfter(22, 1.0) > 0.0
    ensures PulseAfter(23, 1.0) == 0.0
  {
    PulseFromFull(22);
    PulseFromFull(23);
  }

  /** Starting inside [0, 1], `pulse` stays inside [0, 1] and never increases. */
  lemma {:induction false} PulseMonotone(n: nat, p: real)
    requires 0.0 <= p <= 1.0
    ensures 0.0 <= PulseAfter(n, p) <= p
    ensures n > 0 ==> PulseAfter(n, p) <= PulseAfter(n - 1, p)
  {
    if n > 0 {
      PulseMonotone(n - 1, p);
    }
  }
}
