/** The pointer-input reducer: each discrete DOM event updates the pointer
    record and, for presses, the `pulse` scalar. Nothing else is touched. */
module Pointer {

  datatype EventKind =
    | PointerEnter
    | PointerLeave
    | PointerMove
    | PointerDown
    | PointerUp
    | Click

  /** An event as the handler sees it: its kind, its client-space coordinates
      and the canvas bounding-rect offset read while handling it. */
  datatype Event = Event(kind: EventKind, clientX: real, clientY: real, rectLeft: real, rectTop: real)

  /** Last known canvas-local pointer position, press state and hover state. */
  datatype PointerState = PointerState(x: real, y: real, down: bool, inside: bool)

  /** The part of the simulation state that events write. */
  datatype Input = Input(pointer: PointerState, pulse: real)

  /** The state before any event arrives. */
  const Initial: Input := Input(PointerState(0.0, 0.0, false, false), 0.0)

  /** Events whose coordinates replace the pointer position. */
  predicate CarriesPosition(k: EventKind) {
    k == PointerMove || k == PointerDown || k == PointerUp
  }

  /** Events that fire the pulse. */
  predicate Presses(k: EventKind) {
    k == Click || k == PointerDown
  }

  /** The event handler. */
  function OnPointer(s: Input, e: Event): (r: Input)
    ensures e.kind == PointerDown ==> r.pointer.down
    ensures e.kind == PointerUp ==> !r.pointer.down
    ensures e.kind == PointerLeave ==> !r.pointer.inside && !r.pointer.down
    ensures e.kind == PointerEnter ==> r.pointer.inside && r.pointer.down == s.pointer.down
    ensures e.kind !in {PointerDown, PointerUp, PointerLeave} ==> r.pointer.down == s.pointer.down
    ensures e.kind !in {PointerEnter, PointerLeave} ==> r.pointer.inside == s.pointer.inside
    ensures CarriesPosition(e.kind) ==>
              r.pointer.x == e.clientX - e.rectLeft && r.pointer.y == e.clientY - e.rectTop
    ensures !CarriesPosition(e.kind) ==> r.pointer.x == s.pointer.x && r.pointer.y == s.pointer.y
    ensures Presses(e.kind) ==> r.pulse == 1.0
    ensures !Presses(e.kind) ==> r.pulse == s.pulse
  {
    var down := if e.kind == PointerDown then true else if e.kind == PointerUp then false else s.pointer.down;
    var pressed := s.pointer.(down := down);
    var entered := if e.kind == PointerEnter then pressed.(inside := true) else pressed;
    var left := if e.kind == PointerLeave then entered.(inside := false, down := false) else entered;
    var moved := if CarriesPosition(e.kind) then left.(x := e.clientX - e.rectLeft, y := e.clientY - e.rectTop) else left;
    var pulse := if Presses(e.kind) then 1.0 else s.pulse;
    Input(moved, pulse)
  }

  /** A pulse inside [0, 1] stays inside [0, 1] whatever event arrives. */
  lemma OnPointerKeepsPulseInRange(s: Input, e: Event)
    requires 0.0 <= s.pulse <= 1.0
    ensures 0.0 <= OnPointer(s, e).pulse <= 1.0
  {
  }

  /** Delivering the same event twice has the effect of delivering it once:
      repeated clicks keep `pulse` pinned at 1 rather than summing. */
  lemma OnPointerIdempotent(s: Input, e: Event)
    ensures OnPointer(OnPointer(s, e), e) == OnPointer(s, e)
  {
  }

  /** The state after handling `es` in order, starting from `s`. */
  function Replay(s: Input, es: seq<Event>): Input
  {
    if |es| == 0 then s else OnPointer(Replay(s, es[..|es| - 1]), es[|es| - 1])
  }

  /** Events arriving between two ticks coalesce: `pulse` is 1 when any of
      them was a press, and is untouched otherwise. */
  lemma {:induction false} ReplayPulse(s: Input, es: seq<Event>)
    ensures (exists i :: 0 <= i < |es| && Presses(es[i].kind)) ==> Replay(s, es).pulse == 1.0
    ensures (forall i :: 0 <= i < |es| ==> !Presses(es[i].kind)) ==> Replay(s, es).pulse == s.pulse
  {
    if |es| > 0 {
      var init := es[..|es| - 1];
      ReplayPulse(s, init);
      if !Presses(es[|es| - 1].kind) && exists i :: 0 <= i < |es| && Presses(es[i].kind) {
        var i :| 0 <= i < |es| && Presses(es[i].kind);
        assert init[i] == es[i];
      }
      if forall i :: 0 <= i < |es| ==> !Presses(es[i].kind) {
        assert forall i :: 0 <= i < |init| ==> init[i] == es[i];
      }
    }
  }

  /** `es[k]` is the last event of `es` that carries a position. */
  predicate LastPositional(es: seq<Event>, k: int) {
    && 0 <= k < |es|
    && CarriesPosition(es[k].kind)
    && forall j :: k < j < |es| ==> !CarriesPosition(es[j].kind)
  }

  /** Last write wins for the pointer position: after a burst of events it is
      the position of the last move/down/up event, or unchanged when there was
      none. */
  lemma {:induction false} ReplayPosition(s: Input, es: seq<Event>)
    ensures forall k :: LastPositional(es, k) ==>
              Replay(s, es).pointer.x == es[k].clientX - es[k].rectLeft &&
              Replay(s, es).pointer.y == es[k].clientY - es[k].rectTop
    ensures (forall i :: 0 <= i < |es| ==> !CarriesPosition(es[i].kind)) ==>
              Replay(s, es).pointer.x == s.pointer.x && Replay(s, es).pointer.y == s.pointer.y
  {
    if |es| > 0 {
      var init := es[..|es| - 1];
      ReplayPosition(s, init);
      assert forall i :: 0 <= i < |init| ==> init[i] == es[i];
      forall k | LastPositional(es, k)
        ensures Replay(s, es).pointer.x == es[k].clientX - es[k].rectLeft
        ensures Replay(s, es).pointer.y == es[k].clientY - es[k].rectTop
      {
        if k < |es| - 1 {
          assert LastPositional(init, k);
        }
      }
    }
  }
}
