/** The two single-slot timers the board arms while a card is dragged
    (kanban-board.component.tsx): the edge-paging snap timer and the
    autoscroll cooldown. Time is not modelled: a timer is a slot that is
    armed, cancelled, or fired by an explicit event. */
module Timers {

  import opened Wrappers

  /** Scroll distance of one autoscroll tick per unit of probe offset. The
      source's delays (50 ms for the cooldown, 500 ms for the snap timer)
      only order events in time and do not appear here. */
  const ScrollStep: int := 40

  /** The carousel request a snap timer issues when it fires. */
  datatype SnapDirection = Prev | Next

  predicate InLeftZone(x: int, margin: int)
  {
    x < margin
  }

  predicate InRightZone(x: int, margin: int, width: int)
  {
    x > width - margin
  }

  /** The snap slot after the pointer is seen at `x`: a pointer outside both
      edge zones cancels a pending timer; with no timer pending, the left zone
      arms a "previous" timer and otherwise the right zone a "next" timer; a
      pending timer is otherwise left alone. */
  function SnapSlotAfterMove(slot: Option<SnapDirection>, x: int, margin: int, width: int): (r: Option<SnapDirection>)
    ensures !InLeftZone(x, margin) && !InRightZone(x, margin, width) ==> r == None
    ensures slot.Some? && (InLeftZone(x, margin) || InRightZone(x, margin, width)) ==> r == slot
    ensures slot.None? && InLeftZone(x, margin) ==> r == Some(Prev)
    ensures slot.None? && !InLeftZone(x, margin) && InRightZone(x, margin, width) ==> r == Some(Next)
  {
    var left := x < margin;
    var right := x > width - margin;
    var kept := if !left && !right && slot.Some? then None else slot;
    if kept.None? && left then Some(Prev)
    else if kept.None? && right then Some(Next)
    else kept
  }

  /** What the snap timer sees: the pointer at some x during a drag, or the
      pending timer's delay elapsing. */
  datatype SnapInput = PointerAt(x: int) | SnapFires

  /** The slot at the end of a run, and the snaps requested during it. */
  datatype SnapRun = SnapRun(slot: Option<SnapDirection>, snaps: seq<SnapDirection>)

  /** Runs the snap timer over `inputs` from slot `slot`. Firing issues the
      pending direction, if any, and empties the slot. */
  function RunSnapTimer(slot: Option<SnapDirection>, inputs: seq<SnapInput>, margin: int, width: int): SnapRun
    decreases |inputs|
  {
    if inputs == [] then SnapRun(slot, [])
    else
      match inputs[0]
      case PointerAt(x) => RunSnapTimer(SnapSlotAfterMove(slot, x, margin, width), inputs[1..], margin, width)
      case SnapFires =>
        var rest := RunSnapTimer(None, inputs[1..], margin, width);
        SnapRun(rest.slot, (if slot.Some? then [slot.value] else []) + rest.snaps)
  }

  function FireCount(inputs: seq<SnapInput>): nat
  {
    if inputs == [] then 0 else (if inputs[0].SnapFires? then 1 else 0) + FireCount(inputs[1..])
  }

  /** Each firing issues at most one snap. */
  lemma {:induction false} SnapsAtMostFires(slot: Option<SnapDirection>, inputs: seq<SnapInput>, margin: int, width: int)
    ensures |RunSnapTimer(slot, inputs, margin, width).snaps| <= FireCount(inputs)
    decreases |inputs|
  {
    if inputs != [] {
      match inputs[0]
      case PointerAt(x) => SnapsAtMostFires(SnapSlotAfterMove(slot, x, margin, width), inputs[1..], margin, width);
      case SnapFires => SnapsAtMostFires(None, inputs[1..], margin, width);
    }
  }

  /** With no timer pending and the pointer never in an edge zone, no snap is
      ever requested, however often a timer would fire. */
  lemma {:induction false} NoSnapAwayFromEdges(inputs: seq<SnapInput>, margin: int, width: int)
    requires forall i :: 0 <= i < |inputs| && inputs[i].PointerAt? ==>
      !InLeftZone(inputs[i].x, margin) && !InRightZone(inputs[i].x, margin, width)
    ensures RunSnapTimer(None, inputs, margin, width) == SnapRun(None, [])
  {
    if inputs != [] {
      NoSnapAwayFromEdges(inputs[1..], margin, width);
    }
  }

  /** Leaving the edge zones before the delay elapses cancels the approach:
      whatever was pending, the firings that follow request nothing. */
  lemma {:induction false} LeavingEdgeCancelsSnap(slot: Option<SnapDirection>, awayX: int, fires: seq<SnapInput>, margin: int, width: int)
    requires !InLeftZone(awayX, margin) && !InRightZone(awayX, margin, width)
    requires forall i :: 0 <= i < |fires| ==> fires[i].SnapFires?
    ensures RunSnapTimer(slot, [PointerAt(awayX)] + fires, margin, width).snaps == []
  {
    assert ([PointerAt(awayX)] + fires)[1..] == fires;
    NoSnapAwayFromEdges(fires, margin, width);
  }

  /** Lingering in the left edge zone until the delay elapses requests exactly
      one snap to the previous column, and leaves no timer pending. */
  lemma {:induction false} LingeringAtLeftEdgeSnapsOnce(slot: Option<SnapDirection>, moves: seq<SnapInput>, margin: int, width: int)
    requires slot == None || slot == Some(Prev)
    requires moves != [] || slot == Some(Prev)
    requires forall i :: 0 <= i < |moves| ==> moves[i].PointerAt? && InLeftZone(moves[i].x, margin)
    ensures RunSnapTimer(slot, moves + [SnapFires], margin, width) == SnapRun(None, [Prev])
    decreases |moves|
  {
    if moves == [] {
      assert moves + [SnapFires] == [SnapFires];
      assert [SnapFires][1..] == [];
    } else {
      assert (moves + [SnapFires])[1..] == moves[1..] + [SnapFires];
      LingeringAtLeftEdgeSnapsOnce(SnapSlotAfterMove(slot, moves[0].x, margin, width), moves[1..], margin, width);
    }
  }

  /** Lingering in the right edge zone until the delay elapses requests exactly
      one snap to the next column, and leaves no timer pending. */
  lemma {:induction false} LingeringAtRightEdgeSnapsOnce(slot: Option<SnapDirection>, moves: seq<SnapInput>, margin: int, width: int)
    requires slot == None || slot == Some(Next)
    requires moves != [] || slot == Some(Next)
    requires forall i :: 0 <= i < |moves| ==> moves[i].PointerAt? && !InLeftZone(moves[i].x, margin) && InRightZone(moves[i].x, margin, width)
    ensures RunSnapTimer(slot, moves + [SnapFires], margin, width) == SnapRun(None, [Next])
    decreases |moves|
  {
    if moves == [] {
      assert moves + [SnapFires] == [SnapFires];
      assert [SnapFires][1..] == [];
    } else {
      assert (moves + [SnapFires])[1..] == moves[1..] + [SnapFires];
      LingeringAtRightEdgeSnapsOnce(SnapSlotAfterMove(slot, moves[0].x, margin, width), moves[1..], margin, width);
    }
  }

  /** What the autoscroll cooldown sees: a scroll probe asking for a tick of
      `offset` units during a drag, or the cooldown elapsing. */
  datatype ScrollInput = ScrollTick(offset: int) | CooldownExpires

  /** The cooldown slot and the column's scroll offset. */
  datatype Cooldown = Cooldown(pending: bool, scrollOffset: int)

  /** One autoscroll tick of `offset` units while a drag is on: refused while
      a cooldown is pending; otherwise the offset advances, and a cooldown is
      armed only when the host provides a timer. */
  function TickStep(c: Cooldown, offset: int, timersProvided: bool): Cooldown
  {
    if c.pending then c
    else Cooldown(timersProvided, c.scrollOffset + ScrollStep * offset)
  }

  /** The cooldown slot, the column's scroll offset and the ticks applied. */
  datatype ScrollRun = ScrollRun(pending: bool, scrollOffset: int, ticks: nat)

  /** Runs the autoscroll of one column over `inputs` while a drag is on: a
      tick is applied only when no cooldown is pending, and arms one only when
      the host provides a timer. */
  function RunScrollCooldown(pending: bool, scrollOffset: int, inputs: seq<ScrollInput>, timersProvided: bool): ScrollRun
    decreases |inputs|
  {
    if inputs == [] then ScrollRun(pending, scrollOffset, 0)
    else
      match inputs[0]
      case CooldownExpires => RunScrollCooldown(false, scrollOffset, inputs[1..], timersProvided)
      case ScrollTick(offset) =>
        var next := TickStep(Cooldown(pending, scrollOffset), offset, timersProvided);
        var rest := RunScrollCooldown(next.pending, next.scrollOffset, inputs[1..], timersProvided);
        ScrollRun(rest.pending, rest.scrollOffset, rest.ticks + (if pending then 0 else 1))
  }

  function ExpiryCount(inputs: seq<ScrollInput>): nat
  {
    if inputs == [] then 0 else (if inputs[0].CooldownExpires? then 1 else 0) + ExpiryCount(inputs[1..])
  }

  /** With a timer available, ticks are rate-limited by the cooldown: between
      two expiries at most one tick is applied. */
  lemma {:induction false} TicksBoundedByCooldown(pending: bool, scrollOffset: int, inputs: seq<ScrollInput>)
    ensures RunScrollCooldown(pending, scrollOffset, inputs, true).ticks
      <= ExpiryCount(inputs) + (if pending then 0 else 1)
    decreases |inputs|
  {
    if inputs != [] {
      match inputs[0]
      case CooldownExpires => TicksBoundedByCooldown(false, scrollOffset, inputs[1..]);
      case ScrollTick(offset) =>
        if pending {
          TicksBoundedByCooldown(pending, scrollOffset, inputs[1..]);
        } else {
          TicksBoundedByCooldown(true, scrollOffset + ScrollStep * offset, inputs[1..]);
        }
    }
  }

  /** Without a timer the cooldown never arms, and every tick is applied. */
  lemma {:induction false} EveryTickAppliedWithoutTimers(scrollOffset: int, inputs: seq<ScrollInput>)
    ensures RunScrollCooldown(false, scrollOffset, inputs, false).ticks == |inputs| - ExpiryCount(inputs)
    decreases |inputs|
  {
    if inputs != [] {
      match inputs[0]
      case CooldownExpires => EveryTickAppliedWithoutTimers(scrollOffset, inputs[1..]);
      case ScrollTick(offset) => EveryTickAppliedWithoutTimers(scrollOffset + ScrollStep * offset, inputs[1..]);
    }
  }
}
