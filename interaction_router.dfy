/**
 * The dashboard controller's gesture handlers. Each handler performs a short,
 * fixed sequence of effects; the functions below state what that sequence
 * guarantees, and the `DashboardController` methods perform it step by step,
 * appending to the controller's effect trace and stopping the gesture event.
 */
module InteractionRouter {
  import opened DashboardModel
  import opened Effects

  /** Effects of `clickRefreshWidget(event, widget)`. */
  function RefreshWidgetEffects(widget: Widget): (r: seq<Effect>)
    ensures Count(r, RefreshWidget(widget)) == 1
    ensures Count(r, StopPropagation) == 1
    ensures forall e :: e in r ==> e == RefreshWidget(widget) || e == StopPropagation
    ensures NoRemoval(r) && RemovalsConfirmed(r)
  {
    [RefreshWidget(widget), StopPropagation]
  }

  /**
   * Effects of `clickContainer(event, container)`: the container becomes the
   * selection with no widget, and the sidebar tab is resolved afterwards, so that
   * the resolution sees the new selection.
   */
  function ClickContainerEffects(container: Container): (r: seq<Effect>)
    ensures Count(r, SelectWidget(None, container)) == 1
    ensures Count(r, ResolveSelectedTabForContainer) == 1
    ensures Count(r, StopPropagation) == 1
    ensures Precedes(r, SelectWidget(None, container), ResolveSelectedTabForContainer)
    ensures forall e :: e in r ==>
              e == SelectWidget(None, container) || e == StopPropagation
              || e == ResolveSelectedTabForContainer
    ensures NoRemoval(r) && RemovalsConfirmed(r)
  {
    [SelectWidget(None, container), StopPropagation, ResolveSelectedTabForContainer]
  }

  /** Effects of `clickCopyAsImage(event, widget)`: the event is stopped before the export. */
  function CopyAsImageEffects(widget: Widget): (r: seq<Effect>)
    ensures Count(r, CopyAsImage(widget)) == 1
    ensures Count(r, StopPropagation) == 1
    ensures Precedes(r, StopPropagation, CopyAsImage(widget))
    ensures forall e :: e in r ==> e == CopyAsImage(widget) || e == StopPropagation
    ensures NoRemoval(r) && RemovalsConfirmed(r)
  {
    [StopPropagation, CopyAsImage(widget)]
  }

  /** Effects of `maximizeWidget(widget)`: one delegated call, and the event is left alone. */
  function MaximizeWidgetEffects(widget: Widget): (r: seq<Effect>)
    ensures Count(r, MaximizeWidget(widget)) == 1
    ensures StopPropagation !in r
    ensures forall e :: e in r ==> e == MaximizeWidget(widget)
    ensures NoRemoval(r) && RemovalsConfirmed(r)
  {
    [MaximizeWidget(widget)]
  }

  /**
   * Effects of `removeWidget(event, widget, container)` when the warning service
   * returns `warning` and the user answers `confirmed` to the prompt. The event is
   * stopped first; the prompt shows the warning for this widget; the removal is
   * requested once, last, for exactly the widget and container given, and only
   * if the user accepted.
   */
  function RemoveWidgetEffects(widget: Widget, container: Container, warning: string, confirmed: bool)
    : (r: seq<Effect>)
    ensures Count(r, StopPropagation) == 1
    ensures Count(r, GetDeleteWarningMessage(widget)) == 1
    ensures Count(r, Confirm(warning, confirmed)) == 1
    ensures Precedes(r, StopPropagation, GetDeleteWarningMessage(widget))
    ensures Precedes(r, GetDeleteWarningMessage(widget), Confirm(warning, confirmed))
    ensures Count(r, RemoveWidget(widget, container)) == if confirmed then 1 else 0
    ensures !confirmed ==> NoRemoval(r)
    ensures confirmed ==> r[|r| - 1] == RemoveWidget(widget, container)
    ensures forall i :: 0 <= i < |r| && r[i].RemoveWidget? ==>
              confirmed && i == |r| - 1 && r[i] == RemoveWidget(widget, container)
    ensures forall e :: e in r ==>
              e == StopPropagation || e == GetDeleteWarningMessage(widget)
              || e == Confirm(warning, confirmed) || e == RemoveWidget(widget, container)
    ensures RemovalsConfirmed(r)
  {
    [StopPropagation, GetDeleteWarningMessage(widget), Confirm(warning, confirmed)]
      + (if confirmed then [RemoveWidget(widget, container)] else [])
  }

  /** The DOM event a gesture handler receives; only its propagation flag is modelled. */
  class GestureEvent {
    var propagationStopped: bool

    constructor ()
      ensures !propagationStopped
    {
      propagationStopped := false;
    }
  }

  /**
   * The dashboard controller. `trace` is the append-only log of every effect its
   * handlers have performed; its invariant is the confirmation gate: no widget
   * was ever removed without the user accepting that widget's warning.
   */
  class DashboardController {
    var trace: seq<Effect>

    ghost predicate Valid()
      reads this
    {
      RemovalsConfirmed(trace)
    }

    constructor ()
      ensures Valid() && trace == []
    {
      trace := [];
    }

    /** Performs effect `e` (a call on a collaborator or the user prompt). */
    method Perform(e: Effect)
      modifies this
      ensures trace == old(trace) + [e]
    {
      trace := trace + [e];
    }

    /** `event.stopPropagation()`: the event stops bubbling to enclosing handlers. */
    method StopEvent(event: GestureEvent)
      modifies this, event
      ensures event.propagationStopped
      ensures trace == old(trace) + [StopPropagation]
    {
      event.propagationStopped := true;
      trace := trace + [StopPropagation];
    }

    method ClickRefreshWidget(event: GestureEvent, widget: Widget)
      requires Valid()
      modifies this, event
      ensures Valid() && event.propagationStopped
      ensures trace == old(trace) + RefreshWidgetEffects(widget)
      ensures Count(trace, RefreshWidget(widget)) == Count(old(trace), RefreshWidget(widget)) + 1
    {
      Perform(RefreshWidget(widget));
      StopEvent(event);
      RemovalsConfirmedAppend(old(trace), RefreshWidgetEffects(widget));
    }

    method ClickContainer(event: GestureEvent, container: Container)
      requires Valid()
      modifies this, event
      ensures Valid() && event.propagationStopped
      ensures trace == old(trace) + ClickContainerEffects(container)
      ensures Count(trace, ResolveSelectedTabForContainer)
              == Count(old(trace), ResolveSelectedTabForContainer) + 1
    {
      Perform(SelectWidget(None, container));
      StopEvent(event);
      Perform(ResolveSelectedTabForContainer);
      RemovalsConfirmedAppend(old(trace), ClickContainerEffects(container));
    }

    method ClickCopyAsImage(event: GestureEvent, widget: Widget)
      requires Valid()
      modifies this, event
      ensures Valid() && event.propagationStopped
      ensures trace == old(trace) + CopyAsImageEffects(widget)
      ensures Count(trace, CopyAsImage(widget)) == Count(old(trace), CopyAsImage(widget)) + 1
    {
      StopEvent(event);
      Perform(CopyAsImage(widget));
      RemovalsConfirmedAppend(old(trace), CopyAsImageEffects(widget));
    }

    /** Takes no event, so it cannot stop one: it may change only the trace. */
    method MaximizeWidget(widget: Widget)
      requires Valid()
      modifies this
      ensures Valid()
      ensures trace == old(trace) + MaximizeWidgetEffects(widget)
      ensures Count(trace, Effect.MaximizeWidget(widget))
              == Count(old(trace), Effect.MaximizeWidget(widget)) + 1
    {
      Perform(Effect.MaximizeWidget(widget));
      RemovalsConfirmedAppend(old(trace), MaximizeWidgetEffects(widget));
    }

    /**
     * `warning` is what the warning service returns for `widget`; `confirmed` is
     * the user's answer to the prompt that shows it.
     */
    method RemoveWidget(event: GestureEvent, widget: Widget, container: Container,
                        warning: string, confirmed: bool)
      requires Valid()
      modifies this, event
      ensures Valid() && event.propagationStopped
      ensures trace == old(trace) + RemoveWidgetEffects(widget, container, warning, confirmed)
      ensures Count(trace, Effect.RemoveWidget(widget, container))
              == Count(old(trace), Effect.RemoveWidget(widget, container)) + (if confirmed then 1 else 0)
    {
      ghost var effects := RemoveWidgetEffects(widget, container, warning, confirmed);
      StopEvent(event);
      Perform(GetDeleteWarningMessage(widget));
      var msg := warning;
      Perform(Confirm(msg, confirmed));
      if !confirmed {
        assert trace == old(trace) + effects;
        RemovalsConfirmedAppend(old(trace), effects);
        return;
      }
      Perform(Effect.RemoveWidget(widget, container));
      assert trace == old(trace) + effects;
      RemovalsConfirmedAppend(old(trace), effects);
    }

  }
}
