/**
 * The observable effects of the dashboard's gesture handlers, in the order they
 * happen: calls on the collaborator services, the confirmation prompt and
 * `event.stopPropagation()`. The services' own behaviour is not visible, so each
 * call is recorded only with the arguments it was given.
 */
module Effects {
  import opened DashboardModel

  datatype Effect =
    | RefreshWidget(widget: Widget)                          // dashboardService.refreshWidget
    | SelectWidget(target: Option<Widget>, container: Container) // dashboardService.selectWidget
    | ResolveSelectedTabForContainer                         // sidebarTabService.resolveSelectedTabForContainer
    | CopyAsImage(widget: Widget)                            // widgetService.copyAsImage
    | MaximizeWidget(widget: Widget)                         // dashboardService.maximizeWidget
    | GetDeleteWarningMessage(widget: Widget)                // widgetService.getDeleteWarningMessage
    | Confirm(message: string, accepted: bool)               // window.confirm and the user's answer
    | RemoveWidget(widget: Widget, container: Container)     // dashboardService.removeWidget
    | StopPropagation                                        // event.stopPropagation

  /** Number of times `e` occurs in `trace`. */
  function Count(trace: seq<Effect>, e: Effect): nat
  {
    multiset(trace)[e]
  }

  /** The trace requests no removal of any widget. */
  predicate NoRemoval(trace: seq<Effect>)
  {
    forall i :: 0 <= i < |trace| ==> !trace[i].RemoveWidget?
  }

  /**
   * The confirmation gate, read off a trace: every removal request is immediately
   * preceded by a confirmation the user accepted, which is itself preceded by the
   * request for the warning message of the very widget being removed.
   */
  predicate RemovalsConfirmed(trace: seq<Effect>)
  {
    forall i :: 0 <= i < |trace| && trace[i].RemoveWidget? ==>
      2 <= i && trace[i - 1].Confirm? && trace[i - 1].accepted
      && trace[i - 2] == GetDeleteWarningMessage(trace[i].widget)
  }

  /** The gate holds of a trace recorded in two parts when it holds of each part. */
  lemma RemovalsConfirmedAppend(a: seq<Effect>, b: seq<Effect>)
    requires RemovalsConfirmed(a) && RemovalsConfirmed(b)
    ensures RemovalsConfirmed(a + b)
  {
  }

  /**
   * Over a whole session: if the user declined every confirmation prompt, no
   * widget was removed, whatever else happened.
   */
  lemma DeclinedPromptsRemoveNothing(trace: seq<Effect>)
    requires RemovalsConfirmed(trace)
    requires forall i :: 0 <= i < |trace| && trace[i].Confirm? ==> !trace[i].accepted
    ensures NoRemoval(trace)
  {
    forall i | 0 <= i < |trace|
      ensures !trace[i].RemoveWidget?
    {
      if 1 <= i {
        assert trace[i - 1].Confirm? ==> !trace[i - 1].accepted;
      }
    }
  }

  /** `first` occurs in `trace`, and strictly before every occurrence of `second`. */
  predicate Precedes(trace: seq<Effect>, first: Effect, second: Effect)
  {
    exists i :: 0 <= i < |trace| && trace[i] == first
      && forall j :: 0 <= j <= i ==> trace[j] != second
  }
}
