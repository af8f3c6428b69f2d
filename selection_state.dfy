/**
 * The style class that shows how a container is selected. A container can be
 * selected itself (explicit selection), or be shown as selected only because the
 * explorer-wide selection points at a widget inside it (implicit selection).
 */
module SelectionStateResolver {
  import opened DashboardModel

  const ExplicitClass: string := "pk-container-selected"
  const ImplicitClass: string := "pk-container-selected-implicit"
  const UnselectedClass: string := ""

  /**
   * Style class of `container`, given the explorer-wide selected widget
   * (`explorerStateService.widgets.selected`; a JavaScript object is truthy, so
   * "a widget is selected" is `Some`). The container's own flag decides whether
   * it is highlighted at all; the explorer-wide selection only decides between
   * the explicit and the implicit highlight.
   */
  function SelectedClass(container: Container, selectedWidget: Option<Widget>): (r: string)
    ensures r == UnselectedClass <==> !container.selected
    ensures r == ImplicitClass <==> container.selected && selectedWidget.Some?
    ensures r == ExplicitClass <==> container.selected && selectedWidget.None?
  {
    if container.selected then
      if selectedWidget.Some? then ImplicitClass else ExplicitClass
    else
      UnselectedClass
  }

  /**
   * An unselected container is never highlighted, whatever widget (if any)
   * the explorer has selected.
   */
  lemma UnselectedIgnoresExplorer(container: Container, a: Option<Widget>, b: Option<Widget>)
    requires !container.selected
    ensures SelectedClass(container, a) == SelectedClass(container, b) == UnselectedClass
  {
  }

  /**
   * Which widget the explorer has selected does not matter, only whether there is
   * one: the class never names the selected widget.
   */
  lemma SelectedClassDependsOnlyOnPresence(container: Container, w1: Widget, w2: Widget)
    ensures SelectedClass(container, Some(w1)) == SelectedClass(container, Some(w2))
  {
  }

  /** The class rendered for a container, back to the kind of selection it shows. */
  function SelectionOfClass(css: string): (r: Option<bool>)
    ensures css == UnselectedClass ==> r == None
    ensures r == Some(true) <==> css == ImplicitClass
    ensures r == Some(false) <==> css == ExplicitClass
  {
    if css == ImplicitClass then Some(true)
    else if css == ExplicitClass then Some(false)
    else None
  }

  /**
   * The three classes are distinct, so the template can tell the cases apart: the
   * rendered class recovers whether the container is selected and, if so, whether
   * the explorer has a widget selected.
   */
  lemma SelectedClassRecoversState(container: Container, selectedWidget: Option<Widget>)
    ensures SelectionOfClass(SelectedClass(container, selectedWidget))
            == if container.selected then Some(selectedWidget.Some?) else None
  {
  }
}
