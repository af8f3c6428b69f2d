# Dashboard interaction controller (PerfKit Explorer) in Dafny

This project models the controller of PerfKit Explorer's dashboard directive. The
directive renders a dashboard as containers (rows) of widgets. Its controller does three
things that have behaviour of their own:

- **Selection class** (`getSelectedClass`). It decides how a container is highlighted.
  A container is either not selected, selected explicitly, or selected implicitly. The
  implicit case means the container is selected but the explorer-wide selection points
  at a widget. Module `SelectionStateResolver`.
- **Flex width** (`getWidgetFlexWidth`). It gives a widget's width as a whole percentage
  of its container's columns. Module `LayoutMath`.
- **Gesture handlers** (`clickRefreshWidget`, `clickContainer`, `clickCopyAsImage`,
  `maximizeWidget`, `removeWidget`). Each runs a short fixed sequence of calls on
  collaborator services and on the DOM event. Module `Effects` names those calls. Module
  `InteractionRouter` states what each handler's sequence guarantees as a function, then
  performs it step by step in the methods of class `DashboardController`. Those methods
  append to an effect trace and set the event's `propagationStopped` flag (class
  `GestureEvent`).

Module `DashboardModel` holds the entities. A `Widget` has an identity and a column
span. A `Container` has an identity, a column count and its own `selected` flag. The
explorer-wide selected widget is an `Option<Widget>`. In JavaScript any widget object
is truthy, so "a widget is selected" means `Some`.

The collaborator services cannot be seen, so their calls are recorded only by name and
arguments. These are `dashboardService`, `widgetService`, `sidebarTabService` and
`window.confirm`. Two values they return become parameters of `RemoveWidget`. `warning`
is the message `getDeleteWarningMessage` returns. `confirmed` is the user's answer to
`window.confirm`.

The controller's invariant (`Valid`) is the confirmation gate. Across every handler
ever run, each removal request in the trace comes right after a confirmation the user
accepted. That confirmation in turn comes right after the warning request for the same
widget.

## Model

| member | source | states |
|---|---|---|
| `LayoutMath.WidgetFlexWidth` | client/components/dashboard/dashboard-directive.js:139-144 | For a positive column count, the width is the floor of `columnspan / columns * 100`: `r * columns <= columnspan * 100 < (r + 1) * columns` |
| `LayoutMath.FlexWidthIsFloor` | client/components/dashboard/dashboard-directive.js:139-144 | Any integer that brackets `columnspan * 100` this way is the computed width, so the floor characterisation determines the result |
| `LayoutMath.FlexWidthBounds` | client/components/dashboard/dashboard-directive.js:139-144 | A widget with `0 <= columnspan <= columns` gets a width between 0 and 100 |
| `LayoutMath.FlexWidthMonotone` | client/components/dashboard/dashboard-directive.js:139-144 | In the same container, a larger column span never gives a smaller width |
| `LayoutMath.FlexWidthFull` | client/components/dashboard/dashboard-directive.js:139-144 | For a widget that fits its row, the width is 100 exactly when it spans every column |
| `LayoutMath.FlexWidthExamples` | client/components/dashboard/dashboard-directive.js:139-144 | 3 of 4 columns gives 75; 1 of 3 columns gives 33 |
| `LayoutMath.FlexWidthTotalBrackets` | client/components/dashboard/dashboard-directive.js:139-144 | Over a row of widgets, the summed widths lie at or below the row's exact share (summed spans times 100, divided by the column count) and lose less than one percentage point per widget |
| `LayoutMath.FullRowWidths` | client/components/dashboard/dashboard-directive.js:139-144 | When a non-empty row's spans add up to the column count, its widths add up to at most 100 and to more than 100 minus the number of widgets |
| `SelectionStateResolver.SelectedClass` | client/components/dashboard/dashboard-directive.js:98-108 | `''` exactly when the container is not selected. `'pk-container-selected-implicit'` exactly when it is selected and a widget is selected explorer-wide. `'pk-container-selected'` exactly when it is selected and no widget is |
| `SelectionStateResolver.UnselectedIgnoresExplorer` | client/components/dashboard/dashboard-directive.js:98-107 | An unselected container gets `''` whatever the explorer-wide selection is |
| `SelectionStateResolver.SelectedClassDependsOnlyOnPresence` | client/components/dashboard/dashboard-directive.js:99-101 | Only whether a widget is selected matters, not which widget |
| `SelectionStateResolver.SelectedClassRecoversState` | client/components/dashboard/dashboard-directive.js:98-108 | The three classes are distinct: the rendered class recovers whether the container is selected and, if so, whether a widget is selected explorer-wide |
| `Effects.RemovalsConfirmedAppend` | client/components/dashboard/dashboard-directive.js:111-120 | The confirmation gate holds of a trace recorded in two parts when it holds of each part, so appending one handler's effects keeps it |
| `Effects.DeclinedPromptsRemoveNothing` | client/components/dashboard/dashboard-directive.js:116-120 | Over a whole session, if every confirmation was declined, no removal was ever requested |
| `InteractionRouter.RefreshWidgetEffects` | client/components/dashboard/dashboard-directive.js:72-75 | Exactly one refresh of the given widget and one propagation stop, and nothing else; no removal |
| `InteractionRouter.ClickContainerEffects` | client/components/dashboard/dashboard-directive.js:78-83 | Exactly one `selectWidget(null, container)`, one propagation stop and one tab resolution, and nothing else. The selection comes before any tab resolution |
| `InteractionRouter.CopyAsImageEffects` | client/components/dashboard/dashboard-directive.js:86-90 | Exactly one copy-as-image of the given widget and one propagation stop, and nothing else. The stop comes before the copy |
| `InteractionRouter.MaximizeWidgetEffects` | client/components/dashboard/dashboard-directive.js:93-95 | Exactly one maximize call on the given widget; propagation is not stopped; nothing else happens |
| `InteractionRouter.RemoveWidgetEffects` | client/components/dashboard/dashboard-directive.js:111-121 | One propagation stop, then one warning request for the widget, then one prompt with that warning. A declined prompt means no removal at all. An accepted prompt ends the sequence with exactly one removal of the given widget and container. No removal appears anywhere else, and no other effect occurs |
| `InteractionRouter.DashboardController.constructor` | client/components/dashboard/dashboard-directive.js:51-55 | A new controller has an empty trace and satisfies the confirmation gate |
| `InteractionRouter.DashboardController.StopEvent` | client/components/dashboard/dashboard-directive.js:74 | `event.stopPropagation()` sets the event's flag and records the stop in the trace |
| `InteractionRouter.DashboardController.ClickRefreshWidget` | client/components/dashboard/dashboard-directive.js:72-75 | Appends exactly the refresh effects, stops the event, keeps the gate, and adds one refresh of the widget to the trace's count |
| `InteractionRouter.DashboardController.ClickContainer` | client/components/dashboard/dashboard-directive.js:78-83 | Appends exactly the click-container effects, stops the event, keeps the gate, and adds one tab resolution to the trace's count |
| `InteractionRouter.DashboardController.ClickCopyAsImage` | client/components/dashboard/dashboard-directive.js:86-90 | Appends exactly the copy-as-image effects, stops the event, keeps the gate, and adds one copy of the widget to the trace's count |
| `InteractionRouter.DashboardController.MaximizeWidget` | client/components/dashboard/dashboard-directive.js:93-95 | Appends exactly the maximize effects and keeps the gate. It changes only the trace, so no event is touched |
| `InteractionRouter.DashboardController.RemoveWidget` | client/components/dashboard/dashboard-directive.js:111-121 | Stops the event and appends exactly the removal effects for the user's answer, returning early when the prompt is declined. Keeps the gate. Adds one removal of the widget and container to the trace's count when confirmed, and none otherwise |

## Left out

- `LayoutMath.WidgetFlexWidth`: the model computes the exact floor of the rational
  `columnspan * 100 / columns`. The source floors an IEEE-754 double (`widgetSpan /
  totalSpan * 100`), which can land just below an integer: `57 / 100 * 100` is
  `56.99999999999999` and floors to 56, where the exact result is 57. Floating-point
  rounding is not modelled.
- `LayoutMath.WidgetFlexWidth`: a column count that is not positive is excluded by a
  precondition. The source does not guard it. At zero it returns `Infinity` or `NaN`; a
  negative count gives a finite value (1 of -4 columns gives -25), which the model does not
  cover. Column spans and column counts are modelled as integers. Fractional or non-numeric values are not modelled.
- `isWidgetScrollable` (dashboard-directive.js:128-130) passes its call straight to
  `widgetService.isScrollable`. It has no behaviour of its own.
- The directive definition object, template URL, transclusion and the services exposed
  on `$scope` (dashboard-directive.js:43-69) are framework wiring.
- The behaviour of `dashboardService`, `widgetService`, `sidebarTabService` and
  `explorerStateService` is not part of this model. Their calls appear only as trace
  entries. In particular, `selectWidget` is not modelled as changing the explorer-wide
  selection that `SelectedClass` reads.
- Collaborator calls are assumed to return normally. In the source, an exception from
  one ends the handler at that call. For `ClickRefreshWidget` (`refreshWidget`) and
  `ClickContainer` (`selectWidget`) the call comes before `event.stopPropagation()`, so a
  throw would leave the event bubbling; in `RemoveWidget` a throw from
  `getDeleteWarningMessage` would end the handler before the prompt. The handlers'
  contracts (the event is stopped, the trace gains the full effect sequence) describe
  only the normal-return path.
- `window.confirm` is a blocking browser prompt. It is modelled only by the user's
  answer (`confirmed`). The warning text is modelled only as the value the warning
  service returns (`warning`).
- Browser event delivery to enclosing handlers is not modelled. Only the event's
  `propagationStopped` flag, which that delivery consults, is modelled.
- Object identity is modelled by an `id` field on `Widget` and `Container`. The model
  has no aliasing between entity objects.
- client/mocks/field_cube_data_service_mock.js is a constant test fixture with no logic.
