/**
 * The entities the dashboard controller is handed by the rendering layer.
 * The controller only reads them; collaborator services own and mutate them.
 */
module DashboardModel {

  /** JavaScript's "object or null" for an optional reference. */
  datatype Option<T> = None | Some(value: T)

  /**
   * A widget inside a container. `id` stands for the in-memory identity of the
   * widget object, so two widgets are the same target only if their ids agree;
   * `columnspan` is `widget.model.layout.columnspan`.
   */
  datatype Widget = Widget(id: nat, columnspan: int)

  /**
   * A container (a row of widgets). `columns` is `container.model.container.columns`,
   * the total column budget of the row; `selected` is `container.state().selected`,
   * the container's own local selection flag.
   */
  datatype Container = Container(id: nat, columns: int, selected: bool)
}
