/**
 * The width of a widget inside its container, as a whole percentage of the row.
 * The source computes `Math.floor(widgetSpan / totalSpan * 100)`; here that is the
 * exact floor of the rational number `columnspan * 100 / columns`.
 */
module LayoutMath {
  import opened DashboardModel

  /**
   * Flex width of `widget` inside `container`. The source does not guard a zero
   * column count (it would yield Infinity or NaN), so callers must supply a
   * positive one. The result is the floor of `columnspan / columns * 100`:
   * the largest integer whose product with `columns` does not exceed
   * `columnspan * 100`.
   */
  function WidgetFlexWidth(widget: Widget, container: Container): (r: int)
    requires container.columns > 0
    ensures r * container.columns <= widget.columnspan * 100 < (r + 1) * container.columns
  {
    var total := widget.columnspan * 100;
    var q := total / container.columns;
    assert total == container.columns * q + total % container.columns;
    assert (q + 1) * container.columns == q * container.columns + container.columns;
    q
  }

  /**
   * The floor characterisation determines the width: any integer `q` that
   * brackets `columnspan * 100` between `q * columns` and `(q + 1) * columns`
   * is the flex width.
   */
  lemma FlexWidthIsFloor(widget: Widget, container: Container, q: int)
    requires container.columns > 0
    requires q * container.columns <= widget.columnspan * 100 < (q + 1) * container.columns
    ensures WidgetFlexWidth(widget, container) == q
  {
    var r := WidgetFlexWidth(widget, container);
    if r < q {
      MulMonotone(r + 1, q, container.columns);
    } else if q < r {
      MulMonotone(q + 1, r, container.columns);
    }
  }

  /** Multiplying by a positive number keeps the order of its factors. */
  lemma MulMonotone(a: int, b: int, c: int)
    requires a <= b && c > 0
    ensures a * c <= b * c
  {
  }

  /** A widget that fits its row (0 <= span <= columns) takes between 0% and 100%. */
  lemma FlexWidthBounds(widget: Widget, container: Container)
    requires container.columns > 0
    requires 0 <= widget.columnspan <= container.columns
    ensures 0 <= WidgetFlexWidth(widget, container) <= 100
  {
    var r := WidgetFlexWidth(widget, container);
    var c := container.columns;
    if r < 0 {
      MulMonotone(r + 1, 0, c);
      assert false;
    }
    if r > 100 {
      MulMonotone(101, r, c);
      MulMonotone(widget.columnspan, c, 100);
      assert false;
    }
  }

  /** A wider span never yields a narrower widget within the same container. */
  lemma FlexWidthMonotone(narrow: Widget, wide: Widget, container: Container)
    requires container.columns > 0
    requires narrow.columnspan <= wide.columnspan
    ensures WidgetFlexWidth(narrow, container) <= WidgetFlexWidth(wide, container)
  {
    var r1 := WidgetFlexWidth(narrow, container);
    var r2 := WidgetFlexWidth(wide, container);
    if r2 < r1 {
      MulMonotone(r2 + 1, r1, container.columns);
      MulMonotone(narrow.columnspan, wide.columnspan, 100);
    }
  }

  /** A widget that fits its row fills it exactly when it spans every column. */
  lemma FlexWidthFull(widget: Widget, container: Container)
    requires container.columns > 0
    requires 0 <= widget.columnspan <= container.columns
    ensures WidgetFlexWidth(widget, container) == 100 <==> widget.columnspan == container.columns
  {
    if widget.columnspan == container.columns {
      FlexWidthIsFloor(widget, container, 100);
    }
  }

  /** Two worked cases: 3 of 4 columns gives 75, 1 of 3 columns gives 33. */
  lemma FlexWidthExamples()
    ensures WidgetFlexWidth(Widget(0, 3), Container(0, 4, false)) == 75
    ensures WidgetFlexWidth(Widget(0, 1), Container(0, 3, false)) == 33
  {
  }

  /** Total column span of a row of widgets. */
  function SpanTotal(widgets: seq<Widget>): int
  {
    if widgets == [] then 0 else widgets[0].columnspan + SpanTotal(widgets[1..])
  }

  /** Sum of the flex widths of a row of widgets inside `container`. */
  function FlexWidthTotal(widgets: seq<Widget>, container: Container): int
    requires container.columns > 0
  {
    if widgets == [] then 0
    else WidgetFlexWidth(widgets[0], container) + FlexWidthTotal(widgets[1..], container)
  }

  /**
   * Flooring each width loses less than one percentage point per widget: the
   * widths of a row sum to at most the row's exact share (`SpanTotal * 100 /
   * columns`), and to more than that share minus one point per widget.
   */
  lemma {:induction false} FlexWidthTotalBrackets(widgets: seq<Widget>, container: Container)
    requires container.columns > 0
    ensures FlexWidthTotal(widgets, container) * container.columns <= SpanTotal(widgets) * 100
    ensures SpanTotal(widgets) * 100
            < (FlexWidthTotal(widgets, container) + |widgets|) * container.columns
            || widgets == []
  {
    if widgets != [] {
      var c := container.columns;
      var rest := widgets[1..];
      FlexWidthTotalBrackets(rest, container);
      var r := WidgetFlexWidth(widgets[0], container);
      var t := FlexWidthTotal(rest, container);
      assert (r + t) * c == r * c + t * c;
      assert (r + t + |widgets|) * c == (r + 1) * c + (t + |rest|) * c;
      if rest == [] {
        assert t == 0 && SpanTotal(rest) == 0;
      }
    }
  }

  /**
   * When the spans of a non-empty row add up to the container's column count, the
   * widths add up to at most 100%, and fall short of 100% by fewer points than
   * there are widgets: the display approximation the floor accepts.
   */
  lemma FullRowWidths(widgets: seq<Widget>, container: Container)
    requires container.columns > 0
    requires widgets != []
    requires SpanTotal(widgets) == container.columns
    ensures 100 - |widgets| < FlexWidthTotal(widgets, container) <= 100
  {
    FlexWidthTotalBrackets(widgets, container);
    var c := container.columns;
    var t := FlexWidthTotal(widgets, container);
    if t > 100 {
      MulMonotone(101, t, c);
      assert false;
    }
    if t + |widgets| <= 100 {
      MulMonotone(t + |widgets|, 100, c);
      assert false;
    }
  }
}
