// Edge detection at the start of a resize gesture: which edges the pointer
// grabs (edge mode), or which axes it grabs (axis mode).

module EdgeDetection {

  import opened Wrappers
  import opened ResizeTypes

  /** What the checker hands to the interaction: the edges to resize, or,
      when the `edges` option is not an object, the axes as a string made of
      'x' and 'y'. */
  datatype Action = EdgeAction(edges: Edges) | AxisAction(axes: string)

  /** `resizeOptions.margin || scope.margin`: an unset (NaN) or zero margin
      falls back to the library-wide margin. */
  function ResolveMargin(margin: Option<real>, scopeMargin: real): real
  {
    if margin.Some? && margin.value != 0.0 then margin.value else scopeMargin
  }

  /** Whether the edge `name` is grabbed. A falsy option value never grabs;
      the value `true` compares the pointer with the rectangle, reading the
      edges of a rectangle with a negative width (height) with left and right
      (top and bottom) exchanged; a handle grabs when the event target is an
      element that the DOM collaborator matches against the handle. */
  function CheckResizeEdge(name: Side, value: EdgeValue, page: Point, targetIsElement: bool,
                           rect: Rect, margin: real): (r: bool)
    ensures value.Falsy? ==> !r
    ensures value.Handle? ==> (r <==> targetIsElement && value.matches)
    ensures value.Pointer? && rect.width >= 0.0 ==>
              (name == Left ==> (r <==> page.x < rect.left + margin)) &&
              (name == Right ==> (r <==> page.x > rect.right - margin))
    ensures value.Pointer? && rect.width < 0.0 ==>
              (name == Left ==> (r <==> page.x > rect.left - margin)) &&
              (name == Right ==> (r <==> page.x < rect.right + margin))
    ensures value.Pointer? && rect.height >= 0.0 ==>
              (name == Top ==> (r <==> page.y < rect.top + margin)) &&
              (name == Bottom ==> (r <==> page.y > rect.bottom - margin))
    ensures value.Pointer? && rect.height < 0.0 ==>
              (name == Top ==> (r <==> page.y > rect.top - margin)) &&
              (name == Bottom ==> (r <==> page.y < rect.bottom + margin))
  {
    match value
    case Falsy => false
    case Pointer =>
      var width := rect.width;
      var height := rect.height;
      // if dimensions are negative, "switch" edges
      var n1 := if width < 0.0 then (if name == Left then Right else if name == Right then Left else name)
                else name;
      var n := if height < 0.0 then (if n1 == Top then Bottom else if n1 == Bottom then Top else n1)
               else n1;
      (match n
       case Left => page.x < (if width >= 0.0 then rect.left else rect.right) + margin
       case Top => page.y < (if height >= 0.0 then rect.top else rect.bottom) + margin
       case Right => page.x > (if width >= 0.0 then rect.right else rect.left) - margin
       case Bottom => page.y > (if height >= 0.0 then rect.bottom else rect.top) - margin)
    case Handle(matches) => targetIsElement && matches
  }

  /** The rectangle seen in a mirror: left and right exchanged. */
  function MirrorX(r: Rect): Rect
  {
    r.(left := r.right, right := r.left, width := -r.width)
  }

  /** The rectangle turned upside down: top and bottom exchanged. */
  function MirrorY(r: Rect): Rect
  {
    r.(top := r.bottom, bottom := r.top, height := -r.height)
  }

  /** Probing an inverted rectangle is probing its upright mirror image with
      the edge labels exchanged: the test follows the geometry, not the names. */
  lemma InvertedRectProbesMirror(page: Point, targetIsElement: bool, rect: Rect, margin: real)
    ensures rect.width < 0.0 ==>
      CheckResizeEdge(Left, Pointer, page, targetIsElement, rect, margin)
        == CheckResizeEdge(Right, Pointer, page, targetIsElement, MirrorX(rect), margin) &&
      CheckResizeEdge(Right, Pointer, page, targetIsElement, rect, margin)
        == CheckResizeEdge(Left, Pointer, page, targetIsElement, MirrorX(rect), margin)
    ensures rect.height < 0.0 ==>
      CheckResizeEdge(Top, Pointer, page, targetIsElement, rect, margin)
        == CheckResizeEdge(Bottom, Pointer, page, targetIsElement, MirrorY(rect), margin) &&
      CheckResizeEdge(Bottom, Pointer, page, targetIsElement, rect, margin)
        == CheckResizeEdge(Top, Pointer, page, targetIsElement, MirrorY(rect), margin)
  {
  }

  /** The order in which the checker visits the edges (the key order of its
      `resizeEdges` object). */
  const ProbeOrder: seq<Side> := [Left, Right, Top, Bottom]

  /** Every edge probed on its own, before opposite edges are reconciled. */
  function Probe(spec: EdgeSpec, page: Point, targetIsElement: bool, rect: Rect, margin: real): Edges
  {
    Edges(CheckResizeEdge(Top, spec.top, page, targetIsElement, rect, margin),
          CheckResizeEdge(Bottom, spec.bottom, page, targetIsElement, rect, margin),
          CheckResizeEdge(Left, spec.left, page, targetIsElement, rect, margin),
          CheckResizeEdge(Right, spec.right, page, targetIsElement, rect, margin))
  }

  /** The axes string of axis mode: 'x' when the right edge is grabbed, then
      'y' when the bottom edge is. */
  function AxesString(right: bool, bottom: bool): (axes: string)
    ensures (axes == "") <==> !right && !bottom
    ensures right && bottom ==> axes == "xy"
    ensures right && !bottom ==> axes == "x"
    ensures !right && bottom ==> axes == "y"
  {
    assert "x" + "" == "x" && "" + "y" == "y" && "" + "" == "";
    (if right then "x" else "") + (if bottom then "y" else "")
  }

  /** The resize action checker. Returns nothing when there is no rectangle,
      when resizing is disabled, or when nothing is grabbed. In edge mode the
      edges come from probing each edge, then a grabbed right edge cancels
      the left one and a grabbed bottom edge cancels the top one; in axis
      mode the right (bottom) edge is grabbed when the axis option allows x
      (y) and the pointer is past the library-wide margin from that edge. */
  method Checker(rect: Option<Rect>, page: Point, opts: ResizeOptions, targetIsElement: bool,
                 scopeMargin: real) returns (action: Option<Action>)
    ensures action.Some? ==> rect.Some? && opts.enabled
    ensures action.Some? && action.value.EdgeAction? ==>
              opts.edges.Some? && AnyEdge(action.value.edges) && Exclusive(action.value.edges)
    ensures action.Some? && action.value.AxisAction? ==>
              opts.edges.None? && action.value.axes in {"x", "y", "xy"}
    ensures rect.Some? && opts.enabled && opts.edges.Some? ==>
              var raw := Probe(opts.edges.value, page, targetIsElement, rect.value,
                               ResolveMargin(opts.margin, scopeMargin));
              (action.None? <==> !AnyEdge(raw)) &&
              (action.Some? ==> action.value == EdgeAction(raw.(left := raw.left && !raw.right,
                                                                top := raw.top && !raw.bottom)))
    ensures rect.Some? && opts.enabled && opts.edges.None? ==>
              var right := opts.axis != AxisY && page.x > rect.value.right - scopeMargin;
              var bottom := opts.axis != AxisX && page.y > rect.value.bottom - scopeMargin;
              (action.None? <==> !right && !bottom) &&
              (action.Some? ==> action.value == AxisAction(AxesString(right, bottom)))
  {
    if rect.None? {
      return None;
    }
    action := None;
    if opts.enabled {
      if opts.edges.Some? {
        var spec := opts.edges.value;
        var margin := ResolveMargin(opts.margin, scopeMargin);
        var found := NoEdges;
        for i := 0 to |ProbeOrder|
          invariant forall j :: 0 <= j < i ==>
            EdgeOf(found, ProbeOrder[j])
              == CheckResizeEdge(ProbeOrder[j], SpecOf(spec, ProbeOrder[j]), page, targetIsElement, rect.value, margin)
          invariant forall j :: i <= j < |ProbeOrder| ==> !EdgeOf(found, ProbeOrder[j])
        {
          var side := ProbeOrder[i];
          found := SetEdge(found, side,
                           CheckResizeEdge(side, SpecOf(spec, side), page, targetIsElement, rect.value, margin));
        }
        assert found == Probe(spec, page, targetIsElement, rect.value, margin) by {
          assert found.left == EdgeOf(found, ProbeOrder[0]);
          assert found.right == EdgeOf(found, ProbeOrder[1]);
          assert found.top == EdgeOf(found, ProbeOrder[2]);
          assert found.bottom == EdgeOf(found, ProbeOrder[3]);
        }
        found := found.(left := found.left && !found.right);
        found := found.(top := found.top && !found.bottom);
        if AnyEdge(found) {
          action := Some(EdgeAction(found));
        }
      } else {
        var right := opts.axis != AxisY && page.x > rect.value.right - scopeMargin;
        var bottom := opts.axis != AxisX && page.y > rect.value.bottom - scopeMargin;
        if right || bottom {
          action := Some(AxisAction(AxesString(right, bottom)));
        }
      }
    }
  }
}
