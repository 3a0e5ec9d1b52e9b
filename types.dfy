// Values shared by every part of the resize gesture model: rectangles,
// edge sets, pointer positions and the resolved resize options.

module Wrappers {
  datatype Option<+T> = None | Some(value: T)
}

module ResizeTypes {

  import opened Wrappers

  /** A pointer position in page coordinates. */
  datatype Point = Point(x: real, y: real)

  /** A rectangle with its four edge coordinates and the two sizes kept
      beside them as fields of their own (they are not recomputed
      automatically, so they can disagree with the edges). */
  datatype Rect = Rect(left: real, top: real, right: real, bottom: real, width: real, height: real)

  /** The six fields of a rectangle, so that code may walk them by name. */
  datatype Field = FieldLeft | FieldRight | FieldTop | FieldBottom | FieldWidth | FieldHeight

  /** The key order of a rectangle returned by the element-rect accessor. */
  const RectFields: seq<Field> := [FieldLeft, FieldRight, FieldTop, FieldBottom, FieldWidth, FieldHeight]

  function Get(r: Rect, f: Field): real
  {
    match f
    case FieldLeft => r.left
    case FieldRight => r.right
    case FieldTop => r.top
    case FieldBottom => r.bottom
    case FieldWidth => r.width
    case FieldHeight => r.height
  }

  function With(r: Rect, f: Field, v: real): (s: Rect)
    ensures Get(s, f) == v
    ensures forall g :: g != f ==> Get(s, g) == Get(r, g)
  {
    match f
    case FieldLeft => r.(left := v)
    case FieldRight => r.(right := v)
    case FieldTop => r.(top := v)
    case FieldBottom => r.(bottom := v)
    case FieldWidth => r.(width := v)
    case FieldHeight => r.(height := v)
  }

  /** Two rectangles that agree on every field are equal. */
  lemma FieldsDetermineRect(a: Rect, b: Rect)
    requires forall f :: Get(a, f) == Get(b, f)
    ensures a == b
  {
    assert Get(a, FieldLeft) == Get(b, FieldLeft) && Get(a, FieldRight) == Get(b, FieldRight);
    assert Get(a, FieldTop) == Get(b, FieldTop) && Get(a, FieldBottom) == Get(b, FieldBottom);
    assert Get(a, FieldWidth) == Get(b, FieldWidth) && Get(a, FieldHeight) == Get(b, FieldHeight);
  }

  /** Width and height agree with the edges. */
  predicate Consistent(r: Rect)
  {
    r.width == r.right - r.left && r.height == r.bottom - r.top
  }

  const ZeroRect: Rect := Rect(0.0, 0.0, 0.0, 0.0, 0.0, 0.0)

  /** The field-by-field difference `a - b`; the delta of one move.
      The difference of two consistent rectangles is itself consistent,
      so `delta.width == delta.right - delta.left`. */
  function Diff(a: Rect, b: Rect): (d: Rect)
    ensures forall f :: Get(d, f) == Get(a, f) - Get(b, f)
    ensures Consistent(a) && Consistent(b) ==> Consistent(d)
  {
    Rect(a.left - b.left, a.top - b.top, a.right - b.right, a.bottom - b.bottom,
         a.width - b.width, a.height - b.height)
  }

  function Min(a: real, b: real): real { if a < b then a else b }
  function Max(a: real, b: real): real { if a > b then a else b }

  /** The four edges a gesture may grab. */
  datatype Side = Top | Bottom | Left | Right

  /** Which edges a gesture moves. */
  datatype Edges = Edges(top: bool, bottom: bool, left: bool, right: bool)

  const NoEdges: Edges := Edges(false, false, false, false)

  function EdgeOf(e: Edges, s: Side): bool
  {
    match s
    case Top => e.top
    case Bottom => e.bottom
    case Left => e.left
    case Right => e.right
  }

  function SetEdge(e: Edges, s: Side, b: bool): (r: Edges)
    ensures EdgeOf(r, s) == b
    ensures forall t :: t != s ==> EdgeOf(r, t) == EdgeOf(e, t)
  {
    match s
    case Top => e.(top := b)
    case Bottom => e.(bottom := b)
    case Left => e.(left := b)
    case Right => e.(right := b)
  }

  /** Opposite edges are never both set. */
  predicate Exclusive(e: Edges)
  {
    !(e.left && e.right) && !(e.top && e.bottom)
  }

  predicate AnyEdge(e: Edges)
  {
    e.top || e.bottom || e.left || e.right
  }

  /** A drag of the left and bottom edges or of the right and top edges:
      the two corners where width and height change in opposite senses. */
  predicate Diagonal(e: Edges)
  {
    (e.left && e.bottom) || (e.right && e.top)
  }

  /** The value of one entry of the `edges` option: falsy, the literal
      `true` (probe the pointer against the rectangle), or a handle given as
      an element or a CSS selector. For a handle, `matches` is the answer of
      the DOM collaborator: the event target is that element, or matches the
      selector on its way up to the interactable's element. */
  datatype EdgeValue = Falsy | Pointer | Handle(matches: bool)

  /** The `edges` option when it is an object. */
  datatype EdgeSpec = EdgeSpec(top: EdgeValue, bottom: EdgeValue, left: EdgeValue, right: EdgeValue)

  function SpecOf(spec: EdgeSpec, s: Side): EdgeValue
  {
    match s
    case Top => spec.top
    case Bottom => spec.bottom
    case Left => spec.left
    case Right => spec.right
  }

  /** The `axis` option: 'x', 'y' or 'xy'. */
  datatype Axis = AxisX | AxisY | AxisXY

  /** The `invert` option. Every value other than 'negate' and 'reposition'
      (the default 'none' among them) forbids inversion. */
  datatype Invert = NoInvert | Negate | Reposition

  /** The resolved resize options of an interactable. `edges` is None when
      the option is not an object; `margin` is None when it is unset (NaN). */
  datatype ResizeOptions = ResizeOptions(
    enabled: bool,
    edges: Option<EdgeSpec>,
    axis: Axis,
    square: bool,
    preserveAspectRatio: bool,
    invert: Invert,
    margin: Option<real>)

}
