// The arithmetic of one resize move, as values: coupling of the pointer
// delta under `square` / `preserveAspectRatio`, moving the grabbed edges of
// the `current` rectangle, and the invert policy that turns `current` into
// the `restricted` rectangle handed to listeners.

module RectEngine {

  import opened ResizeTypes
  import opened Linking

  /** A pointer delta. */
  datatype Step = Step(dx: real, dy: real)

  /** Horizontal and vertical extent, read from the edges. */
  function SpanX(r: Rect): real { r.right - r.left }
  function SpanY(r: Rect): real { r.bottom - r.top }

  /** The delta after coupling. `preserveAspectRatio` wins over `square`,
      which couples at ratio 1. The edges grabbed at the start (not the
      linked ones) choose the case: a drag that involves the left or right
      edge keeps dx and derives dy, one of the top or bottom edge alone keeps
      dy and derives dx; a left+bottom or right+top drag couples with the
      opposite sign. Nothing is grabbed, or neither option is set: the delta
      is left alone. */
  function Couple(square: bool, preserveAspectRatio: bool, ratio: real, orig: Edges,
                  dx: real, dy: real): (s: Step)
    requires preserveAspectRatio ==> ratio != 0.0
    ensures (!preserveAspectRatio && !square) || !AnyEdge(orig) ==> s == Step(dx, dy)
    ensures (preserveAspectRatio || square) && AnyEdge(orig) ==>
              var k := if preserveAspectRatio then ratio else 1.0;
              if Diagonal(orig) then s.dx == -k * s.dy else s.dx == k * s.dy
    ensures (preserveAspectRatio || square) && (orig.left || orig.right) ==> s.dx == dx
    ensures (preserveAspectRatio || square) && !orig.left && !orig.right ==> s.dy == dy
  {
    if preserveAspectRatio then
      if Diagonal(orig) then Step(dx, -dx / ratio)
      else if orig.left || orig.right then Step(dx, dx / ratio)
      else if orig.top || orig.bottom then Step(dy * ratio, dy)
      else Step(dx, dy)
    else if square then
      if Diagonal(orig) then Step(dx, -dx)
      else if orig.left || orig.right then Step(dx, dx)
      else if orig.top || orig.bottom then Step(dy, dy)
      else Step(dx, dy)
    else Step(dx, dy)
  }

  /** The edges a move applies to: the linked edges under `square` or
      `preserveAspectRatio`, the prepared edges otherwise. */
  function EffectiveEdges(square: bool, preserveAspectRatio: bool, prepared: Edges): (e: Edges)
    ensures Exclusive(prepared) ==> Exclusive(e)
  {
    if square || preserveAspectRatio then LinkEdges(prepared) else prepared
  }

  /** Moves the grabbed edges of `r`: top and bottom by dy, left and right
      by dx. The stored width and height are not touched. */
  function ApplyMove(r: Rect, e: Edges, dx: real, dy: real): (m: Rect)
    ensures m.width == r.width && m.height == r.height
    ensures m.top - r.top == (if e.top then dy else 0.0)
    ensures m.bottom - r.bottom == (if e.bottom then dy else 0.0)
    ensures m.left - r.left == (if e.left then dx else 0.0)
    ensures m.right - r.right == (if e.right then dx else 0.0)
  {
    var a := if e.top then r.(top := r.top + dy) else r;
    var b := if e.bottom then a.(bottom := a.bottom + dy) else a;
    var c := if e.left then b.(left := b.left + dx) else b;
    if e.right then c.(right := c.right + dx) else c
  }

  /** The `restricted` rectangle for a `current` rectangle, with its width
      and height recomputed from its edges. 'negate' keeps the edges of
      `current`, so the size may be negative; 'reposition' keeps the same
      pair of coordinates on each axis but puts the smaller one first;
      every other policy clamps each edge so that it never crosses the
      opposite edge of the `start` rectangle. */
  function Restrict(invert: Invert, current: Rect, start: Rect): (r: Rect)
    ensures Consistent(r)
    ensures invert == Negate ==>
              r.left == current.left && r.right == current.right &&
              r.top == current.top && r.bottom == current.bottom
    ensures invert == Reposition ==>
              r.left <= r.right && r.top <= r.bottom &&
              multiset{r.left, r.right} == multiset{current.left, current.right} &&
              multiset{r.top, r.bottom} == multiset{current.top, current.bottom}
    ensures invert == NoInvert ==>
              r.top == (if current.top <= start.bottom then current.top else start.bottom) &&
              r.bottom == (if current.bottom >= start.top then current.bottom else start.top) &&
              r.left == (if current.left <= start.right then current.left else start.right) &&
              r.right == (if current.right >= start.left then current.right else start.left)
  {
    var e := match invert
      case Negate => current
      case Reposition =>
        var v := if current.top > current.bottom then current.(top := current.bottom, bottom := current.top)
                 else current;
        if v.left > v.right then v.(left := v.right, right := v.left) else v
      case NoInvert =>
        current.(top := Min(current.top, start.bottom), bottom := Max(current.bottom, start.top),
                 left := Min(current.left, start.right), right := Max(current.right, start.left));
    e.(width := e.right - e.left, height := e.bottom - e.top)
  }

  /** What a fixed edge set keeps of the start rectangle: an edge that is not
      grabbed stays put, and two opposite edges that are both grabbed move
      together, so their distance stays that of the start rectangle. */
  ghost predicate AnchoredBy(current: Rect, start: Rect, e: Edges)
  {
    && (!e.top ==> current.top == start.top)
    && (!e.bottom ==> current.bottom == start.bottom)
    && (e.top && e.bottom ==> SpanY(current) == SpanY(start))
    && (!e.left ==> current.left == start.left)
    && (!e.right ==> current.right == start.right)
    && (e.left && e.right ==> SpanX(current) == SpanX(start))
  }

  /** One move of `current` as the move handler performs it: couple the
      pointer delta, then move the effective edges. */
  function MoveCurrent(square: bool, preserveAspectRatio: bool, ratio: real, prepared: Edges,
                       current: Rect, delta: Step): Rect
    requires preserveAspectRatio ==> ratio != 0.0
  {
    var s := Couple(square, preserveAspectRatio, ratio, prepared, delta.dx, delta.dy);
    ApplyMove(current, EffectiveEdges(square, preserveAspectRatio, prepared), s.dx, s.dy)
  }

  /** `current` after a whole sequence of pointer deltas. */
  function Replay(square: bool, preserveAspectRatio: bool, ratio: real, prepared: Edges,
                  current: Rect, deltas: seq<Step>): Rect
    requires preserveAspectRatio ==> ratio != 0.0
    decreases |deltas|
  {
    if deltas == [] then current
    else Replay(square, preserveAspectRatio, ratio, prepared,
                MoveCurrent(square, preserveAspectRatio, ratio, prepared, current, deltas[0]),
                deltas[1..])
  }

  /** A move keeps `current` anchored to the start rectangle. */
  lemma AnchoredStep(current: Rect, start: Rect, e: Edges, dx: real, dy: real)
    requires AnchoredBy(current, start, e)
    ensures AnchoredBy(ApplyMove(current, e, dx, dy), start, e)
  {
  }

  /** Clamping an anchored rectangle against a start rectangle of
      non-negative size never yields a negative size. */
  lemma ClampedSizeNonNegative(current: Rect, start: Rect, e: Edges)
    requires AnchoredBy(current, start, e)
    requires start.left <= start.right && start.top <= start.bottom
    ensures Restrict(NoInvert, current, start).width >= 0.0
    ensures Restrict(NoInvert, current, start).height >= 0.0
  {
  }

  /** 'none' keeps width and height at or above zero after any sequence of
      moves from a start rectangle of non-negative size, whatever edges are
      grabbed. */
  lemma {:induction false} ClampNeverInverts(square: bool, preserveAspectRatio: bool, ratio: real,
                                             prepared: Edges, start: Rect, current: Rect, deltas: seq<Step>)
    requires preserveAspectRatio ==> ratio != 0.0
    requires start.left <= start.right && start.top <= start.bottom
    requires AnchoredBy(current, start, EffectiveEdges(square, preserveAspectRatio, prepared))
    ensures var r := Restrict(NoInvert, Replay(square, preserveAspectRatio, ratio, prepared, current, deltas), start);
            r.width >= 0.0 && r.height >= 0.0
    decreases |deltas|
  {
    var e := EffectiveEdges(square, preserveAspectRatio, prepared);
    if deltas == [] {
      ClampedSizeNonNegative(current, start, e);
    } else {
      var s := Couple(square, preserveAspectRatio, ratio, prepared, deltas[0].dx, deltas[0].dy);
      AnchoredStep(current, start, e, s.dx, s.dy);
      ClampNeverInverts(square, preserveAspectRatio, ratio, prepared, start,
                        MoveCurrent(square, preserveAspectRatio, ratio, prepared, current, deltas[0]),
                        deltas[1..]);
    }
  }

  /** The extents of `r` stand in the ratio `ratio`. */
  ghost predicate InRatio(r: Rect, ratio: real)
  {
    SpanX(r) == ratio * SpanY(r)
  }

  /** Moving the linked edges of exclusive `prepared` edges by a delta
      coupled at ratio `ratio` keeps the extents in that ratio. */
  lemma CoupledMoveInRatio(ratio: real, prepared: Edges, current: Rect, s: Step)
    requires Exclusive(prepared) && InRatio(current, ratio)
    requires AnyEdge(prepared) ==> if Diagonal(prepared) then s.dx == -ratio * s.dy else s.dx == ratio * s.dy
    ensures InRatio(ApplyMove(current, LinkEdges(prepared), s.dx, s.dy), ratio)
  {
    var m := ApplyMove(current, LinkEdges(prepared), s.dx, s.dy);
    var ddx, ddy := SpanX(m) - SpanX(current), SpanY(m) - SpanY(current);
    if Diagonal(prepared) {
      if prepared.left {
        assert ddx == -s.dx && ddy == s.dy;
      } else {
        assert ddx == s.dx && ddy == -s.dy;
      }
    } else if AnyEdge(prepared) {
      if prepared.left || prepared.top {
        assert ddx == -s.dx && ddy == -s.dy;
      } else {
        assert ddx == s.dx && ddy == s.dy;
      }
    } else {
      assert ddx == 0.0 && ddy == 0.0;
    }
    assert ddx == ratio * ddy;
    assert ratio * SpanY(m) == ratio * SpanY(current) + ratio * ddy;
  }

  /** Under `preserveAspectRatio`, one move of exclusive edges keeps the
      extents of `current` in the ratio `ratio`. */
  lemma AspectStep(square: bool, ratio: real, prepared: Edges, current: Rect, delta: Step)
    requires ratio != 0.0 && Exclusive(prepared)
    requires InRatio(current, ratio)
    ensures InRatio(MoveCurrent(square, true, ratio, prepared, current, delta), ratio)
  {
    var s := Couple(square, true, ratio, prepared, delta.dx, delta.dy);
    CoupledMoveInRatio(ratio, prepared, current, s);
  }

  /** Under `preserveAspectRatio`, exclusive edges keep the extents of
      `current` in the ratio `ratio` after any sequence of moves. */
  lemma {:induction false} AspectPreserved(square: bool, ratio: real, prepared: Edges, current: Rect,
                                           deltas: seq<Step>)
    requires ratio != 0.0 && Exclusive(prepared)
    requires InRatio(current, ratio)
    ensures InRatio(Replay(square, true, ratio, prepared, current, deltas), ratio)
    decreases |deltas|
  {
    if deltas != [] {
      AspectStep(square, ratio, prepared, current, deltas[0]);
      AspectPreserved(square, ratio, prepared, MoveCurrent(square, true, ratio, prepared, current, deltas[0]),
                      deltas[1..]);
    }
  }

  /** Under `square` alone, one move of exclusive edges changes width and
      height of `current` by the same amount. */
  lemma SquareStep(prepared: Edges, current: Rect, delta: Step)
    requires Exclusive(prepared)
    ensures var m := MoveCurrent(true, false, 0.0, prepared, current, delta);
            SpanX(m) - SpanY(m) == SpanX(current) - SpanY(current)
  {
  }

  /** Under `square` alone, exclusive edges keep the difference of the
      extents of `current` after any sequence of moves. */
  lemma {:induction false} SquareDifferencePreserved(prepared: Edges, current: Rect, deltas: seq<Step>)
    requires Exclusive(prepared)
    ensures var m := Replay(true, false, 0.0, prepared, current, deltas);
            SpanX(m) - SpanY(m) == SpanX(current) - SpanY(current)
    decreases |deltas|
  {
    if deltas != [] {
      SquareStep(prepared, current, deltas[0]);
      SquareDifferencePreserved(prepared, MoveCurrent(true, false, 0.0, prepared, current, deltas[0]),
                                deltas[1..]);
    }
  }

  /** Growing a 100x50 rectangle from its bottom-right corner by (20, 10). */
  lemma CornerGrowthExample()
    ensures var start := Rect(0.0, 0.0, 100.0, 50.0, 100.0, 50.0);
            var r := Restrict(NoInvert, ApplyMove(start, Edges(false, true, false, true), 20.0, 10.0), start);
            r == Rect(0.0, 0.0, 120.0, 60.0, 120.0, 60.0)
  {
    var start := Rect(0.0, 0.0, 100.0, 50.0, 100.0, 50.0);
    var m := ApplyMove(start, Edges(false, true, false, true), 20.0, 10.0);
    assert m == Rect(0.0, 0.0, 120.0, 60.0, 100.0, 50.0);
  }

  /** The delta rectangle of that move, taken against the start rectangle
      that `previous` holds after the start handler. */
  lemma CornerDeltaExample()
    ensures Diff(Rect(0.0, 0.0, 120.0, 60.0, 120.0, 60.0), Rect(0.0, 0.0, 100.0, 50.0, 100.0, 50.0))
            == Rect(0.0, 0.0, 20.0, 10.0, 20.0, 10.0)
  {
  }

  /** Dragging the top-left corner 150 to the right under 'none' stops the
      left edge at the start rectangle's right edge: width 0. */
  lemma ClampExample()
    ensures var start := Rect(0.0, 0.0, 100.0, 50.0, 100.0, 50.0);
            var r := Restrict(NoInvert, ApplyMove(start, Edges(true, false, true, false), 150.0, 0.0), start);
            r.left == 100.0 && r.right == 100.0 && r.width == 0.0
  {
    var start := Rect(0.0, 0.0, 100.0, 50.0, 100.0, 50.0);
    var m := ApplyMove(start, Edges(true, false, true, false), 150.0, 0.0);
    assert m == Rect(150.0, 0.0, 100.0, 50.0, 100.0, 50.0);
  }

  /** The same drag of the left edge alone under 'reposition' swaps left and
      right: the rectangle spans 100 to 150. */
  lemma RepositionExample()
    ensures var start := Rect(0.0, 0.0, 100.0, 50.0, 100.0, 50.0);
            var r := Restrict(Reposition, ApplyMove(start, Edges(false, false, true, false), 150.0, 0.0), start);
            r.left == 100.0 && r.right == 150.0 && r.width == 50.0
  {
    var start := Rect(0.0, 0.0, 100.0, 50.0, 100.0, 50.0);
    var m := ApplyMove(start, Edges(false, false, true, false), 150.0, 0.0);
    assert m == Rect(150.0, 0.0, 100.0, 50.0, 100.0, 50.0);
  }
}
