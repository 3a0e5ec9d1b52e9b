// The resize state an interaction keeps between the start of a gesture and
// its end: the start, current, restricted and previous rectangles, the
// delta of the last move, the prepared and linked edges and the aspect
// ratio, updated in place by the start and move handlers.

module Session {

  import opened Wrappers
  import opened ResizeTypes
  import opened Linking
  import opened RectEngine

  /** What a start or move event carries: the edges (move events only),
      the restricted rectangle and the delta rectangle. */
  datatype ResizePayload = ResizePayload(edges: Option<Edges>, rect: Rect, deltaRect: Rect)

  /** The defaults of the resize options. */
  const DefaultOptions: ResizeOptions :=
    ResizeOptions(false, None, AxisXY, false, false, NoInvert, None)

  /** What every handler keeps: a restricted rectangle consistent with its
      edges (once the start rectangle is), and, while edges are prepared,
      the linked edges derived from them, a usable ratio, and a `current`
      rectangle anchored to `start` that keeps the aspect ratio under
      `preserveAspectRatio` and the difference of width and height under
      `square`. */
  ghost predicate SessionInv(start: Rect, current: Rect, restricted: Rect, prepared: Option<Edges>,
                             linked: Option<Edges>, ratio: real, opts: ResizeOptions)
  {
    && (Consistent(start) ==> Consistent(restricted))
    && (prepared.Some? ==>
          && ((opts.square || opts.preserveAspectRatio) ==> linked == Some(LinkEdges(prepared.value)))
          && RatioRecorded(start, ratio, opts)
          && CurrentInv(start, current, prepared.value, ratio, opts))
  }

  /** Under `preserveAspectRatio`, the ratio is width over height of a
      start rectangle of non-zero size. */
  ghost predicate RatioRecorded(start: Rect, ratio: real, opts: ResizeOptions)
  {
    opts.preserveAspectRatio ==>
      start.width != 0.0 && start.height != 0.0 && ratio == start.width / start.height
  }

  /** What `current` keeps across moves for prepared edges `e`. */
  ghost predicate CurrentInv(start: Rect, current: Rect, e: Edges, ratio: real, opts: ResizeOptions)
  {
    && AnchoredBy(current, start, EffectiveEdges(opts.square, opts.preserveAspectRatio, e))
    && (opts.preserveAspectRatio && Exclusive(e) && Consistent(start) ==>
          InRatio(current, ratio))
    && (opts.square && !opts.preserveAspectRatio && Exclusive(e) ==>
          SpanX(current) - SpanY(current) == SpanX(start) - SpanY(start))
  }

  /** A move keeps the invariant of `current`. */
  lemma MoveKeepsInv(start: Rect, current: Rect, e: Edges, ratio: real, opts: ResizeOptions, delta: Step)
    requires opts.preserveAspectRatio ==> ratio != 0.0
    requires CurrentInv(start, current, e, ratio, opts)
    ensures CurrentInv(start, MoveCurrent(opts.square, opts.preserveAspectRatio, ratio, e, current, delta),
                       e, ratio, opts)
  {
    var edges := EffectiveEdges(opts.square, opts.preserveAspectRatio, e);
    var s := Couple(opts.square, opts.preserveAspectRatio, ratio, e, delta.dx, delta.dy);
    AnchoredStep(current, start, edges, s.dx, s.dy);
    if opts.preserveAspectRatio && Exclusive(e) && Consistent(start) {
      AspectStep(opts.square, ratio, e, current, delta);
    }
    if opts.square && !opts.preserveAspectRatio && Exclusive(e) {
      SquareStep(e, current, delta);
    }
  }

  /** Under 'none', a `current` rectangle that keeps the invariant is
      restricted to a non-negative size, given a start rectangle of
      non-negative size. */
  lemma ClampedInvNonNegative(start: Rect, current: Rect, e: Edges, ratio: real, opts: ResizeOptions)
    requires CurrentInv(start, current, e, ratio, opts)
    ensures start.left <= start.right && start.top <= start.bottom ==>
              Restrict(NoInvert, current, start).width >= 0.0 &&
              Restrict(NoInvert, current, start).height >= 0.0
  {
    if start.left <= start.right && start.top <= start.bottom {
      ClampedSizeNonNegative(current, start, EffectiveEdges(opts.square, opts.preserveAspectRatio, e));
    }
  }

  /** Under 'negate', the restricted rectangle shows what the invariant
      keeps of `current`: the aspect ratio under `preserveAspectRatio`, the
      difference of width and height under `square`. */
  lemma NegatedInvShape(start: Rect, current: Rect, e: Edges, ratio: real, opts: ResizeOptions)
    requires CurrentInv(start, current, e, ratio, opts)
    ensures var r := Restrict(Negate, current, start);
            && (opts.preserveAspectRatio && Exclusive(e) && Consistent(start) ==> InRatio(r, ratio))
            && (opts.square && !opts.preserveAspectRatio && Exclusive(e) ==>
                  r.width - r.height == SpanX(start) - SpanY(start))
  {
  }

  /** One move from a state that keeps the invariant: the new `current`
      and `restricted` keep it too, and `restricted` shows what each invert
      policy promises. */
  lemma MoveStep(start: Rect, current: Rect, restricted: Rect, e: Edges, linked: Option<Edges>,
                 ratio: real, opts: ResizeOptions, delta: Step)
    requires SessionInv(start, current, restricted, Some(e), linked, ratio, opts)
    ensures var c := MoveCurrent(opts.square, opts.preserveAspectRatio, ratio, e, current, delta);
            var r := Restrict(opts.invert, c, start);
            && SessionInv(start, c, r, Some(e), linked, ratio, opts)
            && (opts.invert == Reposition ==> r.left <= r.right && r.top <= r.bottom)
            && (opts.invert == NoInvert && start.left <= start.right && start.top <= start.bottom ==>
                  r.width >= 0.0 && r.height >= 0.0)
            && (opts.invert == Negate && opts.preserveAspectRatio && Exclusive(e) && Consistent(start) ==>
                  InRatio(r, ratio))
            && (opts.invert == Negate && opts.square && !opts.preserveAspectRatio && Exclusive(e) ==>
                  r.width - r.height == SpanX(start) - SpanY(start))
  {
    var c := MoveCurrent(opts.square, opts.preserveAspectRatio, ratio, e, current, delta);
    MoveKeepsInv(start, current, e, ratio, opts, delta);
    ClampedInvNonNegative(start, c, e, ratio, opts);
    NegatedInvShape(start, c, e, ratio, opts);
  }

  class ResizeSession {
    var start: Rect
    var current: Rect
    var restricted: Rect
    var previous: Rect
    var delta: Rect
    /** The edges the gesture was prepared with; None in axis mode. */
    var prepared: Option<Edges>
    /** The linked edges; None unless `square` or `preserveAspectRatio`. */
    var linked: Option<Edges>
    /** Width over height of the start rectangle, recorded under
        `preserveAspectRatio`. */
    var ratio: real
    /** The resize options in force for the gesture. */
    var opts: ResizeOptions

    /** The session invariant, on the current field values. */
    ghost predicate Valid()
      reads this
    {
      SessionInv(start, current, restricted, prepared, linked, ratio, opts)
    }

    /** A fresh interaction: no gesture prepared yet. */
    constructor ()
      ensures Valid()
      ensures prepared.None? && linked.None? && opts == DefaultOptions
      ensures start == ZeroRect && current == ZeroRect && restricted == ZeroRect
      ensures previous == ZeroRect && delta == ZeroRect
    {
      start, current, restricted, previous, delta := ZeroRect, ZeroRect, ZeroRect, ZeroRect, ZeroRect;
      prepared, linked := None, None;
      ratio := 0.0;
      opts := DefaultOptions;
    }

    /** The start handler. With prepared edges it derives the linked edges
        (under `square` or `preserveAspectRatio`), records the aspect ratio
        (under `preserveAspectRatio`), and sets `current`, `restricted` and
        `previous` to copies of the start rectangle and the delta to zero.
        Without prepared edges the rectangles are left as they were. */
    method Start(startRect: Rect, edges: Option<Edges>, options: ResizeOptions)
      returns (ev: Option<ResizePayload>)
      requires Valid()
      requires edges.Some? && options.preserveAspectRatio ==>
                 startRect.width != 0.0 && startRect.height != 0.0
      modifies this
      ensures Valid()
      ensures prepared == edges && opts == options
      ensures edges.None? ==>
                start == old(start) && current == old(current) && restricted == old(restricted) &&
                previous == old(previous) && delta == old(delta) &&
                linked == old(linked) && ratio == old(ratio) && ev.None?
      ensures edges.Some? ==>
                start == startRect && current == startRect && restricted == startRect &&
                previous == startRect && delta == ZeroRect &&
                linked == (if options.square || options.preserveAspectRatio then Some(LinkEdges(edges.value))
                           else None) &&
                ratio == (if options.preserveAspectRatio then startRect.width / startRect.height
                          else old(ratio)) &&
                ev == Some(ResizePayload(None, startRect, ZeroRect))
    {
      prepared, opts := edges, options;
      ev := None;
      if edges.Some? {
        if options.square || options.preserveAspectRatio {
          var l := edges.value;
          l := l.(top := l.top || (l.left && !l.bottom));
          l := l.(left := l.left || (l.top && !l.right));
          l := l.(bottom := l.bottom || (l.right && !l.top));
          l := l.(right := l.right || (l.bottom && !l.left));
          linked := Some(l);
        } else {
          linked := None;
        }
        if options.preserveAspectRatio {
          ratio := startRect.width / startRect.height;
        }
        start := startRect;
        current := startRect;
        restricted := startRect;
        previous := startRect;
        delta := ZeroRect;
        ev := Some(ResizePayload(None, restricted, delta));
      }
    }

    /** The move handler for a pointer delta (dx, dy). Without prepared edges
        it changes nothing. Otherwise `previous` takes the last restricted
        rectangle; the delta is coupled and applied to the effective edges of
        `current`; the invert policy gives the new `restricted`, whose width
        and height are recomputed; and `delta` becomes restricted minus
        previous, field by field. `start` never changes. */
    method Move(dx: real, dy: real) returns (ev: Option<ResizePayload>)
      requires Valid()
      modifies this
      ensures Valid()
      ensures start == old(start) && prepared == old(prepared) && linked == old(linked)
      ensures ratio == old(ratio) && opts == old(opts)
      ensures prepared.None? ==>
                current == old(current) && restricted == old(restricted) &&
                previous == old(previous) && delta == old(delta) && ev.None?
      ensures prepared.Some? ==>
                current == MoveCurrent(opts.square, opts.preserveAspectRatio, ratio, prepared.value,
                                       old(current), Step(dx, dy)) &&
                restricted == Restrict(opts.invert, current, start) &&
                previous == old(restricted) &&
                delta == Diff(restricted, previous) &&
                ev == Some(ResizePayload(prepared, restricted, delta))
      ensures prepared.Some? ==> Consistent(restricted) && (Consistent(previous) ==> Consistent(delta))
      ensures prepared.Some? && opts.invert == Reposition ==>
                restricted.left <= restricted.right && restricted.top <= restricted.bottom
      ensures prepared.Some? && opts.invert == NoInvert && start.left <= start.right && start.top <= start.bottom ==>
                restricted.width >= 0.0 && restricted.height >= 0.0
      ensures prepared.Some? && opts.invert == Negate && opts.preserveAspectRatio &&
              Exclusive(prepared.value) && Consistent(start) ==>
                InRatio(restricted, ratio)
      ensures prepared.Some? && opts.invert == Negate && opts.square && !opts.preserveAspectRatio &&
              Exclusive(prepared.value) ==>
                restricted.width - restricted.height == SpanX(start) - SpanY(start)
    {
      ev := None;
      if prepared.None? {
        return;
      }
      MoveStep(start, current, restricted, prepared.value, linked, ratio, opts, Step(dx, dy));
      previous := restricted;

      var edges, step := CoupledDelta(dx, dy);
      MoveEdges(edges, step.dx, step.dy);
      ApplyInvert();
      WriteDelta();
      ev := Some(ResizePayload(prepared, restricted, delta));
    }

    /** The first part of a move: which edges to move and by how much.
        `preserveAspectRatio` takes precedence over `square`; either one
        moves the linked edges by the coupled delta, chosen by the prepared
        edges. */
    method CoupledDelta(dx: real, dy: real) returns (edges: Edges, step: Step)
      requires Valid() && prepared.Some?
      ensures edges == EffectiveEdges(opts.square, opts.preserveAspectRatio, prepared.value)
      ensures step == Couple(opts.square, opts.preserveAspectRatio, ratio, prepared.value, dx, dy)
    {
      var originalEdges := prepared.value;
      edges := originalEdges;
      var sx, sy := dx, dy;
      if opts.preserveAspectRatio {
        edges := linked.value;
        if (originalEdges.left && originalEdges.bottom) || (originalEdges.right && originalEdges.top) {
          sy := -sx / ratio;
        } else if originalEdges.left || originalEdges.right {
          sy := sx / ratio;
        } else if originalEdges.top || originalEdges.bottom {
          sx := sy * ratio;
        }
      } else if opts.square {
        edges := linked.value;
        if (originalEdges.left && originalEdges.bottom) || (originalEdges.right && originalEdges.top) {
          sy := -sx;
        } else if originalEdges.left || originalEdges.right {
          sy := sx;
        } else if originalEdges.top || originalEdges.bottom {
          sx := sy;
        }
      }
      step := Step(sx, sy);
    }

    /** Moves the given edges of `current`, the rectangle without
        modifications. */
    method MoveEdges(edges: Edges, dx: real, dy: real)
      modifies this`current
      ensures current == ApplyMove(old(current), edges, dx, dy)
    {
      if edges.top { current := current.(top := current.top + dy); }
      if edges.bottom { current := current.(bottom := current.bottom + dy); }
      if edges.left { current := current.(left := current.left + dx); }
      if edges.right { current := current.(right := current.right + dx); }
    }

    /** Makes `restricted` from `current` under the invert policy and
        recomputes its width and height. */
    method ApplyInvert()
      modifies this`restricted
      ensures restricted == Restrict(opts.invert, current, start)
    {
      if opts.invert == Reposition || opts.invert == Negate {
        restricted := current;
        if opts.invert == Reposition {
          // swap edge values if necessary to keep width/height positive
          if restricted.top > restricted.bottom {
            var swap := restricted.top;
            restricted := restricted.(top := restricted.bottom);
            restricted := restricted.(bottom := swap);
          }
          if restricted.left > restricted.right {
            var swap := restricted.left;
            restricted := restricted.(left := restricted.right);
            restricted := restricted.(right := swap);
          }
        }
      } else {
        // not invertible: restrict to a minimum of 0x0
        restricted := restricted.(top := Min(current.top, start.bottom));
        restricted := restricted.(bottom := Max(current.bottom, start.top));
        restricted := restricted.(left := Min(current.left, start.right));
        restricted := restricted.(right := Max(current.right, start.left));
      }
      restricted := restricted.(width := restricted.right - restricted.left);
      restricted := restricted.(height := restricted.bottom - restricted.top);
    }

    /** Writes `delta` field by field as restricted minus previous. */
    method WriteDelta()
      modifies this`delta
      ensures delta == Diff(restricted, previous)
    {
      var d := delta;
      for i := 0 to |RectFields|
        invariant forall j :: 0 <= j < i ==>
          Get(d, RectFields[j]) == Get(restricted, RectFields[j]) - Get(previous, RectFields[j])
      {
        var f := RectFields[i];
        d := With(d, f, Get(restricted, f) - Get(previous, f));
      }
      forall f: Field ensures Get(d, f) == Get(Diff(restricted, previous), f) {
        assert f == RectFields[0] || f == RectFields[1] || f == RectFields[2] ||
               f == RectFields[3] || f == RectFields[4] || f == RectFields[5];
      }
      FieldsDetermineRect(d, Diff(restricted, previous));
      delta := d;
    }
  }
}
