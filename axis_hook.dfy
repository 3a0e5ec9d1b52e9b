// The axis-mode hook on resize events: with `square` it couples dx and dy
// and reports both axes; otherwise it silences the delta of the axis that
// is not being resized.

module AxisHook {

  /** The fields of a resize event the hook reads and writes. */
  datatype AxisEvent = AxisEvent(axes: string, dx: real, dy: real)

  /** The hook for an interaction whose resize axes are `resizeAxes` (the
      empty string when unset). Unset axes leave the event alone. Under
      `square` the event reports 'xy' and both deltas take the one of the
      resized axis: dy for 'y', dx otherwise. Without `square` the event
      reports the interaction's axes, and 'x' (or 'y') zeroes the other
      delta. */
  function ResizeAxesHook(resizeAxes: string, square: bool, ev: AxisEvent): (out: AxisEvent)
    ensures resizeAxes == "" ==> out == ev
    ensures resizeAxes != "" && square ==>
              out.axes == "xy" && out.dx == out.dy &&
              (if resizeAxes == "y" then out.dy == ev.dy else out.dx == ev.dx)
    ensures resizeAxes != "" && !square ==>
              out.axes == resizeAxes &&
              out.dx == (if resizeAxes == "y" then 0.0 else ev.dx) &&
              out.dy == (if resizeAxes == "x" then 0.0 else ev.dy)
  {
    if resizeAxes == "" then ev
    else if square then
      if resizeAxes == "y" then ev.(dx := ev.dy, axes := "xy")
      else ev.(dy := ev.dx, axes := "xy")
    else
      var e := ev.(axes := resizeAxes);
      if resizeAxes == "x" then e.(dy := 0.0)
      else if resizeAxes == "y" then e.(dx := 0.0)
      else e
  }

  /** Running the hook twice on an event is running it once. The hook
      overwrites the event's fields in place, so this says its outcome does
      not depend on whether the event has already been through it. */
  lemma HookIdempotent(resizeAxes: string, square: bool, ev: AxisEvent)
    ensures ResizeAxesHook(resizeAxes, square, ResizeAxesHook(resizeAxes, square, ev))
              == ResizeAxesHook(resizeAxes, square, ev)
  {
  }
}
