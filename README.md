# Resize gesture engine of interact.js, modelled in Dafny

This project models the resize action of interact.js (`src/actions/resize.js`).
It covers five parts:

- **Edge detection.** `checker` and `checkResizeEdge` decide which edges of an element the pointer grabs when a gesture starts. In axis mode they decide which axes it grabs instead.
- **Cursor key.** `getCursor` builds a cursor key and looks it up in the cursor table.
- **Linked edges.** Under `square` or `preserveAspectRatio`, dragging one edge also moves an orthogonal edge.
- **Rectangle state machine.** The `start-resize` and `move-resize` handlers keep the `start`, `current`, `restricted`, `previous` and `delta` rectangles. On every move they couple dx and dy, move the grabbed edges, apply the `invert` policy and write the delta.
- **Axis-mode hook.** A hook on resize events couples or silences dx and dy in axis mode.

Files:

- `types.dfy`: rectangles, edge sets, options (modules `Wrappers` and `ResizeTypes`).
- `edge_detection.dfy`: `checkResizeEdge` as a function; `checker` as a method whose loop probes the edges in the key order of its `resizeEdges` object.
- `cursors.dfy`: the two cursor tables, the key-building loop and `getCursor`.
- `linking.dfy`: the linked-edge derivation, written as the four assignments run in sequence.
- `rect_engine.dfy`: one move as pure functions (`Couple`, `ApplyMove`, `Restrict`, `Diff`), with lemmas over single moves and whole sequences of moves.
- `session.dfy`: the class `ResizeSession`. Its fields are the rectangles, edges, ratio and options the handlers update in place. `Start` and `Move` model the two handlers.
- `axis_hook.dfy`: the axis-mode hook.

Three facts about the code that shape the model:

- **Linked edges.** The linked edges are assigned in sequence (src/actions/resize.js:153-156), so later lines read fields that earlier lines already updated. Reading all four right-hand sides from the prepared edges instead gives the same result on exclusive edge sets, which are the only sets the checker produces (`Linking.SequentialMatchesSnapshot`). The two readings differ for left+right (`Linking.SequentialDiffersFromSnapshot`).
- **Coupled deltas.** The coupled dx and dy are locals of the move handler (src/actions/resize.js:207-232). They are never written back to the event, which keeps the raw deltas. `Move` therefore returns only the edges, the restricted rectangle and the delta rectangle.
- **Axis-mode margin.** The axis-mode probe compares against the library-wide margin only (src/actions/resize.js:75-76). The `margin` option is read in edge mode only (src/actions/resize.js:61).

## Model

| member | source | states |
|---|---|---|
| `EdgeDetection.CheckResizeEdge` | src/actions/resize.js:368-401 | A falsy value never grabs. A handle grabs iff the target is an element the DOM check matches. For `true` with non-negative width, left iff `page.x < left + margin` and right iff `page.x > right - margin`. With negative width the tests read the same coordinate from the other side. Top and bottom follow the height the same way. |
| `EdgeDetection.InvertedRectProbesMirror` | src/actions/resize.js:374-391 | Probing a rectangle of negative width (height) gives the same answers as probing its upright mirror image with left/right (top/bottom) swapped. |
| `EdgeDetection.AxesString` | src/actions/resize.js:81 | The axes string is empty iff neither axis is grabbed. Otherwise it is "x", "y" or "xy". |
| `EdgeDetection.Checker` | src/actions/resize.js:42-88 | Returns nothing when the rectangle is missing or resizing is disabled. In edge mode it returns nothing iff no edge is grabbed. Otherwise the edges are the probed edges with left cleared by right and top cleared by bottom, so they are never empty and never hold both opposites. In axis mode it returns nothing iff neither axis is grabbed; otherwise the axes are "x", "y" or "xy". The margin is the option's margin, or the library margin when that is unset or zero. |
| `Cursors.CursorTable` | src/actions/resize.js:90-116 | Both browser tables define a cursor exactly for the three axes, the four single edges and the four corners. |
| `Cursors.EdgesKey` | src/actions/resize.js:123-130 | The key's length is the sum of the lengths of the names of the grabbed edges. |
| `Cursors.EdgeCursorDefinedIff` | src/actions/resize.js:122-132 | An edge set has a cursor iff it grabs at least one edge and never two opposite edges. |
| `Cursors.BuildCursorKey` | src/actions/resize.js:123-130 | The loop over top, bottom, left, right appends the name of every grabbed edge, which gives the edge-set key. |
| `Cursors.GetCursor` | src/actions/resize.js:118-134 | As written. With an axis it looks up name followed by axis. With edges it looks up their key and finds a cursor iff the edges are a single edge or a corner. Otherwise there is no cursor. |
| `Cursors.ResizeAxisCursorNeverFound` | src/actions/resize.js:119-121 | No key that starts with "resize" is in either cursor table, so the axis branch as written never finds a cursor. |
| `Cursors.GetCursorCorrected` | src/actions/resize.js:118-134 | With the axis branch looking up the axis itself, every axis "x", "y", "xy" gets a cursor. The edge branch is unchanged. |
| `Linking.LinkEdges` | src/actions/resize.js:150-158 | The linked set contains the prepared edges and keeps exclusive sets exclusive. For exclusive input: left gains top, top gains left, right gains bottom, bottom gains right. A corner or the empty set gains nothing. |
| `Linking.SequentialMatchesSnapshot` | src/actions/resize.js:153-156 | On exclusive edges, the sequential assignments equal the snapshot reading of the same rule. |
| `Linking.SequentialDiffersFromSnapshot` | src/actions/resize.js:153-156 | For left+right the sequential assignments link top only, while the snapshot reading links top and bottom. |
| `RectEngine.Couple` | src/actions/resize.js:210-232 | Without square or aspect mode, or with no edge grabbed, the delta is unchanged. Otherwise, with k the ratio (aspect mode, which wins) or 1 (square): a left+bottom or right+top drag gives `dx == -k*dy`, any other drag gives `dx == k*dy`. A drag involving left or right keeps dx; a top- or bottom-only drag keeps dy. The prepared edges choose the case, not the linked ones. |
| `RectEngine.EffectiveEdges` | src/actions/resize.js:211-224 | A move applies to the linked edges under square or aspect mode and to the prepared edges otherwise. The result stays exclusive. |
| `RectEngine.ApplyMove` | src/actions/resize.js:234-238 | Only grabbed edges move: top and bottom by dy, left and right by dx. The stored width and height are untouched. |
| `RectEngine.Restrict` | src/actions/resize.js:240-271 | The result is always consistent (width = right - left, height = bottom - top). 'negate' keeps current's edges. 'reposition' keeps each axis's pair of coordinates but orders them, so left <= right and top <= bottom. Otherwise each edge is clamped at the start rectangle's opposite edge. |
| `ResizeTypes.Diff` | src/actions/resize.js:273-275 | Each delta field is restricted minus previous. The delta of two consistent rectangles is consistent, so delta.width == delta.right - delta.left. |
| `RectEngine.AnchoredStep` | src/actions/resize.js:234-238 | A move keeps ungrabbed edges at their start position, and keeps the distance between two opposite edges grabbed together. |
| `RectEngine.ClampedSizeNonNegative` | src/actions/resize.js:262-271 | Under 'none', an anchored current rectangle with a start rectangle of non-negative size is restricted to width >= 0 and height >= 0. |
| `RectEngine.ClampNeverInverts` | src/actions/resize.js:199-271 | Under 'none', after any sequence of moves and for any edge set, width and height stay >= 0 when the start size is >= 0. |
| `RectEngine.CoupledMoveInRatio` | src/actions/resize.js:216-238 | Moving the linked edges of exclusive edges by a delta coupled at ratio k (`dx == -k*dy` for left+bottom or right+top, `dx == k*dy` otherwise) keeps `right - left == k * (bottom - top)`. |
| `RectEngine.AspectStep` | src/actions/resize.js:210-238 | In aspect mode with exclusive prepared edges, one move keeps current's extents in the ratio: right - left == ratio * (bottom - top). The stored width and height of current are not involved; `ApplyMove` leaves them as they were. |
| `RectEngine.AspectPreserved` | src/actions/resize.js:210-238 | For exclusive prepared edges, the extents of current stay in the ratio after any sequence of moves. |
| `RectEngine.SquareStep` | src/actions/resize.js:223-238 | In square mode with exclusive prepared edges, one move changes the extents right - left and bottom - top of current by the same amount. |
| `RectEngine.SquareDifferencePreserved` | src/actions/resize.js:223-238 | In square mode with exclusive prepared edges, (right - left) - (bottom - top) of current is the same after any sequence of moves. |
| `RectEngine.CornerGrowthExample` | src/actions/resize.js:234-271 | Dragging the bottom-right corner of 100x50 by (20, 10) under 'none' gives the 120x60 rectangle (0, 0, 120, 60). |
| `RectEngine.CornerDeltaExample` | src/actions/resize.js:273-275 | The delta of that move against the 100x50 start rectangle is (0, 0, 20, 10, 20, 10). |
| `RectEngine.ClampExample` | src/actions/resize.js:262-271 | Dragging left+top 150 right under 'none' stops the left edge at 100: width 0. |
| `RectEngine.RepositionExample` | src/actions/resize.js:244-260 | Dragging the left edge 150 right under 'reposition' swaps edges: left 100, right 150, width 50. |
| `Session.MoveKeepsInv` | src/actions/resize.js:191-238 | A move keeps the invariant of current. Current stays anchored to start. For exclusive prepared edges it also keeps the ratio of the extents in aspect mode (given a consistent start rectangle) and their difference in square mode without aspect mode. |
| `Session.MoveStep` | src/actions/resize.js:199-271 | From a state that keeps the session invariant, one move keeps it. 'reposition' gives ordered edges. 'none' gives a size >= 0 from a start size >= 0. For exclusive prepared edges, 'negate' keeps right - left == ratio * (bottom - top) in aspect mode (given a consistent start rectangle) and width - height at its start value in square mode without aspect mode. |
| `Session.ClampedInvNonNegative` | src/actions/resize.js:262-271 | Under 'none', the invariant of current gives a restricted size >= 0 when the start size is >= 0. |
| `Session.NegatedInvShape` | src/actions/resize.js:240-243 | Under 'negate', restricted shows the invariant of current for exclusive prepared edges: right - left == ratio * (bottom - top) in aspect mode (given a consistent start rectangle), and width - height at its start value in square mode without aspect mode. |
| `Session.ResizeSession.Start` | src/actions/resize.js:137-189 | With prepared edges: linked edges are derived under square or aspect mode and cleared otherwise. The ratio is width/height in aspect mode. current, restricted and previous are copies of the start rectangle, and the delta is zero. Without edges the rectangles, linked edges and ratio are left as they were. |
| `Session.ResizeSession.Move` | src/actions/resize.js:191-285 | Without prepared edges nothing changes. Otherwise start never changes and previous is the old restricted rectangle. Current moves by the coupled delta on the effective edges, and restricted is the invert policy applied to current. The delta is restricted minus previous, consistent when previous is. 'reposition' gives ordered edges. 'none' keeps the size >= 0. For exclusive prepared edges, 'negate' keeps right - left == ratio * (bottom - top) in aspect mode (given a consistent start rectangle) and width - height at its start value in square mode without aspect mode. |
| `Session.ResizeSession.CoupledDelta` | src/actions/resize.js:207-232 | The edges and delta a move uses are the effective edges and the coupled delta. |
| `Session.ResizeSession.MoveEdges` | src/actions/resize.js:234-238 | The in-place update of current moves exactly the given edges. |
| `Session.ResizeSession.ApplyInvert` | src/actions/resize.js:240-271 | The in-place update of restricted, including the swaps and the width/height recomputation, equals the invert policy applied to current. |
| `Session.ResizeSession.WriteDelta` | src/actions/resize.js:273-275 | The field-by-field loop sets delta to restricted minus previous. |
| `AxisHook.ResizeAxesHook` | src/actions/resize.js:408-432 | Unset axes leave the event alone. Under square the event reports "xy" and dx == dy, taken from the resized axis (dy for 'y', dx otherwise). Without square it reports the interaction's axes and zeroes dy for 'x' and dx for 'y'. |
| `AxisHook.HookIdempotent` | src/actions/resize.js:408-432 | Applying the hook twice is the same as applying it once. |

## Left out

- `src/utils/isType.js`: the thin `typeof`/`instanceof` tests it provides are represented by the shapes of the model's datatypes. An object-valued `edges` option is `Some`; a handle value is `Handle`.
- The DOM branch of `checkResizeEdge` (`utils.isElement`, `utils.matchesUpTo`) is represented by two booleans: whether the event target is an element, and the DOM collaborator's answer for the handle.
- `EdgeDetection.CheckResizeEdge`: a rectangle whose width or height is not a number falls back to `right - left` (`bottom - top`) in the source. The model's rectangles always carry numeric widths and heights.
- The event plumbing is not modelled: the signal bus, `InteractEvent` construction, `target.fire`, the `end-resize` handler (it only fires an event), and the registration of names, event types and defaults. They depend on code outside this file.
- `Interactable.prototype.resizable` is not modelled. It delegates to `setPerAction` and `setOnEvents`, which are outside this file. The model takes the resolved options as a value.
- The `new` interaction hook (src/actions/resize.js:404-406), which sets `resizeAxes` to 'xy', is not modelled: the hook takes the interaction's axes as a parameter.
- The axis-mode hook is modelled on its own and not composed with `Move`. Whether it also runs on edge-mode events depends on `InteractEvent` internals.
- Browser detection (`browser.isIe9OrOlder`) is the `ie9` parameter of the cursor lookup.
- Numbers are `real`. IEEE infinities and NaN are not modelled. An unset (NaN) margin option is `None`.
- `Session.ResizeSession.Start`: in aspect mode it requires a start rectangle of non-zero width and height. With a zero height the source computes an infinite or NaN ratio, and with a zero width a left/right drag divides by a zero ratio.
- `RectEngine.Couple`: requires a non-zero ratio in aspect mode, for the same reason.
- `Session.ResizeSession.Move`: it reads the options recorded at `Start`. The source reads the live options on every move, and the model does not cover options that change mid-gesture.
- `Session.ResizeSession.Move`: the rectangles are values, and the payload carries copies. In the source an event's `rect` and `deltaRect` are the live `restricted` and `delta` objects, so a listener that keeps an event sees them change on later moves. The model does not capture that aliasing.
- Only the six rectangle fields are modelled. Extra keys a start rectangle might carry are not copied into the delta.
- The options `manualStart`, `max`, `maxPerElement`, `snap`, `restrict`, `inertia` and `autoScroll` are not modelled. They are read by other parts of the library.

## Findings

| source | as written | input that shows it | evidently intended | confidence | as-written member | corrected member |
|---|---|---|---|---|---|---|
| src/actions/resize.js:119-121 | The axis branch of `getCursor` looks up `resize.cursors[action.name + action.axis]`, for example "resizex". | An action named 'resize' with axis 'x': no table has the key "resizex", so the result is undefined. | Look up `resize.cursors[action.axis]`. That uses the "x", "y" and "xy" entries the tables define and nothing else reads. | not executed; medium | `Cursors.ResizeAxisCursorNeverFound` | `Cursors.GetCursorCorrected` |
