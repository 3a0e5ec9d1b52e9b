// The resize cursor: the CSS cursor shown for an axis or for a set of
// grabbed edges, looked up in a table that depends on whether the browser
// is Internet Explorer 9 or older.

module Cursors {

  import opened Wrappers
  import opened ResizeTypes

  /** The cursor table for Internet Explorer 9 and older. */
  const LegacyCursors: map<string, string> := map[
    "x" := "e-resize", "y" := "s-resize", "xy" := "se-resize",
    "top" := "n-resize", "left" := "w-resize", "bottom" := "s-resize", "right" := "e-resize",
    "topleft" := "se-resize", "bottomright" := "se-resize",
    "topright" := "ne-resize", "bottomleft" := "ne-resize"]

  /** The cursor table for every other browser. */
  const ModernCursors: map<string, string> := map[
    "x" := "ew-resize", "y" := "ns-resize", "xy" := "nwse-resize",
    "top" := "ns-resize", "left" := "ew-resize", "bottom" := "ns-resize", "right" := "ew-resize",
    "topleft" := "nwse-resize", "bottomright" := "nwse-resize",
    "topright" := "nesw-resize", "bottomleft" := "nesw-resize"]

  /** The keys both tables define: the three axes, the four single edges and
      the four corners. */
  const CursorKeys: set<string> := {"x", "y", "xy", "top", "left", "bottom", "right",
                                    "topleft", "bottomright", "topright", "bottomleft"}

  /** `resize.cursors[key]`, None where the table has no such key. */
  function CursorTable(ie9: bool, key: string): (cursor: Option<string>)
    ensures cursor.Some? <==> key in CursorKeys
  {
    var table := if ie9 then LegacyCursors else ModernCursors;
    assert table.Keys == CursorKeys;
    if key in table then Some(table[key]) else None
  }

  /** The order in which the key is built. */
  const KeyOrder: seq<Side> := [Top, Bottom, Left, Right]

  function SideName(s: Side): string
  {
    match s
    case Top => "top"
    case Bottom => "bottom"
    case Left => "left"
    case Right => "right"
  }

  /** The cursor key of an edge set: the names of the grabbed edges in the
      order top, bottom, left, right, run together. */
  function EdgesKey(e: Edges): (key: string)
    ensures |key| == (if e.top then 3 else 0) + (if e.bottom then 6 else 0)
                     + (if e.left then 4 else 0) + (if e.right then 5 else 0)
  {
    (if e.top then "top" else "") + (if e.bottom then "bottom" else "")
      + (if e.left then "left" else "") + (if e.right then "right" else "")
  }

  /** The key after the first `n` edges of `KeyOrder` have been visited. */
  function KeyPrefix(e: Edges, n: nat): string
    requires n <= |KeyOrder|
  {
    if n == 0 then ""
    else KeyPrefix(e, n - 1) + (if EdgeOf(e, KeyOrder[n - 1]) then SideName(KeyOrder[n - 1]) else "")
  }

  /** An edge set has a cursor exactly when it grabs something and never
      two opposite edges: the four single edges and the four corners. */
  lemma EdgeCursorDefinedIff(ie9: bool, e: Edges)
    ensures CursorTable(ie9, EdgesKey(e)).Some? <==> AnyEdge(e) && Exclusive(e)
  {
    var key := EdgesKey(e);
    if AnyEdge(e) && Exclusive(e) {
      if e.top && e.left {
        assert key == "topleft";
      } else if e.top && e.right {
        assert key == "topright";
      } else if e.bottom && e.left {
        assert key == "bottomleft";
      } else if e.bottom && e.right {
        assert key == "bottomright";
      } else if e.top {
        assert key == "top";
      } else if e.bottom {
        assert key == "bottom";
      } else if e.left {
        assert key == "left";
      } else {
        assert key == "right";
      }
    } else {
      assert |key| !in {1, 2, 3, 4, 5, 6, 7, 8, 10, 11};
      forall k | k in CursorKeys ensures k != key {
        assert |k| in {1, 2, 3, 4, 5, 6, 7, 8, 10, 11};
      }
    }
  }

  /** The build loop of `getCursor`: visits top, bottom, left and right and
      appends the name of every grabbed edge. */
  method BuildCursorKey(e: Edges) returns (key: string)
    ensures key == EdgesKey(e)
  {
    key := "";
    for i := 0 to |KeyOrder|
      invariant key == KeyPrefix(e, i)
    {
      if EdgeOf(e, KeyOrder[i]) {
        key := key + SideName(KeyOrder[i]);
      }
    }
    var t, b := (if e.top then "top" else ""), (if e.bottom then "bottom" else "");
    var l, r := (if e.left then "left" else ""), (if e.right then "right" else "");
    assert KeyPrefix(e, 1) == "" + t == t;
    assert KeyPrefix(e, 2) == t + b;
    assert KeyPrefix(e, 3) == t + b + l;
    assert KeyPrefix(e, 4) == t + b + l + r;
  }

  /** The action `getCursor` receives: its name, its axis ("" when unset)
      and its edges. */
  datatype CursorAction = CursorAction(name: string, axis: string, edges: Option<Edges>)

  /** `getCursor` as written: with an axis it looks up the action's name
      followed by the axis; otherwise it looks up the key of the edges. An
      edge set gets a cursor exactly when it is a single edge or a corner. */
  method GetCursor(action: CursorAction, ie9: bool) returns (cursor: Option<string>)
    ensures action.axis != "" ==> cursor == CursorTable(ie9, action.name + action.axis)
    ensures action.axis == "" && action.edges.Some? ==>
              cursor == CursorTable(ie9, EdgesKey(action.edges.value)) &&
              (cursor.Some? <==> AnyEdge(action.edges.value) && Exclusive(action.edges.value))
    ensures action.axis == "" && action.edges.None? ==> cursor.None?
  {
    if action.axis != "" {
      cursor := CursorTable(ie9, action.name + action.axis);
    } else if action.edges.Some? {
      var key := BuildCursorKey(action.edges.value);
      EdgeCursorDefinedIff(ie9, action.edges.value);
      cursor := CursorTable(ie9, key);
    } else {
      cursor := None;
    }
  }

  /** The axis branch of `getCursor` as written never finds a cursor for a
      resize action: every key it builds starts with "resize", and no key of
      either table does. */
  lemma {:induction false} ResizeAxisCursorNeverFound(ie9: bool, axis: string)
    ensures CursorTable(ie9, "resize" + axis).None?
  {
    var key := "resize" + axis;
    assert key[0] == 'r' && key[1] == 'e' && |key| >= 6;
    forall k | k in CursorKeys ensures k != key {
      if |k| >= 6 {
        assert k[0] != 'r' || k[1] != 'e';
      }
    }
  }

  /** `getCursor` with the axis branch corrected to look up the axis itself:
      every axis "x", "y" or "xy" then has a cursor. */
  method GetCursorCorrected(action: CursorAction, ie9: bool) returns (cursor: Option<string>)
    ensures action.axis != "" ==> cursor == CursorTable(ie9, action.axis)
    ensures action.axis in {"x", "y", "xy"} ==> cursor.Some?
    ensures action.axis == "" && action.edges.Some? ==>
              cursor == CursorTable(ie9, EdgesKey(action.edges.value)) &&
              (cursor.Some? <==> AnyEdge(action.edges.value) && Exclusive(action.edges.value))
    ensures action.axis == "" && action.edges.None? ==> cursor.None?
  {
    if action.axis != "" {
      cursor := CursorTable(ie9, action.axis);
    } else if action.edges.Some? {
      var key := BuildCursorKey(action.edges.value);
      EdgeCursorDefinedIff(ie9, action.edges.value);
      cursor := CursorTable(ie9, key);
    } else {
      cursor := None;
    }
  }
}
