// Linked edges: under `square` or `preserveAspectRatio`, dragging one edge
// must move an orthogonal edge too. The linked set is derived once, when the
// gesture starts.

module Linking {

  import opened ResizeTypes

  /** The linked edges, computed as the source does: four assignments in a
      row on a copy of the prepared edges, each reading the fields the
      earlier ones have already updated. The result keeps every prepared
      edge; for exclusive edges a single edge gains its partner (left gains
      top, top gains left, right gains bottom, bottom gains right), while a
      corner or the empty set gains nothing. */
  function LinkEdges(e: Edges): (linked: Edges)
    ensures e.top ==> linked.top
    ensures e.bottom ==> linked.bottom
    ensures e.left ==> linked.left
    ensures e.right ==> linked.right
    ensures Exclusive(e) ==> Exclusive(linked)
    ensures Exclusive(e) && e.left && !e.top && !e.bottom ==> linked == e.(top := true)
    ensures Exclusive(e) && e.top && !e.left && !e.right ==> linked == e.(left := true)
    ensures Exclusive(e) && e.right && !e.top && !e.bottom ==> linked == e.(bottom := true)
    ensures Exclusive(e) && e.bottom && !e.left && !e.right ==> linked == e.(right := true)
    ensures Exclusive(e) && (e.left || e.right) && (e.top || e.bottom) ==> linked == e
    ensures !AnyEdge(e) ==> linked == e
  {
    var top := e.top || (e.left && !e.bottom);
    var left := e.left || (top && !e.right);
    var bottom := e.bottom || (e.right && !top);
    var right := e.right || (bottom && !left);
    Edges(top, bottom, left, right)
  }

  /** The same rule read on a snapshot: every right-hand side reads the
      prepared edges, none of the updated ones. */
  function SnapshotLink(e: Edges): Edges
  {
    Edges(e.top || (e.left && !e.bottom),
          e.bottom || (e.right && !e.top),
          e.left || (e.top && !e.right),
          e.right || (e.bottom && !e.left))
  }

  /** On the exclusive edge sets the checker produces, the sequential
      assignments and the snapshot reading agree. */
  lemma SequentialMatchesSnapshot(e: Edges)
    requires Exclusive(e)
    ensures LinkEdges(e) == SnapshotLink(e)
  {
  }

  /** Without exclusivity they part: grabbing left and right together links
      top but not bottom when the assignments run in sequence, and both on
      a snapshot. */
  lemma SequentialDiffersFromSnapshot()
    ensures var e := Edges(false, false, true, true);
            LinkEdges(e) == Edges(true, false, true, true) &&
            SnapshotLink(e) == Edges(true, true, true, true)
  {
  }
}
