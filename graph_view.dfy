// The interaction state of the graph view (components/graph-visualizer.tsx,
// 255-302, and the canvas handlers wired at 402-407): the zoom buttons,
// reset, panning by dragging, and selecting the node under a click. The
// state cells `zoom`, `offset`, `isDragging`, `dragStart` and `selectedNode`
// become the fields of a controller object.
module GraphView {
  import opened Types
  import opened GraphScene

  const MinZoom: real := 0.3
  const MaxZoom: real := 3.0
  const ZoomFactor: real := 1.2

  function Max(a: real, b: real): real { if a >= b then a else b }

  function Add(a: Point, b: Point): Point { Point(a.x + b.x, a.y + b.y) }

  function Sub(a: Point, b: Point): Point { Point(a.x - b.x, a.y - b.y) }

  const Origin: Point := Point(0.0, 0.0)

  // ---------------------------------------------------------------------------
  // Zoom

  /** `Math.min(prev * 1.2, 3)`: never beyond the maximum, and never smaller than before. */
  function ZoomedIn(z: real): (r: real)
    ensures r <= MaxZoom
    ensures MinZoom <= z <= MaxZoom ==> MinZoom <= r <= MaxZoom && z <= r
    ensures z == MaxZoom ==> r == MaxZoom
  {
    Min(z * ZoomFactor, MaxZoom)
  }

  /** `Math.max(prev / 1.2, 0.3)`: never below the minimum, and never larger than before. */
  function ZoomedOut(z: real): (r: real)
    ensures MinZoom <= r
    ensures MinZoom <= z <= MaxZoom ==> MinZoom <= r <= MaxZoom && r <= z
    ensures z == MinZoom ==> r == MinZoom
  {
    Max(z / ZoomFactor, MinZoom)
  }

  /** Away from the maximum, zooming out undoes zooming in. */
  lemma ZoomOutUndoesZoomIn(z: real)
    requires MinZoom <= z && z * ZoomFactor <= MaxZoom
    ensures ZoomedOut(ZoomedIn(z)) == z
  {
    assert ZoomedIn(z) == z * ZoomFactor;
    assert z * ZoomFactor / ZoomFactor == z;
  }

  /** Away from the minimum, zooming in undoes zooming out. */
  lemma ZoomInUndoesZoomOut(z: real)
    requires z <= MaxZoom && MinZoom <= z / ZoomFactor
    ensures ZoomedIn(ZoomedOut(z)) == z
  {
    assert ZoomedOut(z) == z / ZoomFactor;
    assert z / ZoomFactor * ZoomFactor == z;
  }

  // ---------------------------------------------------------------------------
  // Hit-testing

  /**
   * `Math.sqrt((x - node.x) ** 2 + (y - node.y) ** 2) <= node.radius`,
   * compared on squares so that no square root is needed.
   */
  predicate Hits(node: SceneNode, p: Point)
  {
    var dx, dy := p.x - node.pos.x, p.y - node.pos.y;
    0.0 <= node.radius && dx * dx + dy * dy <= node.radius * node.radius
  }

  /** For a distance `d >= 0`, `d <= r` exactly when `r >= 0` and `d * d <= r * r`. */
  lemma SquaresCompare(d: real, r: real)
    requires 0.0 <= d
    ensures d <= r <==> 0.0 <= r && d * d <= r * r
  {
    if d <= r {
      calc {
        d * d;
      <= d * r;
      <= r * r;
      }
    } else if 0.0 <= r {
      MulLess(d, r, d);
      calc {
        r * r;
      <= r * d;
      <  d * d;
      }
    }
  }

  lemma MulLess(a: real, b: real, c: real)
    requires 0.0 < a && b < c
    ensures a * b < a * c
  {
    assert 0.0 < a * (c - b);
  }

  /** With `dist` the square root of the squared distance, the test on squares is the source's test. */
  lemma HitsIsWithinRadius(node: SceneNode, p: Point, dist: real)
    requires 0.0 <= dist
    requires dist * dist == (p.x - node.pos.x) * (p.x - node.pos.x) + (p.y - node.pos.y) * (p.y - node.pos.y)
    ensures Hits(node, p) <==> dist <= node.radius
  {
    SquaresCompare(dist, node.radius);
  }

  /** `nodes.find(...)`: the first node, in list order, whose disc holds `p`. */
  function FirstHit(nodes: seq<SceneNode>, p: Point): (r: Option<SceneNode>)
    ensures r.None? <==> forall i :: 0 <= i < |nodes| ==> !Hits(nodes[i], p)
    ensures r.Some? ==> exists i :: 0 <= i < |nodes| && nodes[i] == r.value && Hits(nodes[i], p) &&
                                     forall j :: 0 <= j < i ==> !Hits(nodes[j], p)
  {
    if |nodes| == 0 then None
    else if Hits(nodes[0], p) then Some(nodes[0])
    else
      var r := FirstHit(nodes[1..], p);
      assert forall i :: 1 <= i < |nodes| ==> nodes[i] == nodes[1..][i - 1];
      r
  }

  /** The click in scene coordinates: undoes the canvas's `translate(offset)` and then `scale(zoom)`. */
  function ToScene(click: Point, offset: Point, zoom: real): (r: Point)
    requires zoom != 0.0
    ensures Add(Point(r.x * zoom, r.y * zoom), offset) == click
  {
    Point((click.x - offset.x) / zoom, (click.y - offset.y) / zoom)
  }

  /** The item handed to `onItemSelect`: only an item node carries one. */
  function SelectedItem(node: Option<SceneNode>): (r: Option<Item>)
    ensures r.Some? <==> node.Some? && node.value.kind == ItemNode && node.value.data.OfItem?
    ensures r.Some? ==> node.value.data == OfItem(r.value)
  {
    if node.Some? && node.value.kind == ItemNode && node.value.data.OfItem? then Some(node.value.data.item) else None
  }

  // ---------------------------------------------------------------------------
  // The controller

  class Controller {
    var zoom: real
    var offset: Point
    var dragging: bool
    var dragStart: Point
    var selected: Option<SceneNode>

    /** Where the cursor went down, and the offset at that moment, while a drag lasts. */
    ghost var grabbedAt: Point
    ghost var offsetAtGrab: Point

    ghost predicate Valid()
      reads this
    {
      && MinZoom <= zoom <= MaxZoom
      && (dragging ==> dragStart == Sub(grabbedAt, offsetAtGrab))
    }

    /** The initial state: zoom 1, no offset, not dragging, nothing selected. */
    constructor ()
      ensures Valid()
      ensures zoom == 1.0 && offset == Origin && !dragging && dragStart == Origin && selected == None
    {
      zoom, offset, dragging, dragStart, selected := 1.0, Origin, false, Origin, None;
    }

    method ZoomIn()
      requires Valid()
      modifies this
      ensures Valid()
      ensures zoom == ZoomedIn(old(zoom))
      ensures offset == old(offset) && dragging == old(dragging) && dragStart == old(dragStart)
      ensures selected == old(selected)
    {
      zoom := Min(zoom * ZoomFactor, MaxZoom);
    }

    method ZoomOut()
      requires Valid()
      modifies this
      ensures Valid()
      ensures zoom == ZoomedOut(old(zoom))
      ensures offset == old(offset) && dragging == old(dragging) && dragStart == old(dragStart)
      ensures selected == old(selected)
    {
      zoom := Max(zoom / ZoomFactor, MinZoom);
    }

    /** Back to zoom 1 and no offset, with nothing selected; a drag in progress goes on. */
    method Reset()
      requires Valid()
      modifies this
      ensures Valid()
      ensures zoom == 1.0 && offset == Origin && selected == None
      ensures dragging == old(dragging) && dragStart == old(dragStart)
    {
      zoom := 1.0;
      offset := Origin;
      selected := None;
    }

    /** `handleMouseDown`: a drag starts, remembering the cursor relative to the offset. */
    method MouseDown(cursor: Point)
      requires Valid()
      modifies this
      ensures Valid()
      ensures dragging && dragStart == Sub(cursor, old(offset))
      ensures grabbedAt == cursor && offsetAtGrab == old(offset)
      ensures zoom == old(zoom) && offset == old(offset) && selected == old(selected)
    {
      dragging := true;
      dragStart := Sub(cursor, offset);
      grabbedAt, offsetAtGrab := cursor, offset;
    }

    /**
     * `handleMouseMove`: while dragging, the scene follows the cursor, so the
     * offset is the offset at the grab moved by how far the cursor has gone;
     * otherwise nothing changes.
     */
    method MouseMove(cursor: Point)
      requires Valid()
      modifies this
      ensures Valid()
      ensures old(dragging) ==> offset == Add(offsetAtGrab, Sub(cursor, grabbedAt))
      ensures !old(dragging) ==> offset == old(offset)
      ensures zoom == old(zoom) && dragging == old(dragging) && dragStart == old(dragStart)
      ensures selected == old(selected)
      ensures grabbedAt == old(grabbedAt) && offsetAtGrab == old(offsetAtGrab)
    {
      if dragging {
        offset := Sub(cursor, dragStart);
      }
    }

    /** `handleMouseUp`, also run when the cursor leaves the canvas: the drag ends. */
    method MouseUp()
      requires Valid()
      modifies this
      ensures Valid()
      ensures !dragging
      ensures zoom == old(zoom) && offset == old(offset) && dragStart == old(dragStart) && selected == old(selected)
    {
      dragging := false;
    }

    /**
     * `handleCanvasClick` at a point relative to the canvas: selects the first
     * node under the click (none when the click misses every node) and returns
     * the item to pass to `onItemSelect`, if the selected node is an item's.
     */
    method Click(nodes: seq<SceneNode>, cursor: Point) returns (picked: Option<Item>)
      requires Valid()
      modifies this
      ensures Valid()
      ensures selected == FirstHit(nodes, ToScene(cursor, offset, zoom))
      ensures picked == SelectedItem(selected)
      ensures zoom == old(zoom) && offset == old(offset) && dragging == old(dragging) && dragStart == old(dragStart)
    {
      var p := ToScene(cursor, offset, zoom);
      var k := 0;
      selected := None;
      while k < |nodes|
        invariant 0 <= k <= |nodes|
        invariant forall j :: 0 <= j < k ==> !Hits(nodes[j], p)
        invariant selected == None
      {
        if Hits(nodes[k], p) {
          selected := Some(nodes[k]);
          break;
        }
        k := k + 1;
      }
      FirstHitAt(nodes, p, k);
      picked := None;
      if selected.Some? && selected.value.kind == ItemNode && selected.value.data.OfItem? {
        picked := Some(selected.value.data.item);
      }
    }
  }

  /** The first hit is fixed once the nodes before `k` are known to miss and the `k`-th hits (or none is left). */
  lemma FirstHitAt(nodes: seq<SceneNode>, p: Point, k: nat)
    requires k <= |nodes| && forall j :: 0 <= j < k ==> !Hits(nodes[j], p)
    requires k < |nodes| ==> Hits(nodes[k], p)
    ensures FirstHit(nodes, p) == if k < |nodes| then Some(nodes[k]) else None
  {
    var r := FirstHit(nodes, p);
    if k < |nodes| {
      var i :| 0 <= i < |nodes| && nodes[i] == r.value && Hits(nodes[i], p) && forall j :: 0 <= j < i ==> !Hits(nodes[j], p);
      assert i == k;
    }
  }
}
