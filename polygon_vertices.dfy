/**
 * The polygon-vertex index space of a mesh. A mesh's polygons are loops of
 * control-point indices; laying all loops end to end, polygon by polygon and
 * corner by corner, numbers every corner: position k is polygon-vertex id k.
 * Both the tangent conversion and the JSON reader walk this space with a
 * running counter.
 */
module PolygonVertices {

  /** All corners, polygon by polygon: entry k is the control point of polygon-vertex id k. */
  function Corners(polygons: seq<seq<int>>): seq<int>
  {
    if polygons == [] then []
    else Corners(polygons[..|polygons| - 1]) + polygons[|polygons| - 1]
  }

  /** The sum of the polygon sizes, counted polygon by polygon. */
  function SizeSum(polygons: seq<seq<int>>): nat
  {
    if polygons == [] then 0
    else SizeSum(polygons[..|polygons| - 1]) + |polygons[|polygons| - 1]|
  }

  /** The flattened space has exactly as many ids as the polygons have corners. */
  lemma {:induction false} CornersLength(polygons: seq<seq<int>>)
    ensures |Corners(polygons)| == SizeSum(polygons)
  {
    if polygons != [] {
      CornersLength(polygons[..|polygons| - 1]);
    }
  }

  /** Taking one more polygon appends that polygon's loop to the flattened space. */
  lemma CornersStep(polygons: seq<seq<int>>, i: nat)
    requires i < |polygons|
    ensures Corners(polygons[..i + 1]) == Corners(polygons[..i]) + polygons[i]
    ensures SizeSum(polygons[..i + 1]) == SizeSum(polygons[..i]) + |polygons[i]|
  {
    assert polygons[..i + 1][..i] == polygons[..i];
  }

  /** The corners of the first i polygons come first in the flattened space. */
  lemma {:induction false} CornersPrefix(polygons: seq<seq<int>>, i: nat)
    requires i <= |polygons|
    ensures Corners(polygons[..i]) <= Corners(polygons)
    ensures SizeSum(polygons[..i]) <= SizeSum(polygons)
    decreases |polygons|
  {
    if i == |polygons| {
      assert polygons[..i] == polygons;
    } else {
      var front := polygons[..|polygons| - 1];
      assert front[..i] == polygons[..i];
      CornersPrefix(front, i);
    }
  }
}
