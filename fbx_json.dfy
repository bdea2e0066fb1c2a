/**
 * The reader for the JSON dump of an FBX scene: nodes with children and an
 * optional mesh, meshes with control points, polygons and UV channels. A UV
 * channel is read IndexToDirect. getPointUVs collects, for one control
 * point, the UV of every polygon corner that uses it, found by walking the
 * polygon-vertex space with a running counter.
 *
 * JSON values the reader indexes out of range are `undefined` in the
 * source; here they are `None`. Calling a method on an undefined channel
 * raises a TypeError, which is the `TypeError` result.
 */
module FbxJson {
  import opened Geometry
  import opened PolygonVertices

  /** A UV coordinate as the JSON stores it: an array of numbers. */
  type UV = seq<real>

  /** One entry of a mesh's `uv` list: its direct array and its index array. */
  datatype UVChannel = UVChannel(directArray: seq<UV>, indexArray: seq<int>)

  /** A mesh object of the dump. */
  datatype JsonMesh = JsonMesh(
    name: string,
    controlPoints: seq<seq<real>>,
    polygons: seq<seq<int>>,
    uv: seq<UVChannel>)

  /** A node object of the dump. */
  datatype JsonNode = JsonNode(name: string, mesh: Option<JsonMesh>, children: seq<JsonNode>)

  /** A value, or the TypeError a call on `undefined` raises. */
  datatype Result<T> = Success(value: T) | TypeError

  /** JavaScript array indexing: the element, or undefined outside the array. */
  function At<T>(a: seq<T>, i: int): (r: Option<T>)
    ensures r.Some? <==> 0 <= i < |a|
    ensures r.Some? ==> r.value == a[i]
  {
    if 0 <= i < |a| then Some(a[i]) else None
  }

  /** FBXUVChannel.getPointUV: the polygon-vertex id goes through the index array, whatever the channel's modes. */
  function GetPointUV(ch: UVChannel, index: int): (r: Option<UV>)
    ensures r.Some? <==> 0 <= index < |ch.indexArray| && 0 <= ch.indexArray[index] < |ch.directArray|
    ensures r.Some? ==> r.value == ch.directArray[ch.indexArray[index]]
  {
    match At(ch.indexArray, index)
    case None => None
    case Some(idx) => At(ch.directArray, idx)
  }

  /** FBXMesh.UVChannels: one channel per entry of the mesh's `uv` list, in order. */
  function UVChannels(m: JsonMesh): (r: seq<UVChannel>)
    ensures |r| == |m.uv|
    ensures forall i :: 0 <= i < |r| ==> r[i] == m.uv[i]
  {
    m.uv
  }

  /** FBXMesh.getPoint: the control point at `index`, or undefined. */
  function GetPoint(m: JsonMesh, index: int): (r: Option<seq<real>>)
    ensures r.Some? <==> 0 <= index < GetPointCount(m)
    ensures r.Some? ==> r.value == m.controlPoints[index]
  {
    At(m.controlPoints, index)
  }

  /** FBXMesh.getPointCount: the number of control points. */
  function GetPointCount(m: JsonMesh): (r: nat)
    ensures r == |m.controlPoints|
  {
    |m.controlPoints|
  }

  /** FBXNode.getChild: the child at `index`, or a falsy value when there is none. */
  function GetChild(n: JsonNode, index: int): (r: Option<JsonNode>)
    ensures r.Some? <==> 0 <= index < |n.children|
    ensures r.Some? ==> r.value == n.children[index]
  {
    At(n.children, index)
  }

  /** FBXNode.getMesh: the node's mesh, or a falsy value when it has none. */
  function GetMesh(n: JsonNode): (r: Option<JsonMesh>)
    ensures r.Some? <==> n.mesh.Some?
    ensures r.Some? ==> r == n.mesh
  {
    n.mesh
  }

  /** The polygon-vertex ids whose corner is control point `pt`, in increasing order. */
  function Occurrences(corners: seq<int>, pt: int): seq<nat>
  {
    if corners == [] then []
    else
      var front := corners[..|corners| - 1];
      Occurrences(front, pt) + (if corners[|corners| - 1] == pt then [|corners| - 1] else [])
  }

  /** The UV of each given polygon-vertex id, looked up in channel `ch`. */
  function UVsAt(ch: UVChannel, ids: seq<nat>): (r: seq<Option<UV>>)
  {
    seq(|ids|, j requires 0 <= j < |ids| => GetPointUV(ch, ids[j]))
  }

  /** Appending one corner appends its id when it is `pt`. */
  lemma OccurrencesStep(corners: seq<int>, x: int, pt: int)
    ensures Occurrences(corners + [x], pt)
      == Occurrences(corners, pt) + (if x == pt then [|corners|] else [])
  {
    assert (corners + [x])[..|corners|] == corners;
  }

  /** An id is listed exactly when it is in range and its corner is `pt`. */
  lemma {:induction false} OccurrencesExact(corners: seq<int>, pt: int)
    ensures forall k :: k in Occurrences(corners, pt) <==> 0 <= k < |corners| && corners[k] == pt
  {
    if corners != [] {
      var front := corners[..|corners| - 1];
      OccurrencesExact(front, pt);
      forall k | 0 <= k < |front| ensures corners[k] == front[k] { }
    }
  }

  /** The ids come in strictly increasing order: polygon order, then corner order. */
  lemma {:induction false} OccurrencesIncreasing(corners: seq<int>, pt: int)
    ensures forall i, j :: 0 <= i < j < |Occurrences(corners, pt)| ==>
      Occurrences(corners, pt)[i] < Occurrences(corners, pt)[j]
  {
    if corners != [] {
      var front := corners[..|corners| - 1];
      var ids := Occurrences(front, pt);
      OccurrencesIncreasing(front, pt);
      OccurrencesExact(front, pt);
      forall i | 0 <= i < |ids| ensures ids[i] < |front| {
        assert ids[i] in ids;
      }
    }
  }

  /** The list is empty exactly when no corner uses `pt`. */
  lemma OccurrencesEmpty(corners: seq<int>, pt: int)
    ensures Occurrences(corners, pt) == [] <==> pt !in corners
  {
    OccurrencesExact(corners, pt);
    if pt in corners {
      var k :| 0 <= k < |corners| && corners[k] == pt;
      assert k in Occurrences(corners, pt);
    }
  }

  /** There is one id per occurrence of `pt` among the corners. */
  lemma {:induction false} OccurrencesCount(corners: seq<int>, pt: int)
    ensures |Occurrences(corners, pt)| == multiset(corners)[pt]
  {
    if corners != [] {
      var front := corners[..|corners| - 1];
      OccurrencesCount(front, pt);
      assert corners == front + [corners[|corners| - 1]];
    }
  }

  /** One more corner: its UV is collected exactly when its control point is `pt`. */
  lemma CollectStep(ch: Option<UVChannel>, seen: seq<int>, x: int, pt: int)
    ensures ch.Some? ==>
      UVsAt(ch.value, Occurrences(seen + [x], pt))
        == UVsAt(ch.value, Occurrences(seen, pt)) + (if x == pt then [GetPointUV(ch.value, |seen|)] else [])
    ensures pt !in seen && x != pt ==> pt !in seen + [x]
  {
    OccurrencesStep(seen, x, pt);
  }

  /** Corner vi of polygon fi is polygon-vertex id |Corners(polygons[..fi])| + vi of the whole mesh. */
  lemma CornerOfPrefix(polygons: seq<seq<int>>, fi: nat, vi: nat)
    requires fi < |polygons| && vi < |polygons[fi]|
    ensures polygons[fi][vi] in Corners(polygons)
    ensures |Corners(polygons[..fi])| + vi < |Corners(polygons)|
    ensures Corners(polygons)[|Corners(polygons[..fi])| + vi] == polygons[fi][vi]
  {
    CornersStep(polygons, fi);
    CornersPrefix(polygons, fi + 1);
  }

  /**
   * FBXMesh.getPointUVs: the UV, in channel `chIndex`, of every polygon
   * corner that uses control point `ptIndex`, in polygon and corner order.
   * The channel is looked up once; when it is undefined the first matching
   * corner raises a TypeError.
   */
  method GetPointUVs(m: JsonMesh, chIndex: int, ptIndex: int) returns (r: Result<seq<Option<UV>>>)
    ensures 0 <= chIndex < |m.uv| ==>
      r == Success(UVsAt(m.uv[chIndex], Occurrences(Corners(m.polygons), ptIndex)))
    ensures !(0 <= chIndex < |m.uv|) ==>
      r == (if ptIndex in Corners(m.polygons) then TypeError else Success([]))
  {
    var uvcList := UVChannels(m);
    var ch := At(uvcList, chIndex);
    var polygons := m.polygons;
    var ret: seq<Option<UV>> := [];
    var index := 0;
    ghost var seen: seq<int> := [];
    var fi := 0;
    while fi < |polygons|
      invariant 0 <= fi <= |polygons|
      invariant seen == Corners(polygons[..fi]) && index == |seen|
      invariant ch.Some? ==> ret == UVsAt(ch.value, Occurrences(seen, ptIndex))
      invariant ch.None? ==> ret == [] && ptIndex !in seen
    {
      ghost var before := seen;
      var vi := 0;
      while vi < |polygons[fi]|
        invariant 0 <= vi <= |polygons[fi]|
        invariant seen == before + polygons[fi][..vi] && index == |seen|
        invariant ch.Some? ==> ret == UVsAt(ch.value, Occurrences(seen, ptIndex))
        invariant ch.None? ==> ret == [] && ptIndex !in seen
      {
        var pi := polygons[fi][vi];
        if pi == ptIndex {
          if ch.None? {
            CornerOfPrefix(polygons, fi, vi);
            return TypeError;
          }
          ret := ret + [GetPointUV(ch.value, index)];
        }
        CollectStep(ch, seen, pi, ptIndex);
        assert polygons[fi][..vi + 1] == polygons[fi][..vi] + [pi];
        seen := seen + [pi];
        index := index + 1;
        vi := vi + 1;
      }
      assert polygons[fi][..vi] == polygons[fi];
      CornersStep(polygons, fi);
      fi := fi + 1;
    }
    assert polygons[..fi] == polygons;
    r := Success(ret);
  }
}
