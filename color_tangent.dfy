/**
 * Conversion of the authored vertex-colour channel "OutlineNormal" into the
 * mesh's first tangent layer element, as ImportExport.cxx does it: the
 * tangent element is switched to by-polygon-vertex / direct, its array is
 * resized to the polygon-vertex count, and every corner's colour (r, g, b)
 * becomes the tangent ((r - 0.5) * 2, (g - 0.5) * 2, (b - 0.5) * 2, 0).
 *
 * The first half states what a conversion does on values; the second half
 * holds the SDK objects the conversion updates in place and the methods that
 * do it, each proved against the first half.
 */
module ColorToTangent {
  import opened Geometry
  import opened PolygonVertices

  /** The name of the only colour channel the conversion reads. */
  const OutlineNormal: string := "OutlineNormal"

  /** Index of the first colour element named exactly "OutlineNormal", if any. */
  function OutlineChannel(colors: seq<ColorElement>): (r: Option<nat>)
    ensures r.Some? ==> r.value < |colors|
  {
    if colors == [] then None
    else if colors[0].name == OutlineNormal then Some(0)
    else match OutlineChannel(colors[1..])
      case None => None
      case Some(i) => Some(i + 1)
  }

  /** The selected channel is the first one named "OutlineNormal"; none is selected when no channel has that name. */
  lemma {:induction false} OutlineChannelFirst(colors: seq<ColorElement>)
    ensures OutlineChannel(colors).Some? ==> colors[OutlineChannel(colors).value].name == OutlineNormal
    ensures OutlineChannel(colors).Some? ==>
              forall j :: 0 <= j < OutlineChannel(colors).value ==> colors[j].name != OutlineNormal
    ensures OutlineChannel(colors).None? ==> forall j :: 0 <= j < |colors| ==> colors[j].name != OutlineNormal
  {
    if colors != [] && colors[0].name != OutlineNormal {
      OutlineChannelFirst(colors[1..]);
      forall j | 1 <= j < |colors|
        ensures colors[j] == colors[1..][j - 1]
      {
      }
    }
  }

  /** The affine remap of a colour to a tangent; alpha is dropped and w is 0. */
  function ColorToTangent(c: Color): Vector4
  {
    Vector4((c.red - 0.5) * 2.0, (c.green - 0.5) * 2.0, (c.blue - 0.5) * 2.0, 0.0)
  }

  /** The colour a tangent came from, up to its alpha. */
  function TangentToColor(t: Vector4, alpha: real): Color
  {
    Color(t.x / 2.0 + 0.5, t.y / 2.0 + 0.5, t.z / 2.0 + 0.5, alpha)
  }

  /** The remap loses only alpha: the colour's red, green and blue come back from the tangent. */
  lemma RemapInverse(c: Color)
    ensures ColorToTangent(c).w == 0.0
    ensures TangentToColor(ColorToTangent(c), c.alpha) == c
  {
  }

  /** Colour components in [0, 1] give tangent components in [-1, 1]. */
  lemma RemapRange(c: Color)
    requires 0.0 <= c.red <= 1.0 && 0.0 <= c.green <= 1.0 && 0.0 <= c.blue <= 1.0
    ensures var t := ColorToTangent(c);
      -1.0 <= t.x <= 1.0 && -1.0 <= t.y <= 1.0 && -1.0 <= t.z <= 1.0 && t.w == 0.0
  {
  }

  /**
   * The colour reads done for polygon-vertex id k stay inside the element's
   * arrays: the direct array at k (Direct), or the index array at k and the
   * direct array at that index (IndexToDirect). Index mode reads nothing.
   */
  predicate ReadsInRange(e: ColorElement, k: nat)
  {
    match e.reference
    case Direct => k < |e.direct|
    case IndexToDirect => k < |e.index| && 0 <= e.index[k] < |e.direct|
    case Index => true
  }

  predicate ChannelInRange(e: ColorElement, count: nat)
  {
    forall k :: 0 <= k < count ==> ReadsInRange(e, k)
  }

  /** The colour of polygon-vertex id k, resolved through the element's reference mode. */
  function CornerColor(e: ColorElement, k: nat): Color
    requires e.reference != Index && ReadsInRange(e, k)
  {
    if e.reference == Direct then e.direct[k] else e.direct[e.index[k]]
  }

  /** The tangent array a successful conversion writes: one remapped colour per polygon-vertex id. */
  function DerivedTangents(e: ColorElement, count: nat): (r: seq<Vector4>)
    requires e.reference != Index && ChannelInRange(e, count)
  {
    seq(count, k requires 0 <= k < count => ColorToTangent(CornerColor(e, k)))
  }

  /** Whether the by-polygon-vertex rewrite reports success. */
  predicate RewriteSucceeds(count: nat, e: ColorElement, hasTangent: bool)
  {
    hasTangent && (e.reference != Index || count == 0)
  }

  /**
   * The tangent element's state after the by-polygon-vertex rewrite. Without a
   * tangent element nothing exists to change. Otherwise the element is always
   * switched to by-polygon-vertex / direct and resized to count; with a colour
   * reference mode the rewrite cannot read (Index), no entry is written and
   * only the entries that survive the resize are known.
   */
  ghost predicate Rewritten(count: nat, e: ColorElement, before: Option<TangentData>, after: Option<TangentData>)
  {
    match before
    case None => after.None?
    case Some(t) =>
      && after.Some?
      && after.value.mapping == ByPolygonVertex
      && after.value.reference == Direct
      && after.value.index == t.index
      && |after.value.direct| == count
      && if e.reference == Index then
           forall k :: 0 <= k < count && k < |t.direct| ==> after.value.direct[k] == t.direct[k]
         else
           ChannelInRange(e, count) && after.value.direct == DerivedTangents(e, count)
  }

  /** Whether converting a mesh reports success; it depends only on data the conversion never writes. */
  predicate ConversionSucceeds(polygons: seq<seq<int>>, colors: seq<ColorElement>, hasTangent: bool)
  {
    match OutlineChannel(colors)
    case None => true
    case Some(i) =>
      colors[i].mapping == ByPolygonVertex && RewriteSucceeds(SizeSum(polygons), colors[i], hasTangent)
  }

  /** What the caller must guarantee: every colour read the conversion performs is in range. */
  predicate ConversionReadsInRange(polygons: seq<seq<int>>, colors: seq<ColorElement>, hasTangent: bool)
  {
    match OutlineChannel(colors)
    case None => true
    case Some(i) =>
      (hasTangent && colors[i].mapping == ByPolygonVertex && colors[i].reference != Index)
        ==> ChannelInRange(colors[i], SizeSum(polygons))
  }

  /** The tangent state after converting a mesh, given the state before. */
  ghost predicate Converted(polygons: seq<seq<int>>, colors: seq<ColorElement>,
                            before: Option<TangentData>, after: Option<TangentData>)
  {
    match OutlineChannel(colors)
    case None => after == before
    case Some(i) =>
      if colors[i].mapping == ByPolygonVertex then Rewritten(SizeSum(polygons), colors[i], before, after)
      else after == before
  }

  /** A mesh without an "OutlineNormal" channel is reported as converted and left as it was. */
  lemma MissingChannelSkips(polygons: seq<seq<int>>, colors: seq<ColorElement>,
                            before: Option<TangentData>, after: Option<TangentData>)
    requires forall j :: 0 <= j < |colors| ==> colors[j].name != OutlineNormal
    requires Converted(polygons, colors, before, after)
    ensures ConversionSucceeds(polygons, colors, before.Some?)
    ensures after == before
  {
    OutlineChannelFirst(colors);
  }

  /**
   * The conversion fails, and changes nothing, when the selected channel is
   * mapped by control point or by anything other than polygon-vertex.
   */
  lemma UnsupportedFailsUnchanged(polygons: seq<seq<int>>, colors: seq<ColorElement>,
                                  before: Option<TangentData>, after: Option<TangentData>)
    requires OutlineChannel(colors).Some?
    requires colors[OutlineChannel(colors).value].mapping != ByPolygonVertex
    requires Converted(polygons, colors, before, after)
    ensures !ConversionSucceeds(polygons, colors, before.Some?)
    ensures after == before
  {
  }

  /**
   * The by-polygon-vertex conversion of a mesh without a tangent element
   * fails, and no tangent element appears.
   */
  lemma MissingTangentFailsUnchanged(polygons: seq<seq<int>>, colors: seq<ColorElement>,
                                     before: Option<TangentData>, after: Option<TangentData>)
    requires OutlineChannel(colors).Some?
    requires colors[OutlineChannel(colors).value].mapping == ByPolygonVertex
    requires before.None?
    requires Converted(polygons, colors, before, after)
    ensures !ConversionSucceeds(polygons, colors, false)
    ensures after == before
  {
  }

  /**
   * On success the tangent element is by-polygon-vertex / direct, has one entry
   * per polygon-vertex id, and entry k is the remapped colour of id k, read
   * directly or through the index array.
   */
  lemma SuccessfulConversion(polygons: seq<seq<int>>, colors: seq<ColorElement>,
                             before: Option<TangentData>, after: Option<TangentData>, k: nat)
    requires OutlineChannel(colors).Some?
    requires ConversionSucceeds(polygons, colors, before.Some?)
    requires Converted(polygons, colors, before, after)
    requires k < SizeSum(polygons)
    ensures var e := colors[OutlineChannel(colors).value];
      && after.Some?
      && after.value.mapping == ByPolygonVertex && after.value.reference == Direct
      && |after.value.direct| == SizeSum(polygons)
      && ReadsInRange(e, k)
      && (e.reference == Direct ==> after.value.direct[k] == ColorToTangent(e.direct[k]))
      && (e.reference == IndexToDirect ==> after.value.direct[k] == ColorToTangent(e.direct[e.index[k]]))
  {
  }

  /**
   * A colour reference mode the conversion cannot read fails once there is a
   * polygon-vertex to convert, after the tangent element was already re-moded
   * and resized.
   */
  lemma UnknownReferenceFailsAfterResize(polygons: seq<seq<int>>, colors: seq<ColorElement>,
                                         before: Option<TangentData>, after: Option<TangentData>)
    requires OutlineChannel(colors).Some?
    requires colors[OutlineChannel(colors).value].mapping == ByPolygonVertex
    requires colors[OutlineChannel(colors).value].reference == Index
    requires before.Some? && SizeSum(polygons) > 0
    requires Converted(polygons, colors, before, after)
    ensures !ConversionSucceeds(polygons, colors, true)
    ensures after.Some? && after.value.mapping == ByPolygonVertex && after.value.reference == Direct
    ensures |after.value.direct| == SizeSum(polygons)
    ensures after.value.index == before.value.index
    ensures forall k :: 0 <= k < SizeSum(polygons) && k < |before.value.direct| ==>
      after.value.direct[k] == before.value.direct[k]
  {
  }

  /** Converting again after a successful conversion reproduces the same tangent element. */
  lemma SecondRunReproduces(polygons: seq<seq<int>>, colors: seq<ColorElement>,
                            before: Option<TangentData>, once: Option<TangentData>, twice: Option<TangentData>)
    requires ConversionSucceeds(polygons, colors, before.Some?)
    requires Converted(polygons, colors, before, once)
    requires Converted(polygons, colors, once, twice)
    ensures ConversionSucceeds(polygons, colors, once.Some?)
    ensures twice == once
  {
  }

  /** Three polygon-vertices coloured white, mid-grey and black give tangents (1,1,1,0), (0,0,0,0), (-1,-1,-1,0). */
  lemma ThreeCornerExample()
    ensures var e := ColorElement(OutlineNormal, ByPolygonVertex, Direct,
                                  [Color(1.0, 1.0, 1.0, 1.0), Color(0.5, 0.5, 0.5, 1.0), Color(0.0, 0.0, 0.0, 1.0)], []);
      ChannelInRange(e, 3) &&
      DerivedTangents(e, 3) == [Vector4(1.0, 1.0, 1.0, 0.0), Vector4(0.0, 0.0, 0.0, 0.0), Vector4(-1.0, -1.0, -1.0, 0.0)]
  {
    var e := ColorElement(OutlineNormal, ByPolygonVertex, Direct,
                          [Color(1.0, 1.0, 1.0, 1.0), Color(0.5, 0.5, 0.5, 1.0), Color(0.0, 0.0, 0.0, 1.0)], []);
    var d := DerivedTangents(e, 3);
    assert d[0] == Vector4(1.0, 1.0, 1.0, 0.0);
    assert d[1] == Vector4(0.0, 0.0, 0.0, 0.0);
    assert d[2] == Vector4(-1.0, -1.0, -1.0, 0.0);
  }

  // ---------------------------------------------------------------------
  // The SDK objects and the conversion that updates them in place.
  // ---------------------------------------------------------------------

  /** A tangent layer element (FbxGeometryElementTangent): the conversion rewrites all four fields. */
  class TangentElement {
    var mapping: MappingMode
    var reference: ReferenceMode
    var direct: seq<Vector4>
    var index: seq<int>

    constructor (mapping: MappingMode, reference: ReferenceMode, direct: seq<Vector4>, index: seq<int>)
      ensures Data() == TangentData(mapping, reference, direct, index)
    {
      this.mapping := mapping;
      this.reference := reference;
      this.direct := direct;
      this.index := index;
    }

    function Data(): TangentData
      reads this
    {
      TangentData(mapping, reference, direct, index)
    }

    /**
     * Resizes the direct array (FbxLayerElementArray::Resize): the entries
     * below the new size keep their values; the value of grown entries belongs
     * to the SDK and is left unconstrained.
     */
    method Resize(count: nat)
      modifies this
      ensures |direct| == count
      ensures forall k :: 0 <= k < count && k < |old(direct)| ==> direct[k] == old(direct)[k]
      ensures mapping == old(mapping) && reference == old(reference) && index == old(index)
    {
      if count <= |direct| {
        direct := direct[..count];
      } else {
        direct := direct + seq(count - |direct|, _ => Vector4(0.0, 0.0, 0.0, 0.0));
      }
    }
  }

  /**
   * An FbxMesh. The conversion never writes its control points, polygons or
   * colour elements, nor adds or removes layer elements: only the first
   * tangent element's own fields change.
   */
  class Mesh {
    const controlPoints: seq<Vector4>
    const polygons: seq<seq<int>>
    const colors: seq<ColorElement>
    const tangents: seq<TangentElement>

    constructor (controlPoints: seq<Vector4>, polygons: seq<seq<int>>,
                 colors: seq<ColorElement>, tangents: seq<TangentElement>)
      ensures this.controlPoints == controlPoints && this.polygons == polygons
      ensures this.colors == colors && this.tangents == tangents
    {
      this.controlPoints := controlPoints;
      this.polygons := polygons;
      this.colors := colors;
      this.tangents := tangents;
    }

    /** The objects a conversion of this mesh may write: the first tangent element, if any. */
    function Frame(): set<object>
    {
      if tangents == [] then {} else {tangents[0]}
    }

    /** The state of the first tangent element (GetElementTangent()), if the mesh has one. */
    function Tangent(): Option<TangentData>
      reads Frame()
    {
      if tangents == [] then None else Some(tangents[0].Data())
    }

    predicate HasTangent()
    {
      tangents != []
    }
  }

  /** Counts the polygon-vertices one corner at a time, polygon by polygon. */
  method CountPolygonVertices(polygons: seq<seq<int>>) returns (count: nat)
    ensures count == SizeSum(polygons)
  {
    count := 0;
    var i := 0;
    while i < |polygons|
      invariant 0 <= i <= |polygons|
      invariant count == SizeSum(polygons[..i])
    {
      CornersStep(polygons, i);
      var j := 0;
      while j < |polygons[i]|
        invariant 0 <= j <= |polygons[i]|
        invariant count == SizeSum(polygons[..i]) + j
      {
        count := count + 1;
        j := j + 1;
      }
      i := i + 1;
    }
    assert polygons[..|polygons|] == polygons;
  }

  /** Finds the first colour element named "OutlineNormal", stopping at the first match. */
  method FindOutlineChannel(colors: seq<ColorElement>) returns (found: Option<nat>)
    ensures found == OutlineChannel(colors)
  {
    found := None;
    var i := 0;
    while i < |colors|
      invariant 0 <= i <= |colors|
      invariant forall j :: 0 <= j < i ==> colors[j].name != OutlineNormal
    {
      if colors[i].name == OutlineNormal {
        found := Some(i);
        break;
      }
      i := i + 1;
    }
    OutlineChannelFirst(colors);
  }

  /** By-control-point colours are not supported: the conversion reports failure and writes nothing. */
  method ConvertByControlPoint(mesh: Mesh) returns (ok: bool)
    ensures !ok
  {
    ok := false;
  }

  /**
   * Rewrites the mesh's first tangent element from a by-polygon-vertex colour
   * element, filling it corner by corner with a running polygon-vertex id.
   */
  method ConvertByPolygonVertex(mesh: Mesh, e: ColorElement) returns (ok: bool)
    requires mesh.HasTangent() && e.reference != Index ==> ChannelInRange(e, SizeSum(mesh.polygons))
    modifies mesh.Frame()
    ensures ok == RewriteSucceeds(SizeSum(mesh.polygons), e, mesh.HasTangent())
    ensures Rewritten(SizeSum(mesh.polygons), e, old(mesh.Tangent()), mesh.Tangent())
  {
    var polygons := mesh.polygons;
    var polygonVertexCount := CountPolygonVertices(polygons);
    if mesh.tangents == [] {
      return false;
    }
    var tangent := mesh.tangents[0];
    tangent.mapping := ByPolygonVertex;
    tangent.reference := Direct;
    tangent.Resize(polygonVertexCount);
    ghost var resized := tangent.direct;

    var vertexIndex := 0;
    var i := 0;
    while i < |polygons|
      invariant 0 <= i <= |polygons|
      invariant vertexIndex == SizeSum(polygons[..i]) <= polygonVertexCount
      invariant tangent.mapping == ByPolygonVertex && tangent.reference == Direct
      invariant tangent.index == old(tangent.index) && |tangent.direct| == polygonVertexCount
      invariant vertexIndex > 0 ==> e.reference != Index
      invariant forall k :: 0 <= k < vertexIndex ==>
        e.reference != Index && tangent.direct[k] == ColorToTangent(CornerColor(e, k))
      invariant forall k :: vertexIndex <= k < polygonVertexCount ==> tangent.direct[k] == resized[k]
    {
      CornersStep(polygons, i);
      CornersPrefix(polygons, i + 1);
      var j := 0;
      while j < |polygons[i]|
        invariant 0 <= j <= |polygons[i]|
        invariant vertexIndex == SizeSum(polygons[..i]) + j
        invariant tangent.mapping == ByPolygonVertex && tangent.reference == Direct
        invariant tangent.index == old(tangent.index) && |tangent.direct| == polygonVertexCount
        invariant vertexIndex > 0 ==> e.reference != Index
        invariant forall k :: 0 <= k < vertexIndex ==>
          e.reference != Index && tangent.direct[k] == ColorToTangent(CornerColor(e, k))
        invariant forall k :: vertexIndex <= k < polygonVertexCount ==> tangent.direct[k] == resized[k]
      {
        var color: Color;
        assert ReadsInRange(e, vertexIndex);
        match e.reference {
          case Direct =>
            color := e.direct[vertexIndex];
          case IndexToDirect =>
            color := e.direct[e.index[vertexIndex]];
          case Index =>
            return false;
        }
        tangent.direct := tangent.direct[vertexIndex := ColorToTangent(color)];
        vertexIndex := vertexIndex + 1;
        j := j + 1;
      }
      i := i + 1;
    }
    assert polygons[..|polygons|] == polygons;
    if e.reference != Index {
      assert tangent.direct == DerivedTangents(e, polygonVertexCount);
    }
    return true;
  }

  /**
   * Converts one mesh: selects the "OutlineNormal" channel (none: success,
   * nothing changes) and dispatches on its mapping mode.
   */
  method ConvertPerMesh(mesh: Mesh) returns (ok: bool)
    requires ConversionReadsInRange(mesh.polygons, mesh.colors, mesh.HasTangent())
    modifies mesh.Frame()
    ensures ok == ConversionSucceeds(mesh.polygons, mesh.colors, mesh.HasTangent())
    ensures Converted(mesh.polygons, mesh.colors, old(mesh.Tangent()), mesh.Tangent())
  {
    var found := FindOutlineChannel(mesh.colors);
    if found.None? {
      return true;
    }
    var e := mesh.colors[found.value];
    match e.mapping {
      case ByControlPoint =>
        ok := ConvertByControlPoint(mesh);
      case ByPolygonVertex =>
        ok := ConvertByPolygonVertex(mesh, e);
      case _ =>
        ok := false;
    }
  }
}
