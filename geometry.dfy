/**
 * The FBX geometry data the colour-to-tangent conversion works on: mapping and
 * reference modes of a layer element, colours and 4-component vectors (with
 * exact real components), and the vertex-colour layer element, which the
 * conversion only reads.
 */
module Geometry {

  datatype Option<T> = None | Some(value: T)

  /** Which domain a layer element's values are indexed over (FbxLayerElement::EMappingMode). */
  datatype MappingMode = NoMapping | ByControlPoint | ByPolygonVertex | ByPolygon | ByEdge | AllSame

  /** How a layer element's values are reached from the domain index (FbxLayerElement::EReferenceMode). */
  datatype ReferenceMode = Direct | Index | IndexToDirect

  /** An FbxColor: red, green, blue and alpha. */
  datatype Color = Color(red: real, green: real, blue: real, alpha: real)

  /** An FbxVector4. */
  datatype Vector4 = Vector4(x: real, y: real, z: real, w: real)

  /** A vertex-colour layer element, as the conversion reads it. */
  datatype ColorElement = ColorElement(
    name: string,
    mapping: MappingMode,
    reference: ReferenceMode,
    direct: seq<Color>,
    index: seq<int>)

  /** The state of a tangent layer element at one moment. */
  datatype TangentData = TangentData(
    mapping: MappingMode,
    reference: ReferenceMode,
    direct: seq<Vector4>,
    index: seq<int>)
}
