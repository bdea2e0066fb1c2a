# fbxtools: colour-to-tangent conversion, export format choice, dialog filters and the JSON reader

This project models the parts of fbxtools that hold real logic, and proves what they do.

- **Colour-to-tangent conversion** (`src/convert/Common/ImportExport.cxx`). A mesh's vertex-colour channel named exactly "OutlineNormal" is turned into the mesh's first tangent layer element. The element is switched to by-polygon-vertex / direct and resized to the polygon-vertex count. Then every corner's colour (r, g, b) is written as the tangent ((r - 0.5) * 2, (g - 0.5) * 2, (b - 0.5) * 2, 0). A recursive walk applies this to every mesh below the scene's root node, in pre-order, and stops at the first mesh that fails.
- **Writer-format fallback** in `SaveScene`. A requested writer index that is out of range is replaced. With embedded media the native writer is used. Without them, the first FBX writer whose description contains "ascii" is used, and the native writer when there is none.
- **Dialog filter builders** `GetReaderOFNFilters` and `GetWriterSFNFilters`. They concatenate `description|*.extension|` over the registered formats. They copy the text into a fresh NUL-filled buffer one character longer. Then they turn every `|` into NUL in place.
- **The JSON scene reader** (`test/readfbxjson.ts`). It covers the node, mesh and UV-channel accessors, and `getPointUVs`. That method walks the polygon-vertex space with a running counter and collects the UV of every corner that uses a given control point.

Modules, one per file:

- `Geometry` (geometry.dfy): mapping and reference modes, colours, vectors and layer-element records.
- `PolygonVertices` (polygon_vertices.dfy): the flattened polygon-vertex index space, shared by the conversion and the JSON reader.
- `ColorToTangent` (color_tangent.dfy) has two halves.
  - Per-mesh conversion as a relation between the tangent states before and after. Its properties are lemmas.
  - The SDK objects as classes, updated in place by methods proved against that relation. `Mesh` has constant geometry and colour channels. `TangentElement` has mutable mode fields and arrays.
- `SceneWalk` (scene_walk.dfy): the node tree and the recursive walk.
- `PluginRegistry` (plugin_registry.dfy): the registered reader and writer formats.
- `WriterFormat` (writer_format.dfy): the export format choice.
- `DialogFilters` (dialog_filters.dfy): the filter buffers, and how a file dialog reads them back.
- `FbxJson` (fbx_json.dfy): the JSON reader.

The walk's methods take three ghost parameters, used only by the proof:

- the whole sequence of meshes the walk visits;
- the position where the method's part of the walk starts;
- the tangent states from when the walk began.

With these, each method states its effect on the whole walk. `ConvertChild` and `ConvertOwnMesh` are the body of the loop in `ConvertColorToTangentPerNode`, split out as methods.

The model follows the code as written, including these behaviours a reader might not expect:

- No tangent element is ever created. A mesh without one fails, and the existing first element is rewritten rather than a new one appended.
- The walk never converts the root node's own mesh.
- The walk aborts at the first failing mesh. It does not collect every mesh's outcome.
- A colour element with reference mode Index fails only after the tangent element has been re-moded and resized. This happens once there is at least one polygon-vertex. With none, the loop body never runs and the conversion succeeds.
- Out-of-range colour reads are not reported as errors: `GetAt` out of range is left to the SDK. The model requires in-range reads instead (`ConversionReadsInRange`). The walk requires them only of the meshes it reaches: those up to and including the first failing one (`SceneWalk.WalkReady`).

## Model

| member | source | states |
|---|---|---|
| PolygonVertices.CornersLength | src/convert/Common/ImportExport.cxx:257-263 | the flattened polygon-vertex space has exactly as many ids as the polygon sizes add up to |
| ColorToTangent.OutlineChannelFirst | src/convert/Common/ImportExport.cxx:325-333 | the selected colour element is named "OutlineNormal" and no earlier one is; none is selected only when no element has that name |
| ColorToTangent.RemapInverse | src/convert/Common/ImportExport.cxx:312-314 | the colour remap has w = 0 and loses only alpha: the colour's red, green and blue are recovered from the tangent |
| ColorToTangent.RemapRange | src/convert/Common/ImportExport.cxx:312-314 | colour components in [0, 1] give tangent components in [-1, 1] |
| ColorToTangent.MissingChannelSkips | src/convert/Common/ImportExport.cxx:334-337 | a mesh with no "OutlineNormal" channel is reported as converted and its tangent element is left exactly as it was |
| ColorToTangent.UnsupportedFailsUnchanged | src/convert/Common/ImportExport.cxx:339-353 | a selected channel mapped by control point or by anything other than polygon-vertex fails and leaves the tangent state unchanged |
| ColorToTangent.MissingTangentFailsUnchanged | src/convert/Common/ImportExport.cxx:269-273 | a by-polygon-vertex channel on a mesh without a tangent element fails, and no tangent element is created |
| ColorToTangent.SuccessfulConversion | src/convert/Common/ImportExport.cxx:279-320 | on success the tangent element is by-polygon-vertex / direct, has one entry per polygon-vertex id, and entry k is the remapped colour of id k, read directly or through the index array |
| ColorToTangent.UnknownReferenceFailsAfterResize | src/convert/Common/ImportExport.cxx:279-310 | an Index colour reference mode fails once there is a polygon-vertex, after the tangent element was already switched to by-polygon-vertex / direct and resized; its index array and the entries that survive the resize are unchanged, so no entry is written |
| ColorToTangent.SecondRunReproduces | src/convert/Common/ImportExport.cxx:256-321 | converting again after a successful conversion succeeds and reproduces the same tangent element |
| ColorToTangent.ThreeCornerExample | src/convert/Common/ImportExport.cxx:312-315 | white, mid-grey and black corners give tangents (1,1,1,0), (0,0,0,0) and (-1,-1,-1,0) |
| ColorToTangent.TangentElement.Resize | src/convert/Common/ImportExport.cxx:287 | the direct array gets the new length, surviving entries keep their values, and the modes and index array do not change |
| ColorToTangent.CountPolygonVertices | src/convert/Common/ImportExport.cxx:257-263 | the nested counting loops compute the sum of the polygon sizes |
| ColorToTangent.FindOutlineChannel | src/convert/Common/ImportExport.cxx:325-333 | the search loop, stopping at the first match, finds the first "OutlineNormal" element |
| ColorToTangent.ConvertByControlPoint | src/convert/Common/ImportExport.cxx:248-254 | by-control-point colours always fail, and nothing is written |
| ColorToTangent.ConvertByPolygonVertex | src/convert/Common/ImportExport.cxx:256-321 | the result is true exactly when there is a tangent element and the colour reference mode is readable (or there is no corner); the element's new state is the by-polygon-vertex rewrite, filled corner by corner with the running polygon-vertex id; only the first tangent element is written |
| ColorToTangent.ConvertPerMesh | src/convert/Common/ImportExport.cxx:323-356 | the result is the per-mesh success predicate and the tangent state changes exactly as the conversion relation says: unchanged when there is no "OutlineNormal" channel or it is not by-polygon-vertex, rewritten otherwise |
| SceneWalk.FirstFailure | src/convert/Common/ImportExport.cxx:369-372 | the position where the walk stops: every earlier mesh succeeded, and the mesh there failed |
| SceneWalk.AllSucceed | src/convert/Common/ImportExport.cxx:358-376 | the walk reports success exactly when every visited mesh's conversion succeeds |
| SceneWalk.RunFailed | src/convert/Common/ImportExport.cxx:369-372 | the first failure within one child's part of the walk is the first failure of the whole walk, which goes no further |
| SceneWalk.ConvertOwnMesh | src/convert/Common/ImportExport.cxx:362-370 | a child without a mesh succeeds and changes nothing; otherwise that mesh is converted, the rest of the walk is untouched, and the result is its conversion's outcome |
| SceneWalk.ConvertChild | src/convert/Common/ImportExport.cxx:361-373 | a child's own mesh is converted before the meshes below it; the result is true exactly when none of them fails, and the meshes after the first failure are not touched |
| SceneWalk.ConvertBelow | src/convert/Common/ImportExport.cxx:358-376 | the children are walked in child order; the result is true exactly when no mesh below fails, and the walk converts exactly the meshes up to and including the first failure |
| SceneWalk.ConvertPerNode | src/convert/Common/ImportExport.cxx:358-376 | a missing node yields true; otherwise the meshes strictly below the node are converted in pre-order up to the first failure, later ones keep their state, and the result is true exactly when every one of them succeeds |
| SceneWalk.ConvertScene | src/convert/Common/ImportExport.cxx:378-382 | the walk from the scene's root node, with the same guarantees; the root's own mesh is not converted |
| WriterFormat.FindFrom | src/convert/Common/ImportExport.cxx:421 | the substring search returns the first match at or after the start position, or -1 when there is none |
| WriterFormat.Find | src/convert/Common/ImportExport.cxx:421 | the result is -1 exactly when the pattern never occurs; otherwise it is the first position where it occurs |
| WriterFormat.ChooseWriterFormat | src/convert/Common/ImportExport.cxx:399-429 | an in-range format is kept; otherwise embedded media give the native writer; otherwise the first FBX writer whose description contains "ascii", or the native writer when no writer qualifies; the result is a valid writer whenever the native writer is |
| WriterFormat.AsciiProbeExample | src/convert/Common/ImportExport.cxx:421 | the "ascii" probe finds "ascii" in "FBX ascii (*.fbx)" at position 4 |
| DialogFilters.FilterString | src/convert/Common/ImportExport.cxx:480-488 | the filter text holds no NUL and ends with a bar character unless there are no formats |
| DialogFilters.BuildFilterString | src/convert/Common/ImportExport.cxx:480-488 | the loop builds the in-order concatenation of the description, a bar, "*.", the extension and a bar over the formats |
| DialogFilters.SeparateInPlace | src/convert/Common/ImportExport.cxx:490-503 | the fresh buffer has length strlen + 1 and ends in NUL; every bar character becomes NUL and every other character is copied unchanged |
| DialogFilters.ReaderOpenFilters | src/convert/Common/ImportExport.cxx:472-507 | the open-dialog buffer is the separated filter text of the reader formats |
| DialogFilters.WriterSaveFilters | src/convert/Common/ImportExport.cxx:511-546 | the save-dialog buffer is the separated filter text of the writer formats |
| DialogFilters.EntryFields | src/convert/Common/ImportExport.cxx:482-487 | one format's entry, separated, is its description and its "*." pattern, each NUL-terminated |
| DialogFilters.FilterFields | src/convert/Common/ImportExport.cxx:480-503 | the separated filter text reads back as every format's description and pattern, in registry order |
| DialogFilters.DialogSeesFormats | src/convert/Common/ImportExport.cxx:472-507 | a dialog reading the buffer as NUL-terminated strings gets every format's description and "*." pattern, in order, and then the empty string that ends the list |
| DialogFilters.FieldsConcat | src/convert/Common/ImportExport.cxx:490-503 | a buffer whose first part ends in NUL reads as the strings of the first part followed by those of the second |
| FbxJson.GetPointUV | test/readfbxjson.ts:6-9 | the UV is `directArray[indexArray[i]]` when both lookups are in range and undefined otherwise, whatever the channel's modes |
| FbxJson.UVChannels | test/readfbxjson.ts:21-23 | one channel per entry of the mesh's `uv` list, in the same order |
| FbxJson.GetPoint | test/readfbxjson.ts:25-27 | the control point at the index, defined exactly for indices below `getPointCount()` |
| FbxJson.GetPointCount | test/readfbxjson.ts:28-30 | the number of control points |
| FbxJson.GetChild | test/readfbxjson.ts:54-57 | the child at the index, falsy exactly when there is none |
| FbxJson.GetMesh | test/readfbxjson.ts:58-60 | the node's mesh, falsy exactly when the node has none |
| FbxJson.OccurrencesExact | test/readfbxjson.ts:37-46 | an id is collected exactly when it is a corner position that uses the control point |
| FbxJson.OccurrencesIncreasing | test/readfbxjson.ts:37-46 | the collected ids are in increasing order: polygon order, then corner order |
| FbxJson.OccurrencesCount | test/readfbxjson.ts:37-46 | one id is collected per occurrence of the control point among the corners |
| FbxJson.OccurrencesEmpty | test/readfbxjson.ts:37-46 | nothing is collected exactly when no corner uses the control point |
| FbxJson.CornerOfPrefix | test/readfbxjson.ts:37-43 | corner vi of polygon fi has polygon-vertex id equal to the corners of the earlier polygons plus vi |
| FbxJson.GetPointUVs | test/readfbxjson.ts:31-47 | with an existing channel, the result is that channel's UV for each corner using the control point, in polygon and corner order; with a missing channel, a TypeError if any corner uses the point and an empty list otherwise; the running counter is the current corner's polygon-vertex id (loop invariant) |

## Left out

- `LoadScene`, the exporter half of `SaveScene` (initialisation, IO settings, export), SDK setup and teardown, and the `ImportExport` driver. They are FBX SDK calls and file I/O.
- `UI_Printf` diagnostics are not modelled. They only print.
- `GetFileFormatExt` is not modelled. It depends on the truncation behaviour of `FBXSDK_strcat`, which is not part of this model.
- The command-line programs (`src/convert/main.cpp`, `src/fbx2json/main.cpp`) and the JSON serialiser in `src/fbx2json` are not modelled. They only parse arguments, set up the SDK and write a node name.
- The top-level script of `test/readfbxjson.ts` is not modelled. It reads a file, parses JSON and prints.
- `FBXMesh.Name`, `Polygons` and `ControlPoints` getters and `FBXContent.getRoot` are not modelled. They return fields of the record as they are.
- Colours and vectors are exact reals, not IEEE doubles, so the remap is exact.
- The C `int` counters are unbounded in the model, so 32-bit overflow is not modelled. These are the polygon-vertex count and running id (`polygonVertexCount`, `vertexIndex`) and the filter buffer size (`nbChar`).
- ColorToTangent.TangentElement.Resize: the value of entries a resize adds belongs to the SDK and is left unconstrained. The Index-reference failure path therefore says nothing about them.
- ColorToTangent.ConvertByPolygonVertex: requires every colour read to be in range, because `GetAt` out of range is SDK-defined behaviour.
- SceneWalk.ConvertPerNode: requires the visited meshes to have distinct first tangent elements. A mesh instanced under several nodes, whose conversion would run more than once, is not modelled.
- Node graphs with shared or cyclic nodes are not modelled: the node tree is a value.
- WriterFormat.Find: models `FbxString::Find` as a first-occurrence, case-sensitive substring search. Its implementation is not part of this model.
- FbxJson.GetPointUVs: JavaScript loose equality `==` is modelled on integers only. Indices are integers and the JSON values are well-typed arrays.
