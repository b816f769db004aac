# Renderer view state and light-field converter naming, in Dafny

This project models two small pieces of pure control logic from the TSR
surface-reconstruction repository and proves properties about them.

1. **The renderer's view-state controller.** These are the inline methods of
   `Renderer`. Their callers, which are not part of this model, use them
   to move the camera highlight, to cycle the camera and sample rendering
   modes, to step through edges, triangles and reconstructions, and to
   toggle visibility booleans and bit-flag words. Module `Renderer` holds
   the state record `ViewState` and one pure transition function per
   method. Module
   `RendererProperties` proves the cycle periods, the inverse pairs, the
   involutions and the independence of flag bits.
2. **Naming and validation in the Disney light-field to MVE converter.**
   This covers the view key of an image or depth-map file name (the text
   between the last `_` and the next `.`) and its `view_<key>.mve`
   directory. It also covers the view id that `std::stoi` reads from the
   name, the constant per-pixel view map, the `findSourceData` count check,
   the `getArguments` arity check, and the start of `main`. Module
   `LightFieldToMve` holds the model. Module `ConverterProperties` proves
   four things:
   - the key agrees with an independent description of it;
   - the directory name round-trips to the key;
   - the id parsed by the image loop equals the id written by the
     depth-map loop;
   - `std::to_string` and `std::stoi` round-trip.

Supporting modules: `Results` holds the `Option`/`Result` values that
stand for the source's `bool` error returns and library exceptions.
`MachineWords` holds the fixed-width machine arithmetic. `uint32`
increments and decrements wrap modulo 2^32. `std::string::npos + 1` wraps
to 0 modulo 2^64. Flag words are `bv32`.

Three constants are defined in headers that are not part of this model:
`Edge::INVALID_INDEX`, `Triangle::INVALID_INDEX` and
`IReconstructorObserver::RECONSTRUCTION_TYPE_COUNT`. The model takes them
as parameters and does not guess their values. The tree-intersection
triangle is compared against the literal `-1`, which is visible in the
source. That literal is modelled as `0xFFFFFFFF`.

The spatial octree, `Scope`, the sphere and cone nodes checkers and
node-state classification are not modelled: `ConeNodesChecker::isIgnored`
(`ConeNodesChecker.h:40`) is declared without a body, and its doc comment
(lines 36-39) describes an overlap test, which contradicts its name.

## Model

| member | source | states |
|---|---|---|
| MachineWords.Inc32 | SurfaceReconstruction/SurfaceReconstruction/Rendering/Renderer.h:327 | `++` on a `uint32` adds one modulo 2^32, and is exactly one more below 2^32-1 |
| MachineWords.Dec32 | SurfaceReconstruction/SurfaceReconstruction/Rendering/Renderer.h:391 | `--` on a `uint32` subtracts one modulo 2^32, is undone by `++`, and is exactly one less above 0 |
| MachineWords.ToggleFrame | SurfaceReconstruction/SurfaceReconstruction/Rendering/Renderer.h:455 | `word ^= mask` inverts exactly the bits inside the mask and keeps every bit outside it |
| MachineWords.ToggleTwice | SurfaceReconstruction/SurfaceReconstruction/Rendering/Renderer.h:455 | applying the same `^=` twice restores the word |
| MachineWords.ToggleCombines | SurfaceReconstruction/SurfaceReconstruction/Rendering/Renderer.h:455 | two `^=` in a row equal one `^=` by the XOR of the masks |
| MachineWords.ToggleCommutes | SurfaceReconstruction/SurfaceReconstruction/Rendering/Renderer.h:455 | `^=` by two masks gives the same word in either order |
| MachineWords.ToggleKeepsDisjointFlags | SurfaceReconstruction/SurfaceReconstruction/Rendering/Renderer.h:455 | `^=` by a mask disjoint from some flags does not change whether those flags are set |
| Renderer.OccupancyMask | SurfaceReconstruction/SurfaceReconstruction/Rendering/Renderer.h:68-74 | each occupancy enumerator is exactly one bit |
| Renderer.HighlightCamera | SurfaceReconstruction/SurfaceReconstruction/Rendering/Renderer.h:332-335 | the highlighted camera becomes the given id; nothing else changes |
| Renderer.HighlightNextCamera | SurfaceReconstruction/SurfaceReconstruction/Rendering/Renderer.h:325-330 | the highlight becomes old+1 when that is below the camera count and 0 otherwise, with old+1 taken in unbounded arithmetic although the code increments a wrapping `uint32`; with at least one camera the result is a valid camera index; nothing else changes |
| Renderer.NextCameraRendering | SurfaceReconstruction/SurfaceReconstruction/Rendering/Renderer.h:337-342 | the next mode is never the count sentinel; from a real mode it is the next one in a cycle of four; from the sentinel it is INVISIBLE |
| Renderer.ShiftCameraRendering | SurfaceReconstruction/SurfaceReconstruction/Rendering/Renderer.h:337-342 | the camera mode advances one step in the four-mode cycle and never becomes the count sentinel; nothing else changes |
| Renderer.NextSampleRendering | SurfaceReconstruction/SurfaceReconstruction/Rendering/Renderer.h:344-349 | the next mode is never INVALID or COUNT; from a real mode it is the next one in a cycle of three; from either sentinel it is INVISIBLE |
| Renderer.ShiftSampleRendering | SurfaceReconstruction/SurfaceReconstruction/Rendering/Renderer.h:344-349 | the sample mode advances one step in the three-mode cycle and never becomes a sentinel; nothing else changes |
| Renderer.ShowDualCell | SurfaceReconstruction/SurfaceReconstruction/Rendering/Renderer.h:351-354 | the shown dual cell becomes the given index; nothing else changes |
| Renderer.ShowEdgeNeighbors | SurfaceReconstruction/SurfaceReconstruction/Rendering/Renderer.h:356-359 | the shown edge becomes the given index; nothing else changes |
| Renderer.ShowNextEdgeNeighbors | SurfaceReconstruction/SurfaceReconstruction/Rendering/Renderer.h:361-365 | the shown edge goes up by exactly one, modulo 2^32; nothing else changes |
| Renderer.ShowNextReconstruction | SurfaceReconstruction/SurfaceReconstruction/Rendering/Renderer.h:367-372 | the shown reconstruction becomes old+1 when that is at most the type count and 0 otherwise, so it stays within 0..count; nothing else changes |
| Renderer.ShowNextTreeIntersectionTriangle | SurfaceReconstruction/SurfaceReconstruction/Rendering/Renderer.h:374-378 | the intersection-triangle index goes up by one, modulo 2^32; nothing else changes |
| Renderer.ShowNextTriangleNeighbors | SurfaceReconstruction/SurfaceReconstruction/Rendering/Renderer.h:380-384 | the shown triangle goes up by exactly one, modulo 2^32; nothing else changes |
| Renderer.ShowPreviousEdgeNeighbors | SurfaceReconstruction/SurfaceReconstruction/Rendering/Renderer.h:386-393 | no-op at the invalid-edge sentinel; otherwise the shown edge goes down by exactly one, modulo 2^32; nothing else changes |
| Renderer.ShowPreviousTreeIntersectionTriangle | SurfaceReconstruction/SurfaceReconstruction/Rendering/Renderer.h:395-402 | no-op at the `-1` sentinel; otherwise the index goes down by one, modulo 2^32; nothing else changes |
| Renderer.ShowPreviousTriangleNeighbors | SurfaceReconstruction/SurfaceReconstruction/Rendering/Renderer.h:404-411 | no-op at the invalid-triangle sentinel; otherwise the shown triangle goes down by exactly one, modulo 2^32; nothing else changes |
| Renderer.ShowNodes | SurfaceReconstruction/SurfaceReconstruction/Rendering/Renderer.h:413-416 | the shown node becomes the given index; nothing else changes |
| Renderer.ShowTriangleNeighbors | SurfaceReconstruction/SurfaceReconstruction/Rendering/Renderer.h:418-421 | the shown triangle becomes the given index; nothing else changes |
| Renderer.ToggleBackfaceCulling | SurfaceReconstruction/SurfaceReconstruction/Rendering/Renderer.h:423-426 | backface culling flips; nothing else changes |
| Renderer.ToggleCrustRendering | SurfaceReconstruction/SurfaceReconstruction/Rendering/Renderer.h:428-431 | crust bits inside the mask are inverted, bits outside are kept; nothing else changes |
| Renderer.ToggleLeafResultsRendering | SurfaceReconstruction/SurfaceReconstruction/Rendering/Renderer.h:433-436 | leaf-result bits inside the mask are inverted, bits outside are kept; nothing else changes |
| Renderer.ToggleGroundTruthVisibility | SurfaceReconstruction/SurfaceReconstruction/Rendering/Renderer.h:438-441 | ground-truth visibility flips; nothing else changes |
| Renderer.ToggleMeshNormalsVisibility | SurfaceReconstruction/SurfaceReconstruction/Rendering/Renderer.h:443-446 | mesh-normal visibility flips; nothing else changes |
| Renderer.ToggleMeshRefinerRendering | SurfaceReconstruction/SurfaceReconstruction/Rendering/Renderer.h:448-451 | mesh-refiner bits inside the mask are inverted, bits outside are kept; nothing else changes |
| Renderer.ToggleOccupancyRenderingFlags | SurfaceReconstruction/SurfaceReconstruction/Rendering/Renderer.h:453-456 | for a parameter that is one of the four enumerators: that enumerator's bit flips, all other occupancy bits are kept; nothing else changes |
| Renderer.OccupancyToggleFlips | SurfaceReconstruction/SurfaceReconstruction/Rendering/Renderer.h:453-456 | toggling an enumerator's bit flips whether that enumerator is set |
| Renderer.ToggleTreeRendering | SurfaceReconstruction/SurfaceReconstruction/Rendering/Renderer.h:458-461 | tree bits inside the mask are inverted, bits outside are kept; nothing else changes |
| RendererProperties.HighlightNextCameraSteps | SurfaceReconstruction/SurfaceReconstruction/Rendering/Renderer.h:325-330 | from a valid camera, k calls advance the highlight by k modulo the camera count |
| RendererProperties.HighlightNextCameraPeriod | SurfaceReconstruction/SurfaceReconstruction/Rendering/Renderer.h:107-110 | the last camera wraps to camera 0; cameraCount calls return to the start and no fewer do |
| RendererProperties.ShiftCameraRenderingSteps | SurfaceReconstruction/SurfaceReconstruction/Rendering/Renderer.h:337-342 | k shifts advance the camera mode by k modulo 4 and never reach the count sentinel |
| RendererProperties.ShiftCameraRenderingPeriod | SurfaceReconstruction/SurfaceReconstruction/Rendering/Renderer.h:47-54 | INVISIBLE, POINTS, ARROWS, RAY_BUNDLES form one cycle: four shifts are the identity, fewer are not |
| RendererProperties.ShiftSampleRenderingSteps | SurfaceReconstruction/SurfaceReconstruction/Rendering/Renderer.h:344-349 | k shifts advance the sample mode by k modulo 3 and never reach INVALID or COUNT |
| RendererProperties.ShiftSampleRenderingPeriod | SurfaceReconstruction/SurfaceReconstruction/Rendering/Renderer.h:77-85 | INVISIBLE, POINTS_DATA_COLOR, POINTS_NORMAL_COLOR form one cycle: three shifts are the identity, fewer are not |
| RendererProperties.ShowNextReconstructionSteps | SurfaceReconstruction/SurfaceReconstruction/Rendering/Renderer.h:367-372 | from an index within 0..count, k calls advance it by k modulo count+1 |
| RendererProperties.ShowNextReconstructionPeriod | SurfaceReconstruction/SurfaceReconstruction/Rendering/Renderer.h:369-371 | count+1 calls return to the start and no fewer do, so the reset fires once per lap |
| RendererProperties.EdgeStepsAreInverse | SurfaceReconstruction/SurfaceReconstruction/Rendering/Renderer.h:361-393 | next-after-previous and previous-after-next restore the state unless the sentinel is involved |
| RendererProperties.TriangleStepsAreInverse | SurfaceReconstruction/SurfaceReconstruction/Rendering/Renderer.h:380-411 | next-after-previous and previous-after-next restore the state unless the sentinel is involved |
| RendererProperties.TreeIntersectionTriangleSteps | SurfaceReconstruction/SurfaceReconstruction/Rendering/Renderer.h:374-402 | next and previous are inverse away from `-1`; next from `-1` gives 0; previous from 0 lands on `-1` |
| RendererProperties.BooleanTogglesAreInvolutions | SurfaceReconstruction/SurfaceReconstruction/Rendering/Renderer.h:423-446 | each boolean toggle applied twice restores the state |
| RendererProperties.FlagTogglesAreInvolutions | SurfaceReconstruction/SurfaceReconstruction/Rendering/Renderer.h:428-461 | each flag-word toggle applied twice with the same flags restores the state |
| RendererProperties.CrustToggleTwice | SurfaceReconstruction/SurfaceReconstruction/Rendering/Renderer.h:428-431 | toggling the same crust flags twice restores the state |
| RendererProperties.LeafResultsToggleTwice | SurfaceReconstruction/SurfaceReconstruction/Rendering/Renderer.h:433-436 | toggling the same leaf-result flags twice restores the state |
| RendererProperties.MeshRefinerToggleTwice | SurfaceReconstruction/SurfaceReconstruction/Rendering/Renderer.h:448-451 | toggling the same mesh-refiner flags twice restores the state |
| RendererProperties.OccupancyToggleTwice | SurfaceReconstruction/SurfaceReconstruction/Rendering/Renderer.h:453-456 | toggling the same occupancy enumerator twice restores the state |
| RendererProperties.TreeToggleTwice | SurfaceReconstruction/SurfaceReconstruction/Rendering/Renderer.h:458-461 | toggling the same tree flags twice restores the state |
| RendererProperties.OccupancyMasksAreDisjoint | SurfaceReconstruction/SurfaceReconstruction/Rendering/Renderer.h:68-74 | distinct occupancy enumerators share no bit |
| RendererProperties.OccupancyFlagsAreIndependent | SurfaceReconstruction/SurfaceReconstruction/Rendering/Renderer.h:453-456 | toggling one occupancy enumerator leaves every other one's state untouched; toggles of two enumerators commute |
| RendererProperties.NamedFlagsAreIndependent | SurfaceReconstruction/SurfaceReconstruction/Rendering/Renderer.h:56-92 | the leaf-result, mesh-refiner and scene-tree enumerators are single bits; toggling one leaf-result or tree flag keeps the other's state |
| LightFieldToMve.RFind | Converters/DisneyResearchLightFieldToMVE/Main.cpp:89 | `rfind` returns npos exactly when the character is absent, else the last position holding it |
| LightFieldToMve.Find | Converters/DisneyResearchLightFieldToMVE/Main.cpp:91 | `find` returns npos exactly when the character is absent, else the first position holding it |
| LightFieldToMve.Substr | Converters/DisneyResearchLightFieldToMVE/Main.cpp:89 | `substr` returns min(count, size - pos) characters starting at pos |
| LightFieldToMve.AfterLastUnderscore | Converters/DisneyResearchLightFieldToMVE/Main.cpp:89 | the result is the tail of the name after its last `_` and contains no `_`; without any `_` (npos+1 wraps to 0) it is the whole name |
| LightFieldToMve.BeforeFirstDot | Converters/DisneyResearchLightFieldToMVE/Main.cpp:91 | the result is the prefix before the first `.` (all of it when there is none) and contains no `.` |
| LightFieldToMve.ViewKey | Converters/DisneyResearchLightFieldToMVE/Main.cpp:152-153 | the view key contains neither `_` nor `.` |
| LightFieldToMve.ViewFolderRoundTrip | Converters/DisneyResearchLightFieldToMVE/Main.cpp:92 | the key is recovered from `"view_" + key + ".mve"` |
| LightFieldToMve.ViewFolderName | Converters/DisneyResearchLightFieldToMVE/Main.cpp:92 | the directory name is `view_`, then the key, then `.mve`, nine characters longer than the key |
| LightFieldToMve.ViewFolder | Converters/DisneyResearchLightFieldToMVE/Main.cpp:154 | the directory of a file name yields back that name's view key, which holds no `_` or `.` |
| LightFieldToMve.Stoi | Converters/DisneyResearchLightFieldToMVE/Main.cpp:90 | a successful `stoi` result lies within `int` |
| LightFieldToMve.ParseDigits | Converters/DisneyResearchLightFieldToMVE/Main.cpp:90 | `stoi` reports `invalid_argument` exactly when no digit follows the sign |
| LightFieldToMve.ImageViewOf | Converters/DisneyResearchLightFieldToMVE/Main.cpp:89-108 | it fails exactly when `stoi` fails on the text after the last `_`; otherwise `view.id` is that `stoi` value within `int`, its text is `to_string` of it, `view.name` is the view key, and the directory is the view directory of the name |
| LightFieldToMve.IntToString | Converters/DisneyResearchLightFieldToMVE/Main.cpp:107 | `to_string(id)` starts with `-` exactly when id is negative, and the text after that sign is decimal digits |
| LightFieldToMve.DepthMapViewId | Converters/DisneyResearchLightFieldToMVE/Main.cpp:160 | a successful `stoi(suffix)` on the depth map's view key lies within `int` |
| LightFieldToMve.FillViewMap | Converters/DisneyResearchLightFieldToMVE/Main.cpp:158-160 | the view map has exactly the requested number of entries and every entry is the id |
| LightFieldToMve.DepthMapViewOf | Converters/DisneyResearchLightFieldToMVE/Main.cpp:152-160 | a depth map goes into its view key's directory; the view map has size[0]*size[1] entries, each the id parsed from the view key; it fails exactly when that parse fails |
| LightFieldToMve.FindSourceData | Converters/DisneyResearchLightFieldToMVE/Main.cpp:173-193 | accepted exactly when there is at least one image and as many depth maps as images; zero images is its own rejection, even with zero depth maps |
| LightFieldToMve.GetArguments | Converters/DisneyResearchLightFieldToMVE/Main.cpp:195-220 | accepted exactly when there are six arguments; the fields taken in order rebuild the argument list |
| LightFieldToMve.StartAsWritten | Converters/DisneyResearchLightFieldToMVE/Main.cpp:58-61 | as written, `main` proceeds exactly when the listings are accepted, whatever the argument count |
| LightFieldToMve.StartChecked | Converters/DisneyResearchLightFieldToMVE/Main.cpp:58-61 | corrected: `main` proceeds only with six arguments and accepted listings, and reports a bad command line otherwise |
| ConverterProperties.ViewKeyIsDescribed | Converters/DisneyResearchLightFieldToMVE/Main.cpp:89-91 | the computed key starts after the last `_` (or at 0), contains no `.`, and ends at the end or before a `.` |
| ConverterProperties.DescribedKeyIsViewKey | Converters/DisneyResearchLightFieldToMVE/Main.cpp:89-91 | any slice meeting that description is the computed key |
| ConverterProperties.ViewKeyMatchesDescription | Converters/DisneyResearchLightFieldToMVE/Main.cpp:89-91 | a string meets the view-key description exactly when it is the computed key |
| ConverterProperties.ViewKeySplitsName | Converters/DisneyResearchLightFieldToMVE/Main.cpp:89-91 | the computed tail is the suffix after the last `_` (or the whole name) and the key is the tail's prefix before its first `.` (or the whole tail) |
| ConverterProperties.SplitIsDescribed | Converters/DisneyResearchLightFieldToMVE/Main.cpp:89-91 | such a split yields a slice of the name that meets the view-key description |
| ConverterProperties.SplitStartIsUnique | Converters/DisneyResearchLightFieldToMVE/Main.cpp:89 | only the position after the last `_` starts a key |
| ConverterProperties.SplitStopIsUnique | Converters/DisneyResearchLightFieldToMVE/Main.cpp:91 | only the first `.` (or the end) stops a key |
| ConverterProperties.DescribedSliceIsSplit | Converters/DisneyResearchLightFieldToMVE/Main.cpp:89-91 | every slice meeting the description equals the key of the split |
| ConverterProperties.ViewKeyWithoutUnderscore | Converters/DisneyResearchLightFieldToMVE/Main.cpp:89 | a name without `_` keeps everything before its first `.` |
| ConverterProperties.ViewFolderIdentifiesKey | Converters/DisneyResearchLightFieldToMVE/Main.cpp:152-154 | two files share a view directory exactly when their view keys agree |
| ConverterProperties.KeyOfViewFolderIsExact | Converters/DisneyResearchLightFieldToMVE/Main.cpp:92 | a directory name that yields a key is the name built from that key |
| ConverterProperties.ParseDigitsIgnoresTail | Converters/DisneyResearchLightFieldToMVE/Main.cpp:90 | the digit step of `stoi` ignores text after a non-digit |
| ConverterProperties.ParseSignedIgnoresTail | Converters/DisneyResearchLightFieldToMVE/Main.cpp:90 | the sign step of `stoi` ignores text after a character that ends the number |
| ConverterProperties.StoiIgnoresTail | Converters/DisneyResearchLightFieldToMVE/Main.cpp:90 | `stoi` ignores text after a character that ends the number |
| ConverterProperties.StoiStopsAtDot | Converters/DisneyResearchLightFieldToMVE/Main.cpp:153-160 | cutting a string at its first `.` never changes what `stoi` returns |
| ConverterProperties.StoiOfDigitsWithExtension | Converters/DisneyResearchLightFieldToMVE/Main.cpp:90 | decimal digits followed by an extension parse to the digits' value |
| ConverterProperties.DigitsRoundTrip | Converters/DisneyResearchLightFieldToMVE/Main.cpp:107 | the decimal digits of n have value n |
| ConverterProperties.ParseDigitsOfDigits | Converters/DisneyResearchLightFieldToMVE/Main.cpp:90 | a whole string of digits in range parses to its signed value |
| ConverterProperties.StoiOfNonNegative | Converters/DisneyResearchLightFieldToMVE/Main.cpp:107 | the decimal text of a non-negative `int` parses back to it |
| ConverterProperties.StoiOfNegative | Converters/DisneyResearchLightFieldToMVE/Main.cpp:107 | `-` followed by the digits of m parses back to -m for every m up to 2^31 |
| ConverterProperties.StoiOfIntToString | Converters/DisneyResearchLightFieldToMVE/Main.cpp:107 | the `view.id` text `to_string(id)` parses back to id |
| ConverterProperties.ImageAndDepthMapAgree | Converters/DisneyResearchLightFieldToMVE/Main.cpp:89-160 | an image and a depth map with the same view key get the same directory; the id parsed before the cut (image loop) equals the id parsed after it (view map); they fail together |
| ConverterProperties.NumberedNameDescribed | Converters/DisneyResearchLightFieldToMVE/Main.cpp:89-91 | the digits of `<prefix>_<digits>.<ext>` sit exactly where the view-key description puts a key |
| ConverterProperties.NumberedNameKey | Converters/DisneyResearchLightFieldToMVE/Main.cpp:89-91 | for `<prefix>_<digits>.<ext>` the text after the last `_` is `<digits>.<ext>` and the view key is the digits |
| ConverterProperties.NumberedNameId | Converters/DisneyResearchLightFieldToMVE/Main.cpp:89-108 | for `<prefix>_<digits>.<ext>` the key is the digits, the view id is their value, and the image's view record is fully determined by them |
| ConverterProperties.EmptySourceDataIsRejected | Converters/DisneyResearchLightFieldToMVE/Main.cpp:178-182 | zero images with zero depth maps is rejected for lack of images |
| ConverterProperties.GetArgumentsRoundTrip | Converters/DisneyResearchLightFieldToMVE/Main.cpp:210-217 | the six arguments are assigned to focal length (mm), focal length (px), camera separation, undistorted dir, depth-map dir and target dir, in order |
| ConverterProperties.StartAsWrittenIgnoresArgumentCount | Converters/DisneyResearchLightFieldToMVE/Main.cpp:58-61 | with five arguments and matching listings the as-written start proceeds although `getArguments` failed; the corrected start refuses |
| ConverterProperties.StartCheckedRefinesAsWritten | Converters/DisneyResearchLightFieldToMVE/Main.cpp:58-61 | the corrected start proceeds only where the as-written one does, and agrees with it on six arguments |

## Left out

- Renderer drawing (`render*`, `update`, colours, light animation): these methods are only declared, and their output is OpenGL drawing.
- Renderer fields that no inline method touches (highlighted sample range, neighbour size, shown sample, element sizes) are not part of `ViewState`.
- Renderer.ShowNextTreeIntersectionTriangle: models only the `++` of the index. The call to `showTreeIntersectionTriangle` that follows (Renderer.h:377) has no visible body, so its effect on the index and on the leaf list is not modelled.
- Renderer.ShowPreviousTreeIntersectionTriangle: models only the `-1` guard and the `--` of the index. The call to `showTreeIntersectionTriangle` that follows (Renderer.h:401) has no visible body, so its effect on the index and on the leaf list is not modelled. RendererProperties.TreeIntersectionTriangleSteps rests on the same simplification.
- Renderer.ToggleOccupancyRenderingFlags: the parameter is one of the four enumerators. The C++ parameter has the enum type, whose range covers every 32-bit value because `LOG_SCALE` is bit 31, so a cast combination such as `EMPTINESS | SAMPLENESS` is also accepted there. For such combinations the XOR itself is covered by MachineWords.ToggleFrame.
- Edge and triangle sentinels and `RECONSTRUCTION_TYPE_COUNT` are parameters. The headers that define them are not part of this model.
- The spatial octree, `Scope`, the sphere and cone nodes checkers, and node-state classification: `ConeNodesChecker::isIgnored` (ConeNodesChecker.h:40) is declared without a body, and its doc comment (lines 36-39) says it returns true on overlap, which contradicts its name.
- `CapturedScene.h`, `FileNaming.h`, `CameraData.h`: declarations, string constants defined elsewhere, and a plain data holder.
- Converter I/O: directory listing (`Directory::findChildren`), directory creation, file copies, binary depth-map reading, MVEI writing, `writeMetaData`, the interactive `cin` prompt of `handleExistingTargetDirectory`, `outputDescription`, and exit codes 2-4.
- Converter floating-point formulas: depth from disparity, camera translation and focal length in `meta.ini`.
- LightFieldToMve.GetArguments: keeps the three numeric arguments as text, because the `sscanf` conversions to `float` and `unsigned` are not modelled. `Utilities::getCommandLineArguments` is not part of this model either; the function starts from the argument vector that helper produces.
- LightFieldToMve.DepthMapViewOf: takes `size[0] * size[1]` as an unbounded product. `Utilities::ImgSize` is not part of this model, so a 32-bit wrap of that product is not modelled.
- LightFieldToMve.Stoi: assumes a 32-bit `int` and the "C" locale's white space. Both exceptions are reported as `Failure` values; the model does not follow the program being terminated by an uncaught exception.
- LightFieldToMve.StartAsWritten: the two listings are parameters. What `findChildren` returns for the default-constructed paths left by a failed `getArguments` is I/O and is not modelled.

## Findings

| source | as written | input that shows it | evidently intended | confidence | as-written member | corrected member |
|---|---|---|---|---|---|---|
| Converters/DisneyResearchLightFieldToMVE/Main.cpp:58-61 | `main` discards the `bool` that `getArguments` returns and goes on to `findSourceData` | five arguments `35 2000 65 undist dmaps` while the listings hold `img_0.jpg` and `img_0.dmap` | stop when `getArguments` reports an invalid argument count, before using the unset paths and numbers | medium, not executed | ConverterProperties.StartAsWrittenIgnoresArgumentCount | LightFieldToMve.StartChecked |
