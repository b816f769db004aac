/** The view-state controller of the renderer: the small state machine of
    counters, rendering modes and bit-flag words that the keyboard-driven
    inline methods of `Renderer` update. Drawing is not part of this model. */
module Renderer {
  import opened MachineWords

  /** Ways to render cameras, in enumeration order; `CameraRenderingCount`
      is the enumeration's count sentinel, not a mode. */
  datatype CameraRendering =
    | CameraInvisible
    | CameraPoints
    | CameraArrows
    | CameraRayBundles
    | CameraRenderingCount

  function CameraOrdinal(m: CameraRendering): (n: nat)
    ensures n <= 4
  {
    match m
    case CameraInvisible => 0
    case CameraPoints => 1
    case CameraArrows => 2
    case CameraRayBundles => 3
    case CameraRenderingCount => 4
  }

  /** The enumerator whose value is `n` (the C++ cast `(CameraRendering) n`). */
  function CameraFromOrdinal(n: nat): (m: CameraRendering)
    requires n <= 4
    ensures CameraOrdinal(m) == n
  {
    if n == 0 then CameraInvisible
    else if n == 1 then CameraPoints
    else if n == 2 then CameraArrows
    else if n == 3 then CameraRayBundles
    else CameraRenderingCount
  }

  /** Ways to render samples, in enumeration order; `SampleRenderingInvalid`
      and `SampleRenderingCount` are sentinels, not modes. */
  datatype SampleRendering =
    | SampleInvisible
    | SamplePointsDataColor
    | SamplePointsNormalColor
    | SampleRenderingInvalid
    | SampleRenderingCount

  function SampleOrdinal(m: SampleRendering): (n: nat)
    ensures n <= 4
  {
    match m
    case SampleInvisible => 0
    case SamplePointsDataColor => 1
    case SamplePointsNormalColor => 2
    case SampleRenderingInvalid => 3
    case SampleRenderingCount => 4
  }

  /** The enumerator whose value is `n` (the C++ cast `(SampleRendering) n`). */
  function SampleFromOrdinal(n: nat): (m: SampleRendering)
    requires n <= 4
    ensures SampleOrdinal(m) == n
  {
    if n == 0 then SampleInvisible
    else if n == 1 then SamplePointsDataColor
    else if n == 2 then SamplePointsNormalColor
    else if n == 3 then SampleRenderingInvalid
    else SampleRenderingCount
  }

  predicate IsCameraMode(m: CameraRendering) {
    m != CameraRenderingCount
  }

  predicate IsSampleMode(m: SampleRendering) {
    m != SampleRenderingInvalid && m != SampleRenderingCount
  }

  // Flag enumerations that the toggle methods are called with.
  const LEAF_RESULTS_RENDERING_EMPTY: bv32 := 1 << 0
  const LEAF_RESULTS_RENDERING_NEAR_SURFACE: bv32 := 1 << 1
  const MESH_REFINER_PCS_MOVEMENTS: bv32 := 1 << 0
  const SCENE_TREE_RENDERING_SHOW_LEAVES: bv32 := 1 << 0
  const SCENE_TREE_RENDERING_SHOW_LEAF_NEIGHBORHOODS: bv32 := 1 << 1

  /** The occupancy rendering enumeration: each enumerator is one flag. */
  datatype OccupancyRenderingFlag =
    | OccupancyEmptiness
    | OccupancyOccupancy
    | OccupancySampleness
    | OccupancyLogScale

  /** The bit each occupancy enumerator stands for. */
  function OccupancyMask(f: OccupancyRenderingFlag): (mask: bv32)
    ensures IsSingleBit(mask)
  {
    match f
    case OccupancyEmptiness => 1 << 0
    case OccupancyOccupancy => 1 << 1
    case OccupancySampleness => 1 << 2
    case OccupancyLogScale => 1 << 31
  }

  /** The index of the triangle whose tree intersection is shown is compared
      with the literal `-1`, which converts to the largest `uint32`. */
  const NO_INTERSECTION_TRIANGLE: UInt32 := TWO_32 - 1

  /** The renderer fields that the inline methods read or write. */
  datatype ViewState = ViewState(
    highlightedCamera: UInt32,
    crustFlags: bv32,
    leafResultsFlags: bv32,
    meshRefinerFlags: bv32,
    occupancyFlags: bv32,
    treeFlags: bv32,
    shownDualCell: UInt32,
    shownEdge: UInt32,
    shownNodes: UInt32,
    shownReconstruction: UInt32,
    shownTriangle: UInt32,
    interTriangle: UInt32,
    cameraRendering: CameraRendering,
    sampleRendering: SampleRendering,
    backfaceCulling: bool,
    showGroundTruth: bool,
    showMeshNormals: bool)

  /** `highlightCamera`: select the highlighted camera directly. */
  function HighlightCamera(s: ViewState, cameraId: UInt32): (r: ViewState)
    ensures r.highlightedCamera == cameraId
    ensures r.(highlightedCamera := s.highlightedCamera) == s
  {
    s.(highlightedCamera := cameraId)
  }

  /** `highlightNextCamera`: move the highlight to the next camera, wrapping
      from the last camera (and from any out-of-range index) to camera 0. */
  function HighlightNextCamera(s: ViewState, cameraCount: UInt32): (r: ViewState)
    ensures r.highlightedCamera == (if s.highlightedCamera + 1 < cameraCount then s.highlightedCamera + 1 else 0)
    ensures 0 < cameraCount ==> r.highlightedCamera < cameraCount
    ensures r.(highlightedCamera := s.highlightedCamera) == s
  {
    var next := Inc32(s.highlightedCamera);
    s.(highlightedCamera := if next >= cameraCount then 0 else next)
  }

  /** The mode after `CameraInvisible -> CameraPoints -> CameraArrows ->
      CameraRayBundles -> CameraInvisible`. */
  function NextCameraRendering(m: CameraRendering): (r: CameraRendering)
    ensures IsCameraMode(r)
    ensures IsCameraMode(m) ==> CameraOrdinal(r) == (CameraOrdinal(m) + 1) % 4
    ensures !IsCameraMode(m) ==> r == CameraInvisible
  {
    var n := CameraOrdinal(m) + 1;
    if n >= CameraOrdinal(CameraRenderingCount) then CameraInvisible else CameraFromOrdinal(n)
  }

  /** `shiftCameraRendering`. */
  function ShiftCameraRendering(s: ViewState): (r: ViewState)
    ensures IsCameraMode(r.cameraRendering)
    ensures IsCameraMode(s.cameraRendering) ==>
      CameraOrdinal(r.cameraRendering) == (CameraOrdinal(s.cameraRendering) + 1) % 4
    ensures r.(cameraRendering := s.cameraRendering) == s
  {
    s.(cameraRendering := NextCameraRendering(s.cameraRendering))
  }

  /** The mode after `SampleInvisible -> SamplePointsDataColor ->
      SamplePointsNormalColor -> SampleInvisible`; the wrap is triggered by
      reaching `SampleRenderingInvalid`, so neither sentinel is produced. */
  function NextSampleRendering(m: SampleRendering): (r: SampleRendering)
    ensures IsSampleMode(r)
    ensures IsSampleMode(m) ==> SampleOrdinal(r) == (SampleOrdinal(m) + 1) % 3
    ensures !IsSampleMode(m) ==> r == SampleInvisible
  {
    var n := SampleOrdinal(m) + 1;
    if n >= SampleOrdinal(SampleRenderingInvalid) then SampleInvisible else SampleFromOrdinal(n)
  }

  /** `shiftSampleRendering`. */
  function ShiftSampleRendering(s: ViewState): (r: ViewState)
    ensures IsSampleMode(r.sampleRendering)
    ensures IsSampleMode(s.sampleRendering) ==>
      SampleOrdinal(r.sampleRendering) == (SampleOrdinal(s.sampleRendering) + 1) % 3
    ensures r.(sampleRendering := s.sampleRendering) == s
  {
    s.(sampleRendering := NextSampleRendering(s.sampleRendering))
  }

  /** `showDualCell`. */
  function ShowDualCell(s: ViewState, index: UInt32): (r: ViewState)
    ensures r.shownDualCell == index
    ensures r.(shownDualCell := s.shownDualCell) == s
  {
    s.(shownDualCell := index)
  }

  /** `showEdgeNeighbors`. */
  function ShowEdgeNeighbors(s: ViewState, edgeIdx: UInt32): (r: ViewState)
    ensures r.shownEdge == edgeIdx
    ensures r.(shownEdge := s.shownEdge) == s
  {
    s.(shownEdge := edgeIdx)
  }

  /** `showNextEdgeNeighbors`: the shown edge index goes up by one, modulo 2^32. */
  function ShowNextEdgeNeighbors(s: ViewState): (r: ViewState)
    ensures (r.shownEdge - s.shownEdge) % TWO_32 == 1
    ensures r.(shownEdge := s.shownEdge) == s
  {
    var edge := Inc32(s.shownEdge);
    ShowEdgeNeighbors(s.(shownEdge := edge), edge)
  }

  /** `showPreviousEdgeNeighbors`: nothing happens while the shown edge is
      the invalid-edge sentinel; otherwise the index goes down by one,
      modulo 2^32. */
  function ShowPreviousEdgeNeighbors(s: ViewState, invalidEdge: UInt32): (r: ViewState)
    ensures s.shownEdge == invalidEdge ==> r == s
    ensures s.shownEdge != invalidEdge ==> (s.shownEdge - r.shownEdge) % TWO_32 == 1
    ensures r.(shownEdge := s.shownEdge) == s
  {
    if invalidEdge == s.shownEdge then s
    else
      var edge := Dec32(s.shownEdge);
      ShowEdgeNeighbors(s.(shownEdge := edge), edge)
  }

  /** `showNextReconstruction`: cycle through the shown reconstruction
      indices `0 .. typeCount`; the reset to 0 happens only when the
      incremented index exceeds `typeCount`. */
  function ShowNextReconstruction(s: ViewState, typeCount: UInt32): (r: ViewState)
    ensures r.shownReconstruction ==
      (if s.shownReconstruction + 1 <= typeCount then s.shownReconstruction + 1 else 0)
    ensures s.shownReconstruction <= typeCount ==> r.shownReconstruction <= typeCount
    ensures r.(shownReconstruction := s.shownReconstruction) == s
  {
    var next := Inc32(s.shownReconstruction);
    s.(shownReconstruction := if next > typeCount then 0 else next)
  }

  /** The index part of `showNextTreeIntersectionTriangle`: the index goes
      up by one, modulo 2^32. */
  function ShowNextTreeIntersectionTriangle(s: ViewState): (r: ViewState)
    ensures (r.interTriangle - s.interTriangle) % TWO_32 == 1
    ensures r.(interTriangle := s.interTriangle) == s
  {
    s.(interTriangle := Inc32(s.interTriangle))
  }

  /** The index part of `showPreviousTreeIntersectionTriangle`: nothing
      happens at the `-1` sentinel; otherwise the index goes down by one,
      modulo 2^32 (so index 0 steps back onto the sentinel). */
  function ShowPreviousTreeIntersectionTriangle(s: ViewState): (r: ViewState)
    ensures s.interTriangle == NO_INTERSECTION_TRIANGLE ==> r == s
    ensures s.interTriangle != NO_INTERSECTION_TRIANGLE ==> (s.interTriangle - r.interTriangle) % TWO_32 == 1
    ensures r.(interTriangle := s.interTriangle) == s
  {
    if s.interTriangle == NO_INTERSECTION_TRIANGLE then s
    else s.(interTriangle := Dec32(s.interTriangle))
  }

  /** `showTriangleNeighbors`. */
  function ShowTriangleNeighbors(s: ViewState, centerTriangleIdx: UInt32): (r: ViewState)
    ensures r.shownTriangle == centerTriangleIdx
    ensures r.(shownTriangle := s.shownTriangle) == s
  {
    s.(shownTriangle := centerTriangleIdx)
  }

  /** `showNextTriangleNeighbors`: the shown triangle index goes up by one,
      modulo 2^32. */
  function ShowNextTriangleNeighbors(s: ViewState): (r: ViewState)
    ensures (r.shownTriangle - s.shownTriangle) % TWO_32 == 1
    ensures r.(shownTriangle := s.shownTriangle) == s
  {
    var triangle := Inc32(s.shownTriangle);
    ShowTriangleNeighbors(s.(shownTriangle := triangle), triangle)
  }

  /** `showPreviousTriangleNeighbors`: nothing happens while the shown
      triangle is the invalid-triangle sentinel; otherwise the index goes
      down by one, modulo 2^32. */
  function ShowPreviousTriangleNeighbors(s: ViewState, invalidTriangle: UInt32): (r: ViewState)
    ensures s.shownTriangle == invalidTriangle ==> r == s
    ensures s.shownTriangle != invalidTriangle ==> (s.shownTriangle - r.shownTriangle) % TWO_32 == 1
    ensures r.(shownTriangle := s.shownTriangle) == s
  {
    if invalidTriangle == s.shownTriangle then s
    else
      var triangle := Dec32(s.shownTriangle);
      ShowTriangleNeighbors(s.(shownTriangle := triangle), triangle)
  }

  /** `showNodes`. */
  function ShowNodes(s: ViewState, nodeIdx: UInt32): (r: ViewState)
    ensures r.shownNodes == nodeIdx
    ensures r.(shownNodes := s.shownNodes) == s
  {
    s.(shownNodes := nodeIdx)
  }

  /** `toggleBackfaceCulling`. */
  function ToggleBackfaceCulling(s: ViewState): (r: ViewState)
    ensures r.backfaceCulling != s.backfaceCulling
    ensures r.(backfaceCulling := s.backfaceCulling) == s
  {
    s.(backfaceCulling := !s.backfaceCulling)
  }

  /** `toggleGroundTruthVisibility`. */
  function ToggleGroundTruthVisibility(s: ViewState): (r: ViewState)
    ensures r.showGroundTruth != s.showGroundTruth
    ensures r.(showGroundTruth := s.showGroundTruth) == s
  {
    s.(showGroundTruth := !s.showGroundTruth)
  }

  /** `toggleMeshNormalsVisibility`. */
  function ToggleMeshNormalsVisibility(s: ViewState): (r: ViewState)
    ensures r.showMeshNormals != s.showMeshNormals
    ensures r.(showMeshNormals := s.showMeshNormals) == s
  {
    s.(showMeshNormals := !s.showMeshNormals)
  }

  /** `toggleCrustRendering`: the bits of `flags` are inverted, all other
      crust bits are kept. */
  function ToggleCrustRendering(s: ViewState, flags: bv32): (r: ViewState)
    ensures r.crustFlags & !flags == s.crustFlags & !flags
    ensures r.crustFlags & flags == !s.crustFlags & flags
    ensures r.(crustFlags := s.crustFlags) == s
  {
    s.(crustFlags := Toggle(s.crustFlags, flags))
  }

  /** `toggleLeafResultsRendering`. */
  function ToggleLeafResultsRendering(s: ViewState, flags: bv32): (r: ViewState)
    ensures r.leafResultsFlags & !flags == s.leafResultsFlags & !flags
    ensures r.leafResultsFlags & flags == !s.leafResultsFlags & flags
    ensures r.(leafResultsFlags := s.leafResultsFlags) == s
  {
    s.(leafResultsFlags := Toggle(s.leafResultsFlags, flags))
  }

  /** `toggleMeshRefinerRendering`. */
  function ToggleMeshRefinerRendering(s: ViewState, flags: bv32): (r: ViewState)
    ensures r.meshRefinerFlags & !flags == s.meshRefinerFlags & !flags
    ensures r.meshRefinerFlags & flags == !s.meshRefinerFlags & flags
    ensures r.(meshRefinerFlags := s.meshRefinerFlags) == s
  {
    s.(meshRefinerFlags := Toggle(s.meshRefinerFlags, flags))
  }

  /** `toggleOccupancyRenderingFlags`, called with one enumerator. */
  function ToggleOccupancyRenderingFlags(s: ViewState, flag: OccupancyRenderingFlag): (r: ViewState)
    ensures r.occupancyFlags & !OccupancyMask(flag) == s.occupancyFlags & !OccupancyMask(flag)
    ensures HasFlags(r.occupancyFlags, OccupancyMask(flag)) != HasFlags(s.occupancyFlags, OccupancyMask(flag))
    ensures r.(occupancyFlags := s.occupancyFlags) == s
  {
    ToggleFrame(s.occupancyFlags, OccupancyMask(flag));
    OccupancyToggleFlips(s.occupancyFlags, flag);
    s.(occupancyFlags := Toggle(s.occupancyFlags, OccupancyMask(flag)))
  }

  /** Toggling an enumerator's bit flips whether that enumerator is set. */
  lemma OccupancyToggleFlips(word: bv32, flag: OccupancyRenderingFlag)
    ensures HasFlags(Toggle(word, OccupancyMask(flag)), OccupancyMask(flag)) != HasFlags(word, OccupancyMask(flag))
  {
    match flag
    case OccupancyEmptiness =>
    case OccupancyOccupancy =>
    case OccupancySampleness =>
    case OccupancyLogScale =>
  }

  /** `toggleTreeRendering`. */
  function ToggleTreeRendering(s: ViewState, sceneTreeRenderingFlags: bv32): (r: ViewState)
    ensures r.treeFlags & !sceneTreeRenderingFlags == s.treeFlags & !sceneTreeRenderingFlags
    ensures r.treeFlags & sceneTreeRenderingFlags == !s.treeFlags & sceneTreeRenderingFlags
    ensures r.(treeFlags := s.treeFlags) == s
  {
    s.(treeFlags := Toggle(s.treeFlags, sceneTreeRenderingFlags))
  }
}
