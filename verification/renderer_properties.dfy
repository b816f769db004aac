/** Properties of the renderer's view-state controller that relate several
    calls: cycle periods of the mode shifters and index wrap-arounds,
    involution of every toggle, and independence of the flag bits. */
module RendererProperties {
  import opened MachineWords
  import opened Renderer

  // ---------------------------------------------------------------------------
  // Repeated application of the cyclic operations

  function HighlightNextCameraTimes(s: ViewState, cameraCount: UInt32, k: nat): ViewState {
    if k == 0 then s else HighlightNextCamera(HighlightNextCameraTimes(s, cameraCount, k - 1), cameraCount)
  }

  function ShiftCameraRenderingTimes(s: ViewState, k: nat): ViewState {
    if k == 0 then s else ShiftCameraRendering(ShiftCameraRenderingTimes(s, k - 1))
  }

  function ShiftSampleRenderingTimes(s: ViewState, k: nat): ViewState {
    if k == 0 then s else ShiftSampleRendering(ShiftSampleRenderingTimes(s, k - 1))
  }

  function ShowNextReconstructionTimes(s: ViewState, typeCount: UInt32, k: nat): ViewState {
    if k == 0 then s else ShowNextReconstruction(ShowNextReconstructionTimes(s, typeCount, k - 1), typeCount)
  }

  // ---------------------------------------------------------------------------
  // Camera highlight

  /** After `k` calls the highlighted camera has advanced by `k` modulo the
      camera count, and nothing else has changed. */
  lemma {:induction false} HighlightNextCameraSteps(s: ViewState, cameraCount: UInt32, k: nat)
    requires s.highlightedCamera < cameraCount
    ensures HighlightNextCameraTimes(s, cameraCount, k) ==
      s.(highlightedCamera := (s.highlightedCamera + k) % cameraCount)
  {
    if k > 0 {
      HighlightNextCameraSteps(s, cameraCount, k - 1);
      var h := s.highlightedCamera;
      assert (h + (k - 1)) % cameraCount + 1 == cameraCount ==> (h + k) % cameraCount == 0 by {
        ModSucc(h + (k - 1), cameraCount);
      }
      assert (h + (k - 1)) % cameraCount + 1 < cameraCount ==> (h + k) % cameraCount == (h + (k - 1)) % cameraCount + 1 by {
        ModSucc(h + (k - 1), cameraCount);
      }
    }
  }

  /** Stepping through all cameras brings the highlight back to where it
      started: the last camera wraps to camera 0, and the highlight cycle
      has period `cameraCount`. */
  lemma HighlightNextCameraPeriod(s: ViewState, cameraCount: UInt32)
    requires s.highlightedCamera < cameraCount
    ensures s.highlightedCamera == cameraCount - 1 ==> HighlightNextCamera(s, cameraCount).highlightedCamera == 0
    ensures HighlightNextCameraTimes(s, cameraCount, cameraCount) == s
    ensures forall k: nat :: 0 < k < cameraCount ==> HighlightNextCameraTimes(s, cameraCount, k) != s
  {
    HighlightNextCameraSteps(s, cameraCount, cameraCount);
    ModOfDecomposition(s.highlightedCamera + cameraCount, cameraCount, 1, s.highlightedCamera);
    forall k: nat | 0 < k < cameraCount
      ensures HighlightNextCameraTimes(s, cameraCount, k) != s
    {
      HighlightNextCameraSteps(s, cameraCount, k);
      ModShiftDiffers(s.highlightedCamera, k, cameraCount);
    }
  }

  /** `a % n` is the remainder of any decomposition `a == q * n + r`. */
  lemma ModOfDecomposition(a: int, n: nat, q: int, r: int)
    requires 0 < n && 0 <= r < n && a == q * n + r
    ensures a % n == r
  {
    var q' := a / n;
    if q' < q {
      MulNonNegative(q - q' - 1, n);
    } else if q' > q {
      MulNonNegative(q' - q - 1, n);
    }
  }

  /** `(a + 1) % n` in terms of `a % n`. */
  lemma ModSucc(a: nat, n: nat)
    requires 0 < n
    ensures a % n + 1 < n ==> (a + 1) % n == a % n + 1
    ensures a % n + 1 == n ==> (a + 1) % n == 0
  {
    var q := a / n;
    if a % n + 1 < n {
      ModOfDecomposition(a + 1, n, q, a % n + 1);
    } else if a % n + 1 == n {
      ModOfDecomposition(a + 1, n, q + 1, 0);
    }
  }

  /** Advancing `h < n` by `0 < k < n` modulo `n` never lands on `h`. */
  lemma ModShiftDiffers(h: nat, k: nat, n: nat)
    requires h < n && 0 < k < n
    ensures (h + k) % n != h
  {
    if h + k < n {
      assert (h + k) % n == h + k;
    } else {
      assert (h + k) % n == h + k - n;
    }
  }

  // ---------------------------------------------------------------------------
  // Rendering-mode shifters

  /** After `k` shifts from a camera mode, the mode has advanced by `k`
      positions in the four-mode cycle and nothing else has changed. */
  lemma {:induction false} ShiftCameraRenderingSteps(s: ViewState, k: nat)
    requires IsCameraMode(s.cameraRendering)
    ensures IsCameraMode(ShiftCameraRenderingTimes(s, k).cameraRendering)
    ensures CameraOrdinal(ShiftCameraRenderingTimes(s, k).cameraRendering) ==
      (CameraOrdinal(s.cameraRendering) + k) % 4
    ensures ShiftCameraRenderingTimes(s, k).(cameraRendering := s.cameraRendering) == s
  {
    if k > 0 {
      ShiftCameraRenderingSteps(s, k - 1);
      ModSucc(CameraOrdinal(s.cameraRendering) + (k - 1), 4);
    }
  }

  /** Four camera-mode shifts are the identity and no fewer are. */
  lemma ShiftCameraRenderingPeriod(s: ViewState)
    requires IsCameraMode(s.cameraRendering)
    ensures ShiftCameraRenderingTimes(s, 4) == s
    ensures forall k: nat :: 0 < k < 4 ==> ShiftCameraRenderingTimes(s, k) != s
  {
    var s4 := ShiftCameraRenderingTimes(s, 4);
    ShiftCameraRenderingSteps(s, 4);
    assert CameraOrdinal(s4.cameraRendering) == CameraOrdinal(s.cameraRendering);
    assert s4.cameraRendering == CameraFromOrdinal(CameraOrdinal(s4.cameraRendering));
    assert s.cameraRendering == CameraFromOrdinal(CameraOrdinal(s.cameraRendering));
    forall k: nat | 0 < k < 4
      ensures ShiftCameraRenderingTimes(s, k) != s
    {
      ShiftCameraRenderingSteps(s, k);
      ModShiftDiffers(CameraOrdinal(s.cameraRendering), k, 4);
    }
  }

  /** After `k` shifts from a sample mode, the mode has advanced by `k`
      positions in the three-mode cycle and nothing else has changed. */
  lemma {:induction false} ShiftSampleRenderingSteps(s: ViewState, k: nat)
    requires IsSampleMode(s.sampleRendering)
    ensures IsSampleMode(ShiftSampleRenderingTimes(s, k).sampleRendering)
    ensures SampleOrdinal(ShiftSampleRenderingTimes(s, k).sampleRendering) ==
      (SampleOrdinal(s.sampleRendering) + k) % 3
    ensures ShiftSampleRenderingTimes(s, k).(sampleRendering := s.sampleRendering) == s
  {
    if k > 0 {
      ShiftSampleRenderingSteps(s, k - 1);
      ModSucc(SampleOrdinal(s.sampleRendering) + (k - 1), 3);
    }
  }

  /** Three sample-mode shifts are the identity and no fewer are. */
  lemma ShiftSampleRenderingPeriod(s: ViewState)
    requires IsSampleMode(s.sampleRendering)
    ensures ShiftSampleRenderingTimes(s, 3) == s
    ensures forall k: nat :: 0 < k < 3 ==> ShiftSampleRenderingTimes(s, k) != s
  {
    var s3 := ShiftSampleRenderingTimes(s, 3);
    ShiftSampleRenderingSteps(s, 3);
    assert SampleOrdinal(s3.sampleRendering) == SampleOrdinal(s.sampleRendering);
    assert s3.sampleRendering == SampleFromOrdinal(SampleOrdinal(s3.sampleRendering));
    assert s.sampleRendering == SampleFromOrdinal(SampleOrdinal(s.sampleRendering));
    forall k: nat | 0 < k < 3
      ensures ShiftSampleRenderingTimes(s, k) != s
    {
      ShiftSampleRenderingSteps(s, k);
      ModShiftDiffers(SampleOrdinal(s.sampleRendering), k, 3);
    }
  }

  // ---------------------------------------------------------------------------
  // Shown reconstruction

  /** After `k` calls the shown reconstruction has advanced by `k` modulo
      `typeCount + 1`: the indices `0 .. typeCount` form one cycle. */
  lemma {:induction false} ShowNextReconstructionSteps(s: ViewState, typeCount: UInt32, k: nat)
    requires s.shownReconstruction <= typeCount
    ensures ShowNextReconstructionTimes(s, typeCount, k) ==
      s.(shownReconstruction := (s.shownReconstruction + k) % (typeCount + 1))
  {
    if k > 0 {
      ShowNextReconstructionSteps(s, typeCount, k - 1);
      ModSucc(s.shownReconstruction + (k - 1), typeCount + 1);
    }
  }

  /** `typeCount + 1` calls bring the shown reconstruction back. */
  lemma ShowNextReconstructionPeriod(s: ViewState, typeCount: UInt32)
    requires s.shownReconstruction <= typeCount
    ensures ShowNextReconstructionTimes(s, typeCount, typeCount + 1) == s
    ensures forall k: nat :: 0 < k <= typeCount ==> ShowNextReconstructionTimes(s, typeCount, k) != s
  {
    ShowNextReconstructionSteps(s, typeCount, typeCount + 1);
    ModOfDecomposition(s.shownReconstruction + (typeCount + 1), typeCount + 1, 1, s.shownReconstruction);
    forall k: nat | 0 < k <= typeCount
      ensures ShowNextReconstructionTimes(s, typeCount, k) != s
    {
      ShowNextReconstructionSteps(s, typeCount, k);
      ModShiftDiffers(s.shownReconstruction, k, typeCount + 1);
    }
  }

  // ---------------------------------------------------------------------------
  // Next / previous element indices

  /** Stepping back and then forward over edges, or forward and then back,
      returns to the same state, as long as the sentinel is not involved. */
  lemma EdgeStepsAreInverse(s: ViewState, invalidEdge: UInt32)
    ensures s.shownEdge != invalidEdge ==>
      ShowNextEdgeNeighbors(ShowPreviousEdgeNeighbors(s, invalidEdge)) == s
    ensures ShowNextEdgeNeighbors(s).shownEdge != invalidEdge ==>
      ShowPreviousEdgeNeighbors(ShowNextEdgeNeighbors(s), invalidEdge) == s
  {
  }

  /** The same for triangles. */
  lemma TriangleStepsAreInverse(s: ViewState, invalidTriangle: UInt32)
    ensures s.shownTriangle != invalidTriangle ==>
      ShowNextTriangleNeighbors(ShowPreviousTriangleNeighbors(s, invalidTriangle)) == s
    ensures ShowNextTriangleNeighbors(s).shownTriangle != invalidTriangle ==>
      ShowPreviousTriangleNeighbors(ShowNextTriangleNeighbors(s), invalidTriangle) == s
  {
  }

  /** The same for the tree-intersection triangle, whose sentinel is `-1`:
      stepping forward from the sentinel reaches index 0, and stepping back
      from index 0 reaches the sentinel, where stepping back stops. */
  lemma TreeIntersectionTriangleSteps(s: ViewState)
    ensures s.interTriangle != NO_INTERSECTION_TRIANGLE ==>
      ShowNextTreeIntersectionTriangle(ShowPreviousTreeIntersectionTriangle(s)) == s
    ensures ShowNextTreeIntersectionTriangle(s).interTriangle != NO_INTERSECTION_TRIANGLE ==>
      ShowPreviousTreeIntersectionTriangle(ShowNextTreeIntersectionTriangle(s)) == s
    ensures s.interTriangle == NO_INTERSECTION_TRIANGLE ==>
      ShowNextTreeIntersectionTriangle(s).interTriangle == 0
    ensures s.interTriangle == 0 ==>
      ShowPreviousTreeIntersectionTriangle(s).interTriangle == NO_INTERSECTION_TRIANGLE
  {
  }

  // ---------------------------------------------------------------------------
  // Toggles

  /** Every boolean toggle undoes itself. */
  lemma BooleanTogglesAreInvolutions(s: ViewState)
    ensures ToggleBackfaceCulling(ToggleBackfaceCulling(s)) == s
    ensures ToggleGroundTruthVisibility(ToggleGroundTruthVisibility(s)) == s
    ensures ToggleMeshNormalsVisibility(ToggleMeshNormalsVisibility(s)) == s
  {
  }

  /** Every flag-word toggle undoes itself when given the same flags twice. */
  lemma FlagTogglesAreInvolutions(s: ViewState, flags: bv32, flag: OccupancyRenderingFlag)
    ensures ToggleCrustRendering(ToggleCrustRendering(s, flags), flags) == s
    ensures ToggleLeafResultsRendering(ToggleLeafResultsRendering(s, flags), flags) == s
    ensures ToggleMeshRefinerRendering(ToggleMeshRefinerRendering(s, flags), flags) == s
    ensures ToggleOccupancyRenderingFlags(ToggleOccupancyRenderingFlags(s, flag), flag) == s
    ensures ToggleTreeRendering(ToggleTreeRendering(s, flags), flags) == s
  {
    CrustToggleTwice(s, flags);
    LeafResultsToggleTwice(s, flags);
    MeshRefinerToggleTwice(s, flags);
    OccupancyToggleTwice(s, flag);
    TreeToggleTwice(s, flags);
  }

  lemma CrustToggleTwice(s: ViewState, flags: bv32)
    ensures ToggleCrustRendering(ToggleCrustRendering(s, flags), flags) == s
  {
    ToggleTwice(s.crustFlags, flags);
  }

  lemma LeafResultsToggleTwice(s: ViewState, flags: bv32)
    ensures ToggleLeafResultsRendering(ToggleLeafResultsRendering(s, flags), flags) == s
  {
    ToggleTwice(s.leafResultsFlags, flags);
  }

  lemma MeshRefinerToggleTwice(s: ViewState, flags: bv32)
    ensures ToggleMeshRefinerRendering(ToggleMeshRefinerRendering(s, flags), flags) == s
  {
    ToggleTwice(s.meshRefinerFlags, flags);
  }

  lemma OccupancyToggleTwice(s: ViewState, flag: OccupancyRenderingFlag)
    ensures ToggleOccupancyRenderingFlags(ToggleOccupancyRenderingFlags(s, flag), flag) == s
  {
    ToggleTwice(s.occupancyFlags, OccupancyMask(flag));
  }

  lemma TreeToggleTwice(s: ViewState, flags: bv32)
    ensures ToggleTreeRendering(ToggleTreeRendering(s, flags), flags) == s
  {
    ToggleTwice(s.treeFlags, flags);
  }

  /** The occupancy enumerators are pairwise disjoint bits. */
  lemma OccupancyMasksAreDisjoint(f: OccupancyRenderingFlag, g: OccupancyRenderingFlag)
    requires f != g
    ensures OccupancyMask(f) & OccupancyMask(g) == 0
  {
    match f
    case OccupancyEmptiness =>
    case OccupancyOccupancy =>
    case OccupancySampleness =>
    case OccupancyLogScale =>
  }

  /** The occupancy enumerators are four distinct single bits (bits 0, 1, 2
      and 31), so toggling one of them leaves the state of every other one
      untouched, and toggles of different enumerators commute. */
  lemma OccupancyFlagsAreIndependent(s: ViewState, f: OccupancyRenderingFlag, g: OccupancyRenderingFlag)
    ensures f != g ==>
      HasFlags(ToggleOccupancyRenderingFlags(s, f).occupancyFlags, OccupancyMask(g))
      == HasFlags(s.occupancyFlags, OccupancyMask(g))
    ensures ToggleOccupancyRenderingFlags(ToggleOccupancyRenderingFlags(s, f), g)
         == ToggleOccupancyRenderingFlags(ToggleOccupancyRenderingFlags(s, g), f)
  {
    if f != g {
      OccupancyMasksAreDisjoint(f, g);
      ToggleKeepsDisjointFlags(s.occupancyFlags, OccupancyMask(f), OccupancyMask(g));
    }
    ToggleCommutes(s.occupancyFlags, OccupancyMask(f), OccupancyMask(g));
  }

  /** The two leaf-result flags and the two scene-tree flags are distinct
      single bits: toggling one leaves the other's state alone. */
  lemma NamedFlagsAreIndependent(s: ViewState)
    ensures IsSingleBit(LEAF_RESULTS_RENDERING_EMPTY) && IsSingleBit(LEAF_RESULTS_RENDERING_NEAR_SURFACE)
    ensures IsSingleBit(SCENE_TREE_RENDERING_SHOW_LEAVES) && IsSingleBit(SCENE_TREE_RENDERING_SHOW_LEAF_NEIGHBORHOODS)
    ensures IsSingleBit(MESH_REFINER_PCS_MOVEMENTS)
    ensures HasFlags(ToggleLeafResultsRendering(s, LEAF_RESULTS_RENDERING_EMPTY).leafResultsFlags, LEAF_RESULTS_RENDERING_NEAR_SURFACE)
         == HasFlags(s.leafResultsFlags, LEAF_RESULTS_RENDERING_NEAR_SURFACE)
    ensures HasFlags(ToggleLeafResultsRendering(s, LEAF_RESULTS_RENDERING_NEAR_SURFACE).leafResultsFlags, LEAF_RESULTS_RENDERING_EMPTY)
         == HasFlags(s.leafResultsFlags, LEAF_RESULTS_RENDERING_EMPTY)
    ensures HasFlags(ToggleTreeRendering(s, SCENE_TREE_RENDERING_SHOW_LEAVES).treeFlags, SCENE_TREE_RENDERING_SHOW_LEAF_NEIGHBORHOODS)
         == HasFlags(s.treeFlags, SCENE_TREE_RENDERING_SHOW_LEAF_NEIGHBORHOODS)
    ensures HasFlags(ToggleTreeRendering(s, SCENE_TREE_RENDERING_SHOW_LEAF_NEIGHBORHOODS).treeFlags, SCENE_TREE_RENDERING_SHOW_LEAVES)
         == HasFlags(s.treeFlags, SCENE_TREE_RENDERING_SHOW_LEAVES)
  {
  }
}
