/**
 * idRenderSystemLocal in the Vulkan build: the two initialisation flags, the
 * lifecycle (Init, Shutdown, Clear, InitOpenGL, VidRestart), the end-of-frame
 * hand-over of the command chain (SwapCommandBuffers), the render-crop stack,
 * and the screen sizes.
 *
 * `rInitialized` is the file-static r_initialized that R_IsInitialized reads
 * (set by InitOpenGL); `mInitialized` is the member m_bInitialized (set by
 * Init).  Heap objects the system allocates (the gui model, the three
 * triangle sets, the front-end job list) are handles, 0 standing for NULL.
 */
module RenderSystem {
  import opened Wrappers
  import opened FrameData
  import opened ImageVk
  import opened RenderBackendVk
  import opened VideoModes

  /** Entries of renderCrops (MAX_RENDER_CROPS, from the renderer's private header). */
  const MAX_RENDER_CROPS: nat := 8

  /** The virtual screen of the 2D interface (SCREEN_WIDTH x SCREEN_HEIGHT). */
  const SCREEN_WIDTH: int := 640
  const SCREEN_HEIGHT: int := 480

  /** An idScreenRect: inclusive pixel bounds. */
  datatype ScreenRect = ScreenRect(x1: int, y1: int, x2: int, y2: int)

  function RectWidth(r: ScreenRect): int { r.x2 - r.x1 + 1 }
  function RectHeight(r: ScreenRect): int { r.y2 - r.y1 + 1 }

  /** GetWidth and GetHeight of the Vulkan build: a fixed 1280 x 720 surface. */
  function GetWidth(): (w: int)
    ensures w == 1280
  {
    1280
  }

  function GetHeight(): (h: int)
    ensures h == 720
  {
    720
  }

  /** The whole screen, as FinishCommandBuffers resets crop 0 to. */
  function FullScreenRect(): (r: ScreenRect)
    ensures r.x1 == 0 && r.y1 == 0
    ensures RectWidth(r) == GetWidth() && RectHeight(r) == GetHeight()
  {
    ScreenRect(0, 0, GetWidth() - 1, GetHeight() - 1)
  }

  /** GetVirtualWidth: SCREEN_WIDTH with r_useVirtualScreenResolution, else GetWidth. */
  function GetVirtualWidth(useVirtualScreenResolution: bool): (w: int)
    ensures useVirtualScreenResolution ==> w == SCREEN_WIDTH
    ensures !useVirtualScreenResolution ==> w == GetWidth()
  {
    if useVirtualScreenResolution then SCREEN_WIDTH else GetWidth()
  }

  function GetVirtualHeight(useVirtualScreenResolution: bool): (h: int)
    ensures useVirtualScreenResolution ==> h == SCREEN_HEIGHT
    ensures !useVirtualScreenResolution ==> h == GetHeight()
  {
    if useVirtualScreenResolution then SCREEN_HEIGHT else GetHeight()
  }

  /** The virtual screen always fits on the Vulkan surface, with the same 4:3-or-wider shape bound. */
  lemma VirtualScreenFits(useVirtualScreenResolution: bool)
    ensures 0 < GetVirtualWidth(useVirtualScreenResolution) <= GetWidth()
    ensures 0 < GetVirtualHeight(useVirtualScreenResolution) <= GetHeight()
  {
  }

  /** The crop CropRenderSize pushes on top of `previous`. */
  function CropOf(previous: ScreenRect, width: int, height: int): (r: ScreenRect)
    ensures RectWidth(r) == width && RectHeight(r) == height
    ensures r.x1 == previous.x1 && r.y2 == previous.y2
  {
    ScreenRect(previous.x1, previous.y2 - height + 1, previous.x1 + width - 1, previous.y2)
  }

  /** A crop no larger than the crop below it stays inside it. */
  lemma CropStaysInside(previous: ScreenRect, width: int, height: int)
    requires 1 <= width <= RectWidth(previous) && 1 <= height <= RectHeight(previous)
    ensures var r := CropOf(previous, width, height);
            previous.x1 <= r.x1 <= r.x2 <= previous.x2 && previous.y1 <= r.y1 <= r.y2 <= previous.y2
  {
  }

  function Keep(h: nat): seq<nat> { if h != 0 then [h] else [] }

  /** The non-NULL handles of `handles`, in order: the ones Clear frees. */
  function NonNull(handles: seq<nat>): (r: seq<nat>)
    ensures forall h :: h in r <==> h in handles && h != 0
    ensures |r| <= |handles|
  {
    if handles == [] then []
    else Keep(handles[0]) + NonNull(handles[1..])
  }


  lemma NonNullOfThree(a: nat, b: nat, c: nat)
    ensures NonNull([a, b, c]) == Keep(a) + Keep(b) + Keep(c)
  {
    assert [c][1..] == [];
    assert NonNull([c]) == Keep(c) + NonNull([]);
    assert [b, c][1..] == [c];
    assert NonNull([b, c]) == Keep(b) + Keep(c);
    assert [a, b, c][1..] == [b, c];
    assert Keep(a) + (Keep(b) + Keep(c)) == Keep(a) + Keep(b) + Keep(c);
  }

  datatype CropOutcome =
    | NotInitialized    // R_IsInitialized() is false: nothing happens
    | BadSize           // common->Error
    | Done

  datatype InitOutcome = AlreadyInitialized | Initialized

  datatype OpenOutcome =
    | AlreadyActive                  // FatalError "R_InitOpenGL called while active"
    | ModeFailed                     // R_SetNewMode's fatal error on its third attempt
    | Opened(outcome: ModeOutcome)

  class RenderSystemLocal {
    var rInitialized: bool
    var mInitialized: bool
    var frameCount: int
    var viewCount: int
    var currentRenderCrop: nat
    const renderCrops: array<ScreenRect>
    var currentColorNativeBytesOrder: nat
    var currentGLState: nat
    var guiRecursionLevel: int
    var guiModel: nat
    var takingScreenshot: bool
    var unitSquareTriangles: nat
    var zeroOneCubeTriangles: nat
    var testImageTriangles: nat
    var frontEndJobList: nat
    const frames: FrameDataRing
    const backend: Backend

    ghost predicate Valid()
      reads this, renderCrops, frames, backend, backend.commandBufferRecorded, backend.fenceSignalled,
            backend.queryIndex, backend.garbage
    {
      && renderCrops.Length == MAX_RENDER_CROPS
      && currentRenderCrop < MAX_RENDER_CROPS
      && frames.Valid()
      && backend.Valid()
    }

    /** The state Clear leaves: every counter and owned handle at its initial value, no crops. */
    ghost predicate Cleared()
      reads this, renderCrops
    {
      && frameCount == 0 && viewCount == 0 && currentRenderCrop == 0
      && currentColorNativeBytesOrder == 0xFFFF_FFFF && currentGLState == 0
      && guiRecursionLevel == 0 && guiModel == 0 && !takingScreenshot && frontEndJobList == 0
      && unitSquareTriangles == 0 && zeroOneCubeTriangles == 0 && testImageTriangles == 0
      && (forall k :: 0 <= k < renderCrops.Length ==> renderCrops[k] == ScreenRect(0, 0, 0, 0))
    }

    /** The constructor: all flags false, then Clear. */
    constructor (ring: FrameDataRing, be: Backend)
      requires ring.Valid() && be.Valid()
      ensures Valid() && !rInitialized && !mInitialized
      ensures frames == ring && backend == be
      ensures Cleared()
    {
      rInitialized := false;
      mInitialized := false;
      frames := ring;
      backend := be;
      renderCrops := new ScreenRect[MAX_RENDER_CROPS](_ => ScreenRect(0, 0, 0, 0));
      frameCount := 0;
      viewCount := 0;
      currentRenderCrop := 0;
      currentColorNativeBytesOrder := 0xFFFF_FFFF;
      currentGLState := 0;
      guiRecursionLevel := 0;
      guiModel := 0;
      takingScreenshot := false;
      unitSquareTriangles := 0;
      zeroOneCubeTriangles := 0;
      testImageTriangles := 0;
      frontEndJobList := 0;
    }

    /**
     * Clear: counters and crop state back to their initial values, the gui
     * model and job list dropped, and each non-NULL triangle set freed; the
     * freed handles are returned in the order they are freed.
     */
    method Clear() returns (freed: seq<nat>)
      requires Valid()
      modifies this`frameCount, this`viewCount, this`currentRenderCrop, this`currentColorNativeBytesOrder,
               this`currentGLState, this`guiRecursionLevel, this`guiModel, this`takingScreenshot,
               this`unitSquareTriangles, this`zeroOneCubeTriangles, this`testImageTriangles,
               this`frontEndJobList, renderCrops
      ensures Valid() && Cleared()
      ensures freed == NonNull([old(unitSquareTriangles), old(zeroOneCubeTriangles), old(testImageTriangles)])
    {
      ResetCrops();
      freed := FreeTriangles();
      ResetCounters();
    }

    /** Clear's reset of the counters, the render state and the owned handles. */
    method ResetCounters()
      modifies this`frameCount, this`viewCount, this`currentRenderCrop, this`currentColorNativeBytesOrder,
               this`currentGLState, this`guiRecursionLevel, this`guiModel, this`takingScreenshot,
               this`frontEndJobList
      ensures frameCount == 0 && viewCount == 0 && currentRenderCrop == 0
      ensures currentColorNativeBytesOrder == 0xFFFF_FFFF && currentGLState == 0
      ensures guiRecursionLevel == 0 && guiModel == 0 && !takingScreenshot && frontEndJobList == 0
    {
      frameCount, viewCount, currentRenderCrop := 0, 0, 0;
      currentColorNativeBytesOrder, currentGLState, guiRecursionLevel := 0xFFFF_FFFF, 0, 0;
      guiModel, takingScreenshot, frontEndJobList := 0, false, 0;
    }

    /** Clear's release of the three triangle sets: each non-NULL one is freed and set to NULL. */
    method FreeTriangles() returns (freed: seq<nat>)
      modifies this`unitSquareTriangles, this`zeroOneCubeTriangles, this`testImageTriangles
      ensures unitSquareTriangles == 0 && zeroOneCubeTriangles == 0 && testImageTriangles == 0
      ensures freed == NonNull([old(unitSquareTriangles), old(zeroOneCubeTriangles), old(testImageTriangles)])
    {
      var square, cube, test := unitSquareTriangles, zeroOneCubeTriangles, testImageTriangles;
      NonNullOfThree(square, cube, test);
      freed := [];
      if square != 0 {
        freed := freed + [square];
      }
      assert freed == Keep(square);
      if cube != 0 {
        freed := freed + [cube];
      }
      assert freed == Keep(square) + Keep(cube);
      if test != 0 {
        freed := freed + [test];
      }
      unitSquareTriangles, zeroOneCubeTriangles, testImageTriangles := 0, 0, 0;
    }

    /** The memset of renderCrops in Clear. */
    method ResetCrops()
      requires renderCrops.Length == MAX_RENDER_CROPS
      modifies renderCrops
      ensures forall k :: 0 <= k < MAX_RENDER_CROPS ==> renderCrops[k] == ScreenRect(0, 0, 0, 0)
    {
      forall k | 0 <= k < renderCrops.Length {
        renderCrops[k] := ScreenRect(0, 0, 0, 0);
      }
    }

    /**
     * SwapCommandBuffers_FinishRendering: when R_IsInitialized, waits for
     * the previous frame's fence and presents it.
     */
    method FinishRendering() returns (presented: bool)
      requires Valid()
      requires backend.commandBufferRecorded[backend.currentFrameData] ==> backend.fenceSignalled[backend.currentFrameData]
      modifies backend, backend.commandBufferRecorded, backend.fenceSignalled
      ensures Valid()
      ensures presented <==> rInitialized && old(backend.commandBufferRecorded[backend.currentFrameData])
      ensures backend.counter == old(backend.counter) + (if presented then 1 else 0)
    {
      presented := false;
      if !rInitialized {
        return;
      }
      presented := backend.BlockingSwapBuffers();
    }

    /**
     * SwapCommandBuffers_FinishCommandBuffers: when R_IsInitialized, hands
     * back the chain built this frame, starts a fresh chain in the other
     * slot, resets the crop stack to the full screen, counts the frame and
     * clears the gui recursion level.
     */
    method FinishCommandBuffers() returns (head: Option<seq<Command>>)
      requires Valid()
      modifies frames, renderCrops, this`currentRenderCrop, this`frameCount, this`guiRecursionLevel
      ensures Valid()
      ensures !rInitialized ==> head.None? && frameCount == old(frameCount)
      ensures !rInitialized ==> frames.slots == old(frames.slots) && frames.smpFrame == old(frames.smpFrame)
      ensures rInitialized ==> head == Some(old(frames.CmdHead()))
      ensures rInitialized ==> frames.CmdHead() == [HEAD_NOP] && frames.smpFrame == old(frames.smpFrame) + 1
      ensures rInitialized ==>
        && frameCount == old(frameCount) + 1
        && currentRenderCrop == 0 && renderCrops[0] == FullScreenRect()
        && guiRecursionLevel == 0
    {
      if !rInitialized {
        return None;
      }
      var commandBufferHead := frames.CmdHead();
      frames.ToggleSmpFrame();
      renderCrops[0] := FullScreenRect();
      currentRenderCrop := 0;
      frameCount := frameCount + 1;
      guiRecursionLevel := 0;
      head := Some(commandBufferHead);
    }

    /** SwapCommandBuffers: FinishRendering, then FinishCommandBuffers. */
    method SwapCommandBuffers() returns (head: Option<seq<Command>>)
      requires Valid()
      requires backend.commandBufferRecorded[backend.currentFrameData] ==> backend.fenceSignalled[backend.currentFrameData]
      modifies backend, backend.commandBufferRecorded, backend.fenceSignalled
      modifies frames, renderCrops, this`currentRenderCrop, this`frameCount, this`guiRecursionLevel
      ensures Valid()
      ensures head.Some? <==> rInitialized
      ensures rInitialized ==> head == Some(old(frames.CmdHead())) && frameCount == old(frameCount) + 1
      ensures rInitialized ==> frames.CmdHead() == [HEAD_NOP]
      ensures !rInitialized ==> frameCount == old(frameCount) && backend.counter == old(backend.counter)
      ensures !rInitialized ==> frames.slots == old(frames.slots) && frames.smpFrame == old(frames.smpFrame)
    {
      var presented := FinishRendering();
      head := FinishCommandBuffers();
    }

    /**
     * RenderCommandBuffers: the back end runs the chain when it holds a
     * view and r_skipBackEnd is off, and is not touched otherwise.
     */
    method RenderCommandBuffers(cmdHead: seq<Command>, skipBackEnd: bool)
      returns (actions: Option<seq<BackendAction>>)
      requires Valid()
      modifies backend.queryIndex, backend.commandBufferRecorded, backend.fenceSignalled, backend.garbage,
        backend`glStateBits
      ensures Valid()
      ensures actions.Some? <==> HasView(cmdHead) && !skipBackEnd
      ensures actions.None? ==> backend.glStateBits == old(backend.glStateBits)
      ensures actions == Some([]) ==> backend.glStateBits == DefaultState(backend.mirrorBit, backend.viewIsMirror)
      ensures actions.Some? ==> actions.value == Actions(cmdHead[..FirstUnknown(cmdHead)])
      ensures actions.None? ==> backend.commandBufferRecorded[..] == old(backend.commandBufferRecorded[..])
    {
      var executed := FrameData.RenderCommandBuffers(cmdHead, skipBackEnd);
      if executed.None? {
        return None;
      }
      var done, outcome := backend.ExecuteBackEndCommands(executed.value);
      actions := Some(done);
    }

    /**
     * CropRenderSize: when R_IsInitialized, pushes a width x height crop
     * sharing the x1 and y2 edges of the current one.  Sizes below 1 are an
     * error.  The source does not check the stack depth, so callers must not
     * nest more than MAX_RENDER_CROPS - 1 crops.
     */
    method CropRenderSize(width: int, height: int) returns (outcome: CropOutcome)
      requires Valid()
      requires rInitialized && width >= 1 && height >= 1 ==> currentRenderCrop + 1 < MAX_RENDER_CROPS
      modifies this`currentRenderCrop, renderCrops
      ensures Valid()
      ensures outcome == NotInitialized <==> !rInitialized
      ensures outcome == BadSize <==> rInitialized && (width < 1 || height < 1)
      ensures outcome != Done ==> currentRenderCrop == old(currentRenderCrop) && renderCrops[..] == old(renderCrops[..])
      ensures outcome == Done ==>
        && currentRenderCrop == old(currentRenderCrop) + 1
        && renderCrops[currentRenderCrop] == CropOf(old(renderCrops[currentRenderCrop]), width, height)
        && forall k :: 0 <= k < MAX_RENDER_CROPS && k != currentRenderCrop ==> renderCrops[k] == old(renderCrops[k])
    {
      if !rInitialized {
        return NotInitialized;
      }
      if width < 1 || height < 1 {
        return BadSize;
      }
      var previous := renderCrops[currentRenderCrop];
      currentRenderCrop := currentRenderCrop + 1;
      renderCrops[currentRenderCrop] := CropOf(previous, width, height);
      outcome := Done;
    }

    /** UnCrop: when R_IsInitialized, pops one crop; popping the full-screen crop is an error. */
    method UnCrop() returns (outcome: CropOutcome)
      requires Valid()
      modifies this`currentRenderCrop
      ensures Valid()
      ensures outcome == NotInitialized <==> !rInitialized
      ensures outcome == BadSize <==> rInitialized && old(currentRenderCrop) < 1
      ensures outcome != Done ==> currentRenderCrop == old(currentRenderCrop)
      ensures outcome == Done ==> currentRenderCrop + 1 == old(currentRenderCrop)
    {
      if !rInitialized {
        return NotInitialized;
      }
      if currentRenderCrop < 1 {
        return BadSize;
      }
      currentRenderCrop := currentRenderCrop - 1;
      outcome := Done;
    }

    /**
     * Init: a second call only warns.  Otherwise it sets up the frame data,
     * sets viewCount to 1, creates the gui model, makes the missing triangle
     * sets and the job list, sets m_bInitialized, and then primes the
     * command chains with SwapCommandBuffers.  The new objects' handles are
     * the parameters.
     */
    method Init(newGuiModel: nat, newTriangles: (nat, nat, nat), newJobList: nat) returns (outcome: InitOutcome)
      requires Valid()
      requires newGuiModel != 0 && newTriangles.0 != 0 && newTriangles.1 != 0 && newTriangles.2 != 0
      requires backend.commandBufferRecorded[backend.currentFrameData] ==> backend.fenceSignalled[backend.currentFrameData]
      modifies this`viewCount, this`guiModel, this`unitSquareTriangles, this`zeroOneCubeTriangles,
               this`testImageTriangles, this`frontEndJobList, this`mInitialized
      modifies this`currentRenderCrop, this`frameCount, this`guiRecursionLevel
      modifies backend, backend.commandBufferRecorded, backend.fenceSignalled, frames, renderCrops
      ensures Valid()
      ensures outcome == AlreadyInitialized <==> old(mInitialized)
      ensures old(mInitialized) ==>
        && frameCount == old(frameCount) && viewCount == old(viewCount) && guiModel == old(guiModel)
        && frames.slots == old(frames.slots) && frames.smpFrame == old(frames.smpFrame)
        && unitSquareTriangles == old(unitSquareTriangles) && zeroOneCubeTriangles == old(zeroOneCubeTriangles)
        && testImageTriangles == old(testImageTriangles)
      ensures !old(mInitialized) ==>
        && mInitialized && viewCount == 1 && guiModel == newGuiModel && frontEndJobList == newJobList
        && unitSquareTriangles != 0 && zeroOneCubeTriangles != 0 && testImageTriangles != 0
        && (old(unitSquareTriangles) != 0 ==> unitSquareTriangles == old(unitSquareTriangles))
        && (old(zeroOneCubeTriangles) != 0 ==> zeroOneCubeTriangles == old(zeroOneCubeTriangles))
        && (old(testImageTriangles) != 0 ==> testImageTriangles == old(testImageTriangles))
        && frames.CmdHead() == [HEAD_NOP]
        && frameCount == old(frameCount) + (if rInitialized then 1 else 0)
    {
      if mInitialized {
        return AlreadyInitialized;
      }
      frames.InitFrameData();
      CreateObjects(newGuiModel, newTriangles, newJobList);
      var head := SwapCommandBuffers();
      outcome := Initialized;
    }

    /**
     * The part of Init between R_InitFrameData and the priming swap: one
     * view, a new gui model, the triangle sets that do not exist yet, the
     * job list, and m_bInitialized set.
     */
    method CreateObjects(newGuiModel: nat, newTriangles: (nat, nat, nat), newJobList: nat)
      requires newTriangles.0 != 0 && newTriangles.1 != 0 && newTriangles.2 != 0
      modifies this`viewCount, this`guiModel, this`unitSquareTriangles, this`zeroOneCubeTriangles,
               this`testImageTriangles, this`frontEndJobList, this`mInitialized
      ensures mInitialized && viewCount == 1 && guiModel == newGuiModel && frontEndJobList == newJobList
      ensures unitSquareTriangles == (if old(unitSquareTriangles) != 0 then old(unitSquareTriangles) else newTriangles.0)
      ensures zeroOneCubeTriangles == (if old(zeroOneCubeTriangles) != 0 then old(zeroOneCubeTriangles) else newTriangles.1)
      ensures testImageTriangles == (if old(testImageTriangles) != 0 then old(testImageTriangles) else newTriangles.2)
    {
      viewCount := 1;
      guiModel := newGuiModel;
      if unitSquareTriangles == 0 {
        unitSquareTriangles := newTriangles.0;
      }
      if zeroOneCubeTriangles == 0 {
        zeroOneCubeTriangles := newTriangles.1;
      }
      if testImageTriangles == 0 {
        testImageTriangles := newTriangles.2;
      }
      frontEndJobList := newJobList;
      mInitialized := true;
    }

    /**
     * Shutdown: drops the gui model and job list, runs Clear and always ends
     * with m_bInitialized false.  Image purging, model and cinematic
     * shutdown and the back end's teardown are foreign.
     */
    method Shutdown() returns (freed: seq<nat>)
      requires Valid()
      modifies this`frameCount, this`viewCount, this`currentRenderCrop, this`currentColorNativeBytesOrder,
               this`currentGLState, this`guiRecursionLevel, this`guiModel, this`takingScreenshot,
               this`unitSquareTriangles, this`zeroOneCubeTriangles, this`testImageTriangles,
               this`frontEndJobList, this`mInitialized, renderCrops
      ensures Valid()
      ensures !mInitialized && Cleared()
      ensures freed == NonNull([old(unitSquareTriangles), old(zeroOneCubeTriangles), old(testImageTriangles)])
      ensures rInitialized == old(rInitialized)
    {
      guiModel := 0;
      freed := Clear();
      mInitialized := false;
    }

    /**
     * InitOpenGL: a fatal error while R_IsInitialized; otherwise it sets the
     * video mode with R_SetNewMode(true) and, unless that fails fatally,
     * marks the renderer initialized.
     */
    method InitOpenGL(cv0: VideoCVars, query: int -> ModeList, accept: (nat, ModeParms) -> bool)
      returns (outcome: OpenOutcome, cv: VideoCVars)
      requires Valid()
      modifies this`rInitialized
      ensures Valid()
      ensures outcome == AlreadyActive <==> old(rInitialized)
      ensures rInitialized <==> old(rInitialized) || outcome.Opened?
      ensures outcome.Opened? ==> outcome.outcome != UnableToInitialize
    {
      cv := cv0;
      if rInitialized {
        return AlreadyActive, cv;
      }
      var attempts, mode;
      cv, attempts, mode := SetNewMode(GLimpSetNewMode(true), cv0, query, accept);
      if mode == UnableToInitialize {
        return ModeFailed, cv;
      }
      rInitialized := true;
      outcome := Opened(mode);
    }

    /** ShutdownOpenGL: the renderer is no longer initialized. */
    method ShutdownOpenGL()
      modifies this`rInitialized
      ensures !rInitialized
    {
      rInitialized := false;
    }

    /** VidRestart: only when initialized, sets the mode again through the Vulkan SetNewMode. */
    method VidRestart(cv0: VideoCVars, query: int -> ModeList) returns (outcome: Option<ModeOutcome>, cv: VideoCVars)
      requires Valid()
      ensures outcome.None? <==> !mInitialized
      ensures outcome.None? ==> cv == cv0
      ensures outcome.Some? ==> outcome.value != UnableToInitialize
      ensures outcome.Some? && RequestParms(cv0, query).Request? ==> outcome.value.ModeSet?
    {
      cv := cv0;
      if !mInitialized {
        return None, cv;
      }
      var attempts, mode;
      cv, attempts, mode := SetNewModeVulkan(cv0, query);
      outcome := Some(mode);
    }
  }

  /**
   * A crop followed by an uncrop puts the crop index back where it was
   * and leaves the crops below it untouched.
   */
  method CropThenUnCrop(rs: RenderSystemLocal, width: int, height: int) returns (restored: bool)
    requires rs.Valid() && rs.rInitialized && width >= 1 && height >= 1
    requires rs.currentRenderCrop + 1 < MAX_RENDER_CROPS
    modifies rs`currentRenderCrop, rs.renderCrops
    ensures rs.Valid() && restored
    ensures rs.currentRenderCrop == old(rs.currentRenderCrop)
    ensures forall k :: 0 <= k <= rs.currentRenderCrop ==> rs.renderCrops[k] == old(rs.renderCrops[k])
  {
    var pushed := rs.CropRenderSize(width, height);
    var popped := rs.UnCrop();
    restored := pushed == Done && popped == Done;
  }

  /**
   * Two frames of the pipeline: the chain recorded during a frame is the
   * one the next SwapCommandBuffers hands back, and the records linked after
   * the swap go to a fresh chain.
   */
  method ChainHandedOver(rs: RenderSystemLocal, recorded: seq<Command>) returns (head: Option<seq<Command>>)
    requires rs.Valid() && rs.rInitialized
    requires rs.backend.commandBufferRecorded[rs.backend.currentFrameData] ==>
      rs.backend.fenceSignalled[rs.backend.currentFrameData]
    modifies rs.frames, rs.backend, rs.backend.commandBufferRecorded, rs.backend.fenceSignalled
    modifies rs.renderCrops, rs`currentRenderCrop, rs`frameCount, rs`guiRecursionLevel
    ensures rs.Valid()
    ensures head == Some(old(rs.frames.CmdHead()) + recorded)
    ensures rs.frames.CmdHead() == [HEAD_NOP]
  {
    var i := 0;
    while i < |recorded|
      invariant 0 <= i <= |recorded|
      invariant rs.Valid() && rs.rInitialized
      invariant rs.frames.CmdHead() == old(rs.frames.CmdHead()) + recorded[..i]
      invariant rs.backend.commandBufferRecorded[rs.backend.currentFrameData] ==>
        rs.backend.fenceSignalled[rs.backend.currentFrameData]
    {
      rs.frames.GetCommandBuffer(recorded[i]);
      assert recorded[..i + 1] == recorded[..i] + [recorded[i]];
      i := i + 1;
    }
    assert recorded[..|recorded|] == recorded;
    head := rs.SwapCommandBuffers();
  }
}
