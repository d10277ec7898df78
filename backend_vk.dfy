/**
 * The Vulkan back end: the frame-slot state machine driven by
 * BlockingSwapBuffers, GL_StartFrame and GL_EndFrame, the command dispatch of
 * ExecuteBackEndCommands, the GL_State bit merge, the vertex-cache handle
 * decode, and the device-selection helpers.
 *
 * Vulkan calls are effects outside the model.  A fence is a boolean that
 * the GPU sets when the submitted work of its slot completes; waiting on a
 * fence is a precondition that it is set.
 */
module RenderBackendVk {
  import opened Wrappers
  import opened FrameData
  import opened ImageVk

  // ---------------------------------------------------------------------
  // Frame slots

  /** The draw work ExecuteBackEndCommands hands to the rest of the back end. */
  datatype BackendAction = DrawView(view: nat) | CopyRender(copy: nat) | PostProcess(post: nat)

  /** The commandIds the dispatch switch has a case for. */
  predicate KnownCommand(c: Command)
  {
    !c.commandId.UnknownCommand?
  }

  /** The dispatch of one known record: RC_NOP and RC_SET_BUFFER do nothing. */
  function ActionOf(c: Command): (a: Option<BackendAction>)
    requires KnownCommand(c)
    ensures a.None? <==> c.commandId in {RC_NOP, RC_SET_BUFFER}
    ensures IsDrawView(c) <==> a == Some(DrawView(c.payload))
  {
    match c.commandId
    case RC_NOP => None
    case RC_SET_BUFFER => None
    case RC_DRAW_VIEW_GUI => Some(DrawView(c.payload))
    case RC_DRAW_VIEW_3D => Some(DrawView(c.payload))
    case RC_COPY_RENDER => Some(CopyRender(c.payload))
    case RC_POST_PROCESS => Some(PostProcess(c.payload))
  }

  /** The actions of a chain of known records, in list order. */
  function Actions(cmds: seq<Command>): seq<BackendAction>
    requires forall k :: 0 <= k < |cmds| ==> KnownCommand(cmds[k])
  {
    if |cmds| == 0 then []
    else
      var last := cmds[|cmds| - 1];
      Actions(cmds[..|cmds| - 1]) + (match ActionOf(last) case Some(a) => [a] case None => [])
  }

  /** Actions of a longer chain extend the actions of its prefix. */
  lemma {:induction false} ActionsAppend(cmds: seq<Command>, more: seq<Command>)
    requires forall k :: 0 <= k < |cmds| ==> KnownCommand(cmds[k])
    requires forall k :: 0 <= k < |more| ==> KnownCommand(more[k])
    ensures forall k :: 0 <= k < |cmds + more| ==> KnownCommand((cmds + more)[k])
    ensures Actions(cmds + more) == Actions(cmds) + Actions(more)
    decreases |more|
  {
    if |more| > 0 {
      var init := more[..|more| - 1];
      assert (cmds + more)[..|cmds + more| - 1] == cmds + init;
      ActionsAppend(cmds, init);
    } else {
      assert cmds + more == cmds;
    }
  }

  /** A chain with no draw-view record draws no view. */
  lemma {:induction false} NoViewNoDraw(cmds: seq<Command>, view: nat)
    requires forall k :: 0 <= k < |cmds| ==> KnownCommand(cmds[k])
    requires !HasView(cmds)
    ensures DrawView(view) !in Actions(cmds)
  {
    if |cmds| > 0 {
      var init := cmds[..|cmds| - 1];
      forall k | 0 <= k < |init|
        ensures !IsDrawView(init[k])
      {
        assert init[k] == cmds[k];
      }
      NoViewNoDraw(init, view);
      assert !IsDrawView(cmds[|cmds| - 1]);
    }
  }

  /** Index of the first record the dispatch switch rejects, or the length. */
  function FirstUnknown(cmds: seq<Command>): (n: nat)
    ensures n <= |cmds|
    ensures forall k :: 0 <= k < n ==> KnownCommand(cmds[k])
    ensures n < |cmds| ==> !KnownCommand(cmds[n])
  {
    if |cmds| == 0 then 0
    else if !KnownCommand(cmds[0]) then 0
    else 1 + FirstUnknown(cmds[1..])
  }

  datatype ExecuteOutcome = Executed | BadCommandId    // idLib::Error "ExecuteBackEndCommands: bad commandId"

  /** The vkcontext fields the back end keeps per frame slot. */
  class Backend {
    var counter: nat
    var currentFrameData: nat
    const commandBufferRecorded: array<bool>
    const fenceSignalled: array<bool>
    const queryIndex: array<int>
    const garbage: GarbageRing
    var glStateBits: StateBits
    /** GLS_KEEP and GLS_MIRROR_VIEW, whose values the state-bit header fixes. */
    const keepBits: StateBits
    const mirrorBit: nat
    /** viewDef is set and is a mirror view. */
    var viewIsMirror: bool

    /**
     * The slot arrays have NUM_FRAME_DATA entries, the current slot follows
     * the counter, and only the current slot can hold a recorded command
     * buffer: at most one frame is in flight.
     */
    ghost predicate Valid()
      reads this, commandBufferRecorded, fenceSignalled, queryIndex, garbage
    {
      && commandBufferRecorded.Length == NUM_FRAME_DATA
      && fenceSignalled.Length == NUM_FRAME_DATA
      && queryIndex.Length == NUM_FRAME_DATA
      && commandBufferRecorded != fenceSignalled
      && currentFrameData == counter % NUM_FRAME_DATA
      && garbage.Valid()
      && (forall s :: 0 <= s < NUM_FRAME_DATA && s != currentFrameData ==> !commandBufferRecorded[s])
      && (forall s :: 0 <= s < NUM_FRAME_DATA ==> queryIndex[s] >= 0)
    }

    /** idRenderBackend::Init's reset of the slot state. */
    constructor (ring: GarbageRing, keep: StateBits, mirror: nat)
      requires ring.Valid()
      ensures Valid() && garbage == ring && counter == 0 && currentFrameData == 0
      ensures keepBits == keep && mirrorBit == mirror && glStateBits == {} && !viewIsMirror
      ensures forall s :: 0 <= s < NUM_FRAME_DATA ==> !commandBufferRecorded[s] && queryIndex[s] == 0
      ensures fresh(commandBufferRecorded) && fresh(fenceSignalled) && fresh(queryIndex)
    {
      counter := 0;
      currentFrameData := 0;
      commandBufferRecorded := new bool[NUM_FRAME_DATA](_ => false);
      fenceSignalled := new bool[NUM_FRAME_DATA](_ => false);
      queryIndex := new int[NUM_FRAME_DATA](_ => 0);
      garbage := ring;
      glStateBits := {};
      keepBits := keep;
      mirrorBit := mirror;
      viewIsMirror := false;
    }

    /** The GPU finishes the work submitted for slot `s` and signals its fence. */
    method GpuCompletes(s: nat)
      requires Valid() && s < NUM_FRAME_DATA
      modifies fenceSignalled
      ensures Valid() && fenceSignalled[s]
      ensures forall t :: 0 <= t < NUM_FRAME_DATA && t != s ==> fenceSignalled[t] == old(fenceSignalled[t])
    {
      fenceSignalled[s] := true;
    }

    /**
     * BlockingSwapBuffers: with nothing recorded for the current slot it
     * does nothing; otherwise it waits for the slot's fence, resets it,
     * presents, and moves to the next slot.
     */
    method BlockingSwapBuffers() returns (presented: bool)
      requires Valid()
      requires commandBufferRecorded[currentFrameData] ==> fenceSignalled[currentFrameData]
      modifies this`counter, this`currentFrameData, commandBufferRecorded, fenceSignalled
      ensures Valid()
      ensures presented == old(commandBufferRecorded[currentFrameData])
      ensures !presented ==> counter == old(counter) && currentFrameData == old(currentFrameData)
      ensures !presented ==> commandBufferRecorded[..] == old(commandBufferRecorded[..])
      ensures !presented ==> fenceSignalled[..] == old(fenceSignalled[..])
      ensures presented ==> counter == old(counter) + 1 && currentFrameData < NUM_FRAME_DATA
      ensures presented ==> forall s :: 0 <= s < NUM_FRAME_DATA ==> !commandBufferRecorded[s]
      ensures presented ==> !fenceSignalled[old(currentFrameData)]
      ensures forall s :: 0 <= s < NUM_FRAME_DATA && s != old(currentFrameData) ==> fenceSignalled[s] == old(fenceSignalled[s])
    {
      if !commandBufferRecorded[currentFrameData] {
        return false;
      }
      fenceSignalled[currentFrameData] := false;
      commandBufferRecorded[currentFrameData] := false;
      counter := counter + 1;
      currentFrameData := counter % NUM_FRAME_DATA;
      presented := true;
    }

    /**
     * GL_StartFrame: empties the image garbage of the next ring slot, reads
     * back and resets a used timestamp pool, and writes the first timestamp.
     */
    method GL_StartFrame() returns (destroyed: Garbage)
      requires Valid()
      modifies queryIndex, garbage
      ensures Valid()
      ensures (garbage.State(), destroyed) == EmptyStep(old(garbage.State()))
      ensures queryIndex[currentFrameData] == 1
      ensures forall s :: 0 <= s < NUM_FRAME_DATA && s != currentFrameData ==> queryIndex[s] == old(queryIndex[s])
    {
      destroyed := garbage.EmptyGarbage();
      if queryIndex[currentFrameData] > 0 {
        queryIndex[currentFrameData] := 0;
      }
      queryIndex[currentFrameData] := queryIndex[currentFrameData] + 1;
    }

    /**
     * GL_EndFrame: writes the second timestamp, marks the current slot's
     * command buffer recorded and submits it with the slot's fence.
     */
    method GL_EndFrame()
      requires Valid()
      modifies queryIndex, commandBufferRecorded, fenceSignalled
      ensures Valid()
      ensures queryIndex[currentFrameData] == old(queryIndex[currentFrameData]) + 1
      ensures commandBufferRecorded[currentFrameData] && !fenceSignalled[currentFrameData]
      ensures forall s :: 0 <= s < NUM_FRAME_DATA && s != currentFrameData ==>
        queryIndex[s] == old(queryIndex[s]) && fenceSignalled[s] == old(fenceSignalled[s])
    {
      queryIndex[currentFrameData] := queryIndex[currentFrameData] + 1;
      commandBufferRecorded[currentFrameData] := true;
      fenceSignalled[currentFrameData] := false;
    }

    /**
     * ExecuteBackEndCommands: starts the frame, dispatches the records in
     * list order, and ends the frame.  A record with an unknown commandId
     * raises an error, which abandons the frame before GL_EndFrame.  Before
     * dispatching, GL_SetDefaultState discards the previous frame's state
     * bits, so a chain that hands on no work leaves the default state.
     */
    method ExecuteBackEndCommands(cmds: seq<Command>) returns (actions: seq<BackendAction>, outcome: ExecuteOutcome)
      requires Valid()
      modifies queryIndex, commandBufferRecorded, fenceSignalled, garbage, this`glStateBits
      ensures Valid()
      ensures actions == [] ==> glStateBits == DefaultState(mirrorBit, viewIsMirror)
      ensures garbage.State() == EmptyStep(old(garbage.State())).0
      ensures outcome == Executed <==> FirstUnknown(cmds) == |cmds|
      ensures actions == Actions(cmds[..FirstUnknown(cmds)])
      ensures outcome == Executed ==> commandBufferRecorded[currentFrameData] && queryIndex[currentFrameData] == 2
      ensures outcome == BadCommandId ==>
        commandBufferRecorded[currentFrameData] == old(commandBufferRecorded[currentFrameData])
        && queryIndex[currentFrameData] == 1
    {
      var destroyed := GL_StartFrame();
      ghost var emptied := garbage.State();
      GL_SetDefaultState();
      actions := [];
      var i := 0;
      var n := FirstUnknown(cmds);
      while i < |cmds|
        invariant 0 <= i <= n
        invariant Valid()
        invariant actions == Actions(cmds[..i])
        invariant queryIndex[currentFrameData] == 1
        invariant commandBufferRecorded[currentFrameData] == old(commandBufferRecorded[currentFrameData])
        invariant glStateBits == DefaultState(mirrorBit, viewIsMirror)
        invariant garbage.State() == emptied
      {
        if !KnownCommand(cmds[i]) {
          return actions, BadCommandId;
        }
        ActionsAppend(cmds[..i], [cmds[i]]);
        assert cmds[..i + 1] == cmds[..i] + [cmds[i]];
        match ActionOf(cmds[i]) {
          case Some(a) => actions := actions + [a];
          case None =>
        }
        i := i + 1;
      }
      assert cmds[..|cmds|] == cmds;
      GL_EndFrame();
      outcome := Executed;
    }

    /** GL_State: the new bits, the kept old bits, and the mirror bit for mirror views. */
    method GL_State(stateBits: StateBits)
      modifies this`glStateBits
      ensures glStateBits == MergeState(old(glStateBits), stateBits, keepBits, mirrorBit, viewIsMirror)
    {
      glStateBits := stateBits + (glStateBits * keepBits);
      if viewIsMirror {
        glStateBits := glStateBits + {mirrorBit};
      }
    }

    /**
     * GL_SetDefaultState: clears the state bits and sets state 0, so nothing
     * of the old bits survives whatever GLS_KEEP selects.
     */
    method GL_SetDefaultState()
      modifies this`glStateBits
      ensures glStateBits == DefaultState(mirrorBit, viewIsMirror)
    {
      glStateBits := {};
      GL_State({});
      DefaultStateForgetsOld({}, keepBits, mirrorBit, viewIsMirror);
    }
  }

  /**
   * One frame of the back end as the render system drives it: the swap at
   * the start of the next frame presents exactly what the frame recorded and
   * moves on by one slot.
   */
  method FrameThenSwap(b: Backend, cmds: seq<Command>) returns (presented: bool)
    requires b.Valid() && FirstUnknown(cmds) == |cmds|
    modifies b, b.queryIndex, b.commandBufferRecorded, b.fenceSignalled, b.garbage
    ensures b.Valid() && presented
    ensures b.counter == old(b.counter) + 1
  {
    var actions, outcome := b.ExecuteBackEndCommands(cmds);
    b.GpuCompletes(b.currentFrameData);
    presented := b.BlockingSwapBuffers();
  }

  // ---------------------------------------------------------------------
  // GL_State

  /**
   * A 64-bit GL state word, as the set of its bit positions that are 1:
   * `|` on words is union and `&` is intersection.
   */
  type StateBits = set<nat>

  /**
   * The state GL_State leaves: the requested bits, the old bits `keep`
   * (GLS_KEEP) selects, and GLS_MIRROR_VIEW for a mirror view.
   */
  function MergeState(old_: StateBits, stateBits: StateBits, keep: StateBits, mirrorBit: nat, isMirror: bool): (r: StateBits)
    ensures stateBits <= r
    ensures isMirror ==> mirrorBit in r
    ensures forall b :: b in r && b !in stateBits && !(isMirror && b == mirrorBit) ==> b in old_ && b in keep
    ensures forall b :: b in old_ && b in keep ==> b in r
  {
    stateBits + (old_ * keep) + (if isMirror then {mirrorBit} else {})
  }

  /** The state GL_SetDefaultState leaves: only the mirror bit, for a mirror view. */
  function DefaultState(mirrorBit: nat, isMirror: bool): (r: StateBits)
    ensures mirrorBit in r <==> isMirror
    ensures forall b :: b in r ==> b == mirrorBit
  {
    if isMirror then {mirrorBit} else {}
  }

  /**
   * Setting state 0 after clearing the word gives the default state, and
   * without the clear it would not: the kept old bits would survive.
   */
  lemma {:induction false} DefaultStateForgetsOld(o: StateBits, keep: StateBits, mirrorBit: nat, isMirror: bool)
    ensures MergeState({}, {}, keep, mirrorBit, isMirror) == DefaultState(mirrorBit, isMirror)
    ensures MergeState(o, {}, keep, mirrorBit, isMirror) == DefaultState(mirrorBit, isMirror) + (o * keep)
  {
  }

  /** Setting the same state twice is the same as setting it once. */
  lemma MergeStateIdempotent(o: StateBits, stateBits: StateBits, keep: StateBits, mirrorBit: nat, isMirror: bool)
    ensures MergeState(MergeState(o, stateBits, keep, mirrorBit, isMirror), stateBits, keep, mirrorBit, isMirror)
      == MergeState(o, stateBits, keep, mirrorBit, isMirror)
  {
  }

  // ---------------------------------------------------------------------
  // Vertex-cache handles

  /**
   * The layout of a vertCacheHandle_t (from the vertex cache's header, which
   * is not part of this model): bit 0 marks the static cache, bits 1..23 the
   * size, bits 24..48 the offset and bits 49..63 the frame number.  A handle
   * is an unsigned 64-bit value; `(h >> shift) & mask` on it is
   * `(h / 2^shift) % (mask + 1)`.
   */
  const HANDLE_LIMIT: nat := 0x1_0000_0000_0000_0000
  const VERTCACHE_SIZE_SHIFT: nat := 0x2                  // 1 << 1
  const VERTCACHE_SIZE_MASK: nat := 0x7f_ffff
  const VERTCACHE_OFFSET_SHIFT: nat := 0x100_0000         // 1 << 24
  const VERTCACHE_OFFSET_MASK: nat := 0x1ff_ffff
  const VERTCACHE_FRAME_SHIFT: nat := 0x2_0000_0000_0000  // 1 << 49
  const VERTCACHE_FRAME_MASK: nat := 0x7fff

  function OffsetField(handle: nat): (o: nat)
    ensures o <= VERTCACHE_OFFSET_MASK
  {
    (handle / VERTCACHE_OFFSET_SHIFT) % (VERTCACHE_OFFSET_MASK + 1)
  }

  function FrameField(handle: nat): (f: nat)
    ensures f <= VERTCACHE_FRAME_MASK
  {
    (handle / VERTCACHE_FRAME_SHIFT) % (VERTCACHE_FRAME_MASK + 1)
  }

  /**
   * `(currentFrame - 1) & VERTCACHE_FRAME_MASK` on the C int frame counter:
   * masking a two's-complement value keeps its residue modulo 2^15, which is
   * Dafny's (never negative) `%`, also for a counter of 0.
   */
  function PreviousFrameStamp(currentFrame: int): (f: nat)
    ensures f <= VERTCACHE_FRAME_MASK
    ensures currentFrame == 0 ==> f == VERTCACHE_FRAME_MASK
  {
    (currentFrame - 1) % (VERTCACHE_FRAME_MASK + 1)
  }

  datatype BufferSource = StaticCache(offset: nat) | FrameCache(offset: nat) | StaleFrame

  /**
   * The buffer lookup of DrawElementsWithCounters: a static handle uses the
   * static cache; a frame handle is used only when its frame number is the
   * stamp of the frame before `currentFrame`, otherwise the draw is skipped
   * with a warning.
   */
  function DecodeHandle(handle: nat, currentFrame: int): (r: BufferSource)
    requires handle < HANDLE_LIMIT
    ensures r.StaleFrame? <==> handle % 2 == 0 && FrameField(handle) != PreviousFrameStamp(currentFrame)
    ensures !r.StaleFrame? ==> r.offset == OffsetField(handle)
    ensures r.StaticCache? <==> handle % 2 == 1
  {
    if handle % 2 == 1 then
      StaticCache(OffsetField(handle))
    else if FrameField(handle) != PreviousFrameStamp(currentFrame) then
      StaleFrame
    else
      FrameCache(OffsetField(handle))
  }

  /** A frame-cache handle in the layout above, as the vertex cache builds it. */
  function FrameHandle(size: nat, offset: nat, frame: nat): (h: nat)
    requires size <= VERTCACHE_SIZE_MASK && offset <= VERTCACHE_OFFSET_MASK && frame <= VERTCACHE_FRAME_MASK
    ensures h < HANDLE_LIMIT && h % 2 == 0
  {
    size * VERTCACHE_SIZE_SHIFT + offset * VERTCACHE_OFFSET_SHIFT + frame * VERTCACHE_FRAME_SHIFT
  }

  /** The offset and frame fields of a built handle read back what was put in. */
  lemma FrameHandleFields(size: nat, offset: nat, frame: nat)
    requires size <= VERTCACHE_SIZE_MASK && offset <= VERTCACHE_OFFSET_MASK && frame <= VERTCACHE_FRAME_MASK
    ensures OffsetField(FrameHandle(size, offset, frame)) == offset
    ensures FrameField(FrameHandle(size, offset, frame)) == frame
  {
    var low := size * 0x2;
    var above := offset + frame * 0x200_0000;
    assert FrameHandle(size, offset, frame) == low + above * 0x100_0000;
    assert (low + above * 0x100_0000) / 0x100_0000 == above;
    assert above % 0x200_0000 == offset;
    var mid := low + offset * 0x100_0000;
    assert FrameHandle(size, offset, frame) == mid + frame * 0x2_0000_0000_0000;
    assert (mid + frame * 0x2_0000_0000_0000) / 0x2_0000_0000_0000 == frame;
  }

  /** A handle made during the previous frame decodes to its own offset. */
  lemma FrameHandleRoundTrip(size: nat, offset: nat, currentFrame: int)
    requires size <= VERTCACHE_SIZE_MASK && offset <= VERTCACHE_OFFSET_MASK
    ensures DecodeHandle(FrameHandle(size, offset, PreviousFrameStamp(currentFrame)), currentFrame) == FrameCache(offset)
  {
    FrameHandleFields(size, offset, PreviousFrameStamp(currentFrame));
  }

  /** A handle made in any other frame of the 15-bit cycle is rejected. */
  lemma OtherFrameHandleIsStale(size: nat, offset: nat, frame: nat, currentFrame: int)
    requires size <= VERTCACHE_SIZE_MASK && offset <= VERTCACHE_OFFSET_MASK && frame <= VERTCACHE_FRAME_MASK
    requires frame != PreviousFrameStamp(currentFrame)
    ensures DecodeHandle(FrameHandle(size, offset, frame), currentFrame) == StaleFrame
  {
    FrameHandleFields(size, offset, frame);
  }

  // ---------------------------------------------------------------------
  // Device selection helpers

  datatype ColorSpace = VK_COLOR_SPACE_SRGB_NONLINEAR_KHR | OtherColorSpace(code: nat)
  datatype SurfaceFormat = SurfaceFormat(format: VkFormat, colorSpace: ColorSpace)

  const PREFERRED_SURFACE_FORMAT: SurfaceFormat := SurfaceFormat(VK_FORMAT_B8G8R8A8_UNORM, VK_COLOR_SPACE_SRGB_NONLINEAR_KHR)

  /**
   * ChooseSurfaceFormat; device selection only keeps devices with at least
   * one surface format.  A lone UNDEFINED entry means any format will do.
   */
  method ChooseSurfaceFormat(formats: seq<SurfaceFormat>) returns (r: SurfaceFormat)
    requires |formats| > 0
    ensures |formats| == 1 && formats[0].format == VK_FORMAT_UNDEFINED ==> r == PREFERRED_SURFACE_FORMAT
    ensures PREFERRED_SURFACE_FORMAT in formats ==> r == PREFERRED_SURFACE_FORMAT
    ensures r != PREFERRED_SURFACE_FORMAT ==> r == formats[0]
    ensures !(|formats| == 1 && formats[0].format == VK_FORMAT_UNDEFINED) && PREFERRED_SURFACE_FORMAT !in formats ==>
      r == formats[0]
  {
    if |formats| == 1 && formats[0].format == VK_FORMAT_UNDEFINED {
      return PREFERRED_SURFACE_FORMAT;
    }
    var i := 0;
    while i < |formats|
      invariant 0 <= i <= |formats|
      invariant PREFERRED_SURFACE_FORMAT !in formats[..i]
    {
      if formats[i] == PREFERRED_SURFACE_FORMAT {
        return formats[i];
      }
      assert formats[..i + 1] == formats[..i] + [formats[i]];
      i := i + 1;
    }
    assert formats[..i] == formats;
    r := formats[0];
  }

  datatype PresentMode =
    | VK_PRESENT_MODE_IMMEDIATE_KHR | VK_PRESENT_MODE_MAILBOX_KHR | VK_PRESENT_MODE_FIFO_KHR
    | VK_PRESENT_MODE_FIFO_RELAXED_KHR | OtherPresentMode(code: nat)

  predicate IsLowLatency(m: PresentMode)
  {
    m == VK_PRESENT_MODE_MAILBOX_KHR || m == VK_PRESENT_MODE_IMMEDIATE_KHR
  }

  /**
   * ChoosePresentMode: FIFO when r_swapInterval asks for vsync; otherwise the
   * first mailbox or immediate mode in list order, and FIFO when there is
   * none (both FIFO lookups end in FIFO).
   */
  method ChoosePresentMode(modes: seq<PresentMode>, swapInterval: int) returns (r: PresentMode)
    ensures r == VK_PRESENT_MODE_FIFO_KHR <==>
      swapInterval >= 1 || forall k :: 0 <= k < |modes| ==> !IsLowLatency(modes[k])
    ensures r != VK_PRESENT_MODE_FIFO_KHR ==>
      exists k :: 0 <= k < |modes| && modes[k] == r && IsLowLatency(r)
        && forall j :: 0 <= j < k ==> !IsLowLatency(modes[j])
  {
    if swapInterval < 1 {
      var i := 0;
      while i < |modes|
        invariant 0 <= i <= |modes|
        invariant forall j :: 0 <= j < i ==> !IsLowLatency(modes[j])
      {
        if modes[i] == VK_PRESENT_MODE_MAILBOX_KHR {
          return VK_PRESENT_MODE_MAILBOX_KHR;
        }
        if modes[i] != VK_PRESENT_MODE_MAILBOX_KHR && modes[i] == VK_PRESENT_MODE_IMMEDIATE_KHR {
          return VK_PRESENT_MODE_IMMEDIATE_KHR;
        }
        i := i + 1;
      }
    }
    var i := 0;
    while i < |modes|
      invariant 0 <= i <= |modes|
    {
      if modes[i] == VK_PRESENT_MODE_FIFO_KHR {
        return VK_PRESENT_MODE_FIFO_KHR;
      }
      i := i + 1;
    }
    r := VK_PRESENT_MODE_FIFO_KHR;
  }

  /** idStr::Icmp's folding: ASCII upper case to lower case. */
  function ToLower(c: char): (l: char)
    ensures 'A' <= c <= 'Z' ==> l as int == c as int + 32
    ensures !('A' <= c <= 'Z') ==> l == c
  {
    if 'A' <= c <= 'Z' then (c as int + 32) as char else c
  }

  /** idStr::Icmp(a, b) == 0. */
  predicate EqualIgnoringCase(a: string, b: string)
  {
    |a| == |b| && forall k :: 0 <= k < |a| ==> ToLower(a[k]) == ToLower(b[k])
  }

  /** The device offers an extension whose name matches `name` up to case. */
  predicate Offers(available: seq<string>, name: string)
  {
    exists j :: 0 <= j < |available| && EqualIgnoringCase(name, available[j])
  }

  /** The Icmp loop: does some available name match `name`? */
  method MatchesSome(name: string, available: seq<string>) returns (found: bool)
    ensures found <==> Offers(available, name)
  {
    var j := 0;
    while j < |available|
      invariant 0 <= j <= |available|
      invariant forall j' :: 0 <= j' < j ==> !EqualIgnoringCase(name, available[j'])
    {
      var same := |name| == |available[j]|;
      var k := 0;
      while same && k < |name|
        invariant 0 <= k <= |name|
        invariant same ==> |name| == |available[j]| && forall k' :: 0 <= k' < k ==> ToLower(name[k']) == ToLower(available[j][k'])
        invariant !same ==> !EqualIgnoringCase(name, available[j])
      {
        if ToLower(name[k]) != ToLower(available[j][k]) {
          same := false;
        }
        k := k + 1;
      }
      if same {
        return true;
      }
      j := j + 1;
    }
    found := false;
  }

  /**
   * CheckPhysicalDeviceExtensionSupport: counts the required names that
   * match an available one and compares the count with the number required.
   */
  method CheckPhysicalDeviceExtensionSupport(required: seq<string>, available: seq<string>) returns (ok: bool)
    ensures ok <==> forall i :: 0 <= i < |required| ==> Offers(available, required[i])
  {
    var count := 0;
    var i := 0;
    while i < |required|
      invariant 0 <= i <= |required| && 0 <= count <= i
      invariant count == i <==> forall i' :: 0 <= i' < i ==> Offers(available, required[i'])
    {
      var found := MatchesSome(required[i], available);
      if found {
        count := count + 1;
      }
      i := i + 1;
    }
    ok := count == |required|;
  }

  // ---------------------------------------------------------------------
  // Sample count and depth format

  /**
   * A VkSampleCountFlags mask, as the set of sample counts whose bit
   * (VK_SAMPLE_COUNT_<n>_BIT) is set.
   */
  type SampleCounts = set<nat>

  /** A multi-sample count the format supports and r_multiSamples reaches. */
  predicate Qualifies(count: nat, samples: int, supported: SampleCounts)
  {
    count in {2, 4, 8, 16} && count in supported && count <= samples
  }

  /**
   * CreateRenderTargets' sample-count ladder: the largest count among 16, 8,
   * 4 and 2 that r_multiSamples reaches and the format supports; when none
   * qualifies, the previous sample count is kept.
   */
  function SampleCountFor(samples: int, supported: SampleCounts, previous: nat): (r: nat)
    ensures r != previous ==> Qualifies(r, samples, supported)
    ensures forall c: nat :: Qualifies(c, samples, supported) ==> Qualifies(r, samples, supported) && c <= r
  {
    if samples >= 16 && 16 in supported then 16
    else if samples >= 8 && 8 in supported then 8
    else if samples >= 4 && 4 in supported then 4
    else if samples >= 2 && 2 in supported then 2
    else previous
  }

  datatype ImageTiling = VK_IMAGE_TILING_OPTIMAL | VK_IMAGE_TILING_LINEAR | OtherTiling(code: nat)

  /** vkGetPhysicalDeviceFormatProperties' answer for one format. */
  datatype FormatProperties = FormatProperties(linearTilingFeatures: bv32, optimalTilingFeatures: bv32)

  predicate Supports(props: VkFormat -> FormatProperties, f: VkFormat, tiling: ImageTiling, features: bv32)
  {
    || (tiling == VK_IMAGE_TILING_LINEAR && props(f).linearTilingFeatures & features == features)
    || (tiling == VK_IMAGE_TILING_OPTIMAL && props(f).optimalTilingFeatures & features == features)
  }

  datatype FormatChoice =
    | Chosen(format: VkFormat)
    | NoSupportedFormat       // idLib::FatalError "Failed to find a supported format."
    | ReadPastEnd             // formats[i] read beyond the array's last element

  /**
   * ChooseSupportedFormat: the first of the first `numFormats` entries of
   * `formats` that supports `features` with `tiling`.  Reading an entry
   * beyond the array is undefined behaviour, reported as ReadPastEnd.
   */
  method ChooseSupportedFormat(formats: seq<VkFormat>, numFormats: nat, tiling: ImageTiling, features: bv32,
                               props: VkFormat -> FormatProperties) returns (choice: FormatChoice)
    ensures choice.Chosen? ==>
      exists k :: 0 <= k < numFormats && k < |formats| && choice.format == formats[k]
        && Supports(props, formats[k], tiling, features)
        && forall j :: 0 <= j < k ==> !Supports(props, formats[j], tiling, features)
    ensures choice == ReadPastEnd <==>
      numFormats > |formats| && forall j :: 0 <= j < |formats| ==> !Supports(props, formats[j], tiling, features)
    ensures choice == NoSupportedFormat <==>
      numFormats <= |formats| && forall j :: 0 <= j < numFormats ==> !Supports(props, formats[j], tiling, features)
  {
    var i := 0;
    while i < numFormats
      invariant 0 <= i <= numFormats && i <= |formats|
      invariant forall j :: 0 <= j < i ==> !Supports(props, formats[j], tiling, features)
    {
      if i >= |formats| {
        return ReadPastEnd;
      }
      var format := formats[i];
      // the linear and the optimal test of the source, one per tiling
      if Supports(props, format, tiling, features) {
        return Chosen(format);
      }
      i := i + 1;
    }
    choice := NoSupportedFormat;
  }

  const VK_FORMAT_FEATURE_DEPTH_STENCIL_ATTACHMENT_BIT: bv32 := 0x200

  const DEPTH_FORMATS: seq<VkFormat> := [VK_FORMAT_D32_SFLOAT_S8_UINT, VK_FORMAT_D24_UNORM_S8_UINT]

  /** The depth-format selection of CreateRenderTargets as written: a count of 3 for two entries. */
  method SelectDepthFormatAsWritten(props: VkFormat -> FormatProperties) returns (choice: FormatChoice)
    ensures choice == ReadPastEnd <==>
      forall j :: 0 <= j < 2 ==> !Supports(props, DEPTH_FORMATS[j], VK_IMAGE_TILING_OPTIMAL, VK_FORMAT_FEATURE_DEPTH_STENCIL_ATTACHMENT_BIT)
    ensures choice != NoSupportedFormat
  {
    choice := ChooseSupportedFormat(DEPTH_FORMATS, 3, VK_IMAGE_TILING_OPTIMAL, VK_FORMAT_FEATURE_DEPTH_STENCIL_ATTACHMENT_BIT, props);
  }

  /** A device supporting neither depth format sends the selection past the array. */
  method NoDepthFormatReadsPastEnd() returns (choice: FormatChoice)
    ensures choice == ReadPastEnd
  {
    var none := (f: VkFormat) => FormatProperties(0, 0);
    choice := SelectDepthFormatAsWritten(none);
  }

  /**
   * The depth-format selection with the count equal to the array's length:
   * the first supported depth format, or the fatal error when neither is.
   */
  method SelectDepthFormat(props: VkFormat -> FormatProperties) returns (choice: FormatChoice)
    ensures choice != ReadPastEnd
    ensures choice == NoSupportedFormat <==>
      forall j :: 0 <= j < 2 ==> !Supports(props, DEPTH_FORMATS[j], VK_IMAGE_TILING_OPTIMAL, VK_FORMAT_FEATURE_DEPTH_STENCIL_ATTACHMENT_BIT)
    ensures Supports(props, VK_FORMAT_D32_SFLOAT_S8_UINT, VK_IMAGE_TILING_OPTIMAL, VK_FORMAT_FEATURE_DEPTH_STENCIL_ATTACHMENT_BIT) ==>
      choice == Chosen(VK_FORMAT_D32_SFLOAT_S8_UINT)
  {
    choice := ChooseSupportedFormat(DEPTH_FORMATS, |DEPTH_FORMATS|, VK_IMAGE_TILING_OPTIMAL, VK_FORMAT_FEATURE_DEPTH_STENCIL_ATTACHMENT_BIT, props);
    if Supports(props, VK_FORMAT_D32_SFLOAT_S8_UINT, VK_IMAGE_TILING_OPTIMAL, VK_FORMAT_FEATURE_DEPTH_STENCIL_ATTACHMENT_BIT) {
      assert DEPTH_FORMATS[0] == VK_FORMAT_D32_SFLOAT_S8_UINT;
      assert choice.Chosen?;
      var k :| 0 <= k < 2 && choice.format == DEPTH_FORMATS[k]
        && forall j :: 0 <= j < k ==> !Supports(props, DEPTH_FORMATS[j], VK_IMAGE_TILING_OPTIMAL, VK_FORMAT_FEATURE_DEPTH_STENCIL_ATTACHMENT_BIT);
      assert k == 0;
    }
  }
}
