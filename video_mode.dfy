/**
 * Video-mode selection: R_SetNewMode (shared renderer, GLimp back end),
 * SetNewMode (Vulkan render system) and R_GetModeParms (Vulkan back end).
 *
 * The cvars the loop reads and writes are a value passed in and out; the
 * display's mode list and the window system's answer to a set of parameters
 * are functions supplied by the caller.
 */
module VideoModes {
  import opened Wrappers

  /** stereo3DMode_t. */
  datatype StereoMode =
    | STEREO3D_OFF
    | STEREO3D_SIDE_BY_SIDE_COMPRESSED
    | STEREO3D_TOP_AND_BOTTOM_COMPRESSED
    | STEREO3D_SIDE_BY_SIDE
    | STEREO3D_INTERLACED
    | STEREO3D_QUAD_BUFFER
    | STEREO3D_HDMI_720

  /** The r_antiAliasing values R_SetNewMode distinguishes; NONE is the enumeration's first value, 0. */
  datatype AntiAliasingMode =
    | ANTI_ALIASING_NONE
    | ANTI_ALIASING_MSAA_2X
    | ANTI_ALIASING_MSAA_4X
    | ANTI_ALIASING_MSAA_8X
    | OtherAntiAliasing(code: int)

  datatype VidMode = VidMode(width: int, height: int, displayHz: int)

  /** R_GetModeListForDisplay's answer for one display: success and the list it filled. */
  datatype ModeList = ModeList(ok: bool, modes: seq<VidMode>)

  /** The cvars that take part in choosing a mode. */
  datatype VideoCVars = VideoCVars(
    fullscreen: int, vidMode: int,
    windowX: int, windowY: int, windowWidth: int, windowHeight: int,
    customWidth: int, customHeight: int, displayRefresh: int,
    antiAliasing: AntiAliasingMode, multiSamples: int, stereoRenderEnable: StereoMode)

  /** glimpParms_t / gfxImpParms_t. */
  datatype ModeParms = ModeParms(
    x: int, y: int, width: int, height: int, fullScreen: int, displayHz: int,
    multiSamples: int, stereo: bool)

  /** Which of the two retry loops runs: the GLimp one (with or without context creation) or the Vulkan one. */
  datatype ModeSetter = GLimpSetNewMode(fullInit: bool) | VulkanSetNewMode

  /** One call of GLimp_Init / GLimp_SetScreenParms / SetScreenParms and its result. */
  datatype Attempt = Attempt(index: nat, parms: ModeParms, accepted: bool)

  datatype ModeOutcome =
    | ModeSet(index: nat, parms: ModeParms)
    | UnableToInitialize                 // FatalError on the third failed attempt
    | NoModeSet                          // the loop ran out through the safe-mode jump

  /** What the mode-list part of one attempt asks for, or the jump to safe mode on an empty list. */
  datatype ModeRequest = SafeModeJump(cvars: VideoCVars) | Request(cvars: VideoCVars, parms: ModeParms)

  datatype ModeParmsResult = NoModesAvailable | ModeParmsFor(cvars: VideoCVars, parms: ModeParms)

  /**
   * The r_vidMode reset at RenderSystem.cpp: a non-negative mode at or past
   * the end of the list falls back to mode 0, so the result always indexes
   * the list.
   */
  function VidModeIndex(vidMode: int, num: int): (r: int)
    requires 0 <= vidMode && 0 < num
    ensures 0 <= r < num
    ensures vidMode < num ==> r == vidMode
  {
    if vidMode >= num then 0 else vidMode
  }

  /** The reset as the two Vulkan sites write it: only a mode strictly past the end falls back. */
  function VidModeIndexAsWritten(vidMode: int, num: int): int
  {
    if vidMode > num then 0 else vidMode
  }

  /** With r_vidMode equal to the list length the as-written reset keeps an index one past the end. */
  lemma AsWrittenVidModeIndexOverruns(num: int)
    requires 0 < num
    ensures VidModeIndexAsWritten(num, num) == num
    ensures VidModeIndexAsWritten(num, num) >= num
  {
  }

  /** The two resets disagree only at vidMode == num. */
  lemma VidModeResetsAgreeElsewhere(vidMode: int, num: int)
    requires 0 <= vidMode && 0 < num && vidMode != num
    ensures VidModeIndexAsWritten(vidMode, num) == VidModeIndex(vidMode, num)
  {
  }

  /** multiSamples for each r_antiAliasing setting. */
  function SamplesForAntiAliasing(aa: AntiAliasingMode): (samples: int)
    ensures samples in {0, 2, 4, 8}
    ensures samples != 0 <==> aa in {ANTI_ALIASING_MSAA_2X, ANTI_ALIASING_MSAA_4X, ANTI_ALIASING_MSAA_8X}
    ensures aa == ANTI_ALIASING_MSAA_2X ==> samples == 2
    ensures aa == ANTI_ALIASING_MSAA_4X ==> samples == 4
    ensures aa == ANTI_ALIASING_MSAA_8X ==> samples == 8
  {
    match aa
    case ANTI_ALIASING_MSAA_2X => 2
    case ANTI_ALIASING_MSAA_4X => 4
    case ANTI_ALIASING_MSAA_8X => 8
    case _ => 0
  }

  /**
   * The mode list of the display r_fullscreen names; when that query fails
   * r_fullscreen falls back to 1 and the first display is asked instead.
   */
  function DisplayModes(cv: VideoCVars, query: int -> ModeList): (r: (VideoCVars, seq<VidMode>))
    ensures r.0 == cv || r.0 == cv.(fullscreen := 1)
    ensures query(cv.fullscreen - 1).ok ==> r == (cv, query(cv.fullscreen - 1).modes)
    ensures !query(cv.fullscreen - 1).ok ==> r == (cv.(fullscreen := 1), query(0).modes)
  {
    var first := query(cv.fullscreen - 1);
    if first.ok then (cv, first.modes) else (cv.(fullscreen := 1), query(0).modes)
  }

  /**
   * The window or mode part of one attempt.  A windowed setting uses the
   * window cvars; a fullscreen one takes the custom size for a negative
   * r_vidMode, or an entry of the display's list; an empty list jumps to
   * safe mode.  Multisampling and stereo are left to the caller.
   */
  function RequestParms(cv: VideoCVars, query: int -> ModeList): (r: ModeRequest)
    ensures cv.fullscreen <= 0 ==> r.Request? && r.cvars == cv
    ensures cv.fullscreen <= 0 ==>
      r.parms == ModeParms(cv.windowX, cv.windowY, cv.windowWidth, cv.windowHeight, cv.fullscreen, 0, 0, false)
    ensures cv.fullscreen > 0 ==> (r.SafeModeJump? <==> |DisplayModes(cv, query).1| == 0)
    ensures cv.fullscreen > 0 && r.Request? ==>
      && r.parms.fullScreen == r.cvars.fullscreen >= 1
      && r.cvars.(vidMode := cv.vidMode, fullscreen := cv.fullscreen) == cv
      && (cv.vidMode < 0 ==>
            r.cvars.vidMode == cv.vidMode
            && r.parms.width == cv.customWidth && r.parms.height == cv.customHeight
            && r.parms.displayHz == cv.displayRefresh)
      && (cv.vidMode >= 0 ==>
            var modes := DisplayModes(cv, query).1;
            && 0 <= r.cvars.vidMode < |modes|
            && (cv.vidMode < |modes| ==> r.cvars.vidMode == cv.vidMode)
            && VidMode(r.parms.width, r.parms.height, r.parms.displayHz) == modes[r.cvars.vidMode])
  {
    if cv.fullscreen <= 0 then
      Request(cv, ModeParms(cv.windowX, cv.windowY, cv.windowWidth, cv.windowHeight, cv.fullscreen, 0, 0, false))
    else
      var (cv1, modes) := DisplayModes(cv, query);
      if |modes| < 1 then
        SafeModeJump(cv1)
      else if cv1.vidMode < 0 then
        Request(cv1, ModeParms(0, 0, cv1.customWidth, cv1.customHeight, cv1.fullscreen, cv1.displayRefresh, 0, false))
      else
        var index := VidModeIndex(cv1.vidMode, |modes|);
        var mode := modes[index];
        Request(cv1.(vidMode := index), ModeParms(0, 0, mode.width, mode.height, cv1.fullscreen, mode.displayHz, 0, false))
  }

  /** The "safe mode" fallback; the GLimp loop resets r_antiAliasing, the Vulkan one r_multiSamples. */
  function SafeMode(setter: ModeSetter, cv: VideoCVars): (r: VideoCVars)
    ensures IsSafe(setter, r)
    ensures setter.GLimpSetNewMode? ==> r.multiSamples == cv.multiSamples
    ensures setter.VulkanSetNewMode? ==> r.antiAliasing == cv.antiAliasing
    ensures r.(vidMode := cv.vidMode, fullscreen := cv.fullscreen, displayRefresh := cv.displayRefresh,
               antiAliasing := cv.antiAliasing, multiSamples := cv.multiSamples) == cv
  {
    var base := cv.(vidMode := 0, fullscreen := 1, displayRefresh := 0);
    if setter.GLimpSetNewMode? then base.(antiAliasing := ANTI_ALIASING_NONE) else base.(multiSamples := 0)
  }

  /** r_vidMode 0, r_fullscreen 1, r_displayRefresh 0 and no multisampling. */
  predicate IsSafe(setter: ModeSetter, cv: VideoCVars)
  {
    && cv.vidMode == 0 && cv.fullscreen == 1 && cv.displayRefresh == 0
    && (setter.GLimpSetNewMode? ==> cv.antiAliasing == ANTI_ALIASING_NONE)
    && (setter.VulkanSetNewMode? ==> cv.multiSamples == 0)
  }

  /** The multisample count an attempt asks for. */
  function AttemptSamples(setter: ModeSetter, cv: VideoCVars): int
  {
    if setter.GLimpSetNewMode? then SamplesForAntiAliasing(cv.antiAliasing) else cv.multiSamples
  }

  lemma SafeModeRequestStaysSafe(setter: ModeSetter, cv: VideoCVars, query: int -> ModeList)
    requires IsSafe(setter, cv)
    ensures RequestParms(cv, query).Request? ==> IsSafe(setter, RequestParms(cv, query).cvars)
    ensures RequestParms(cv, query).Request? ==> RequestParms(cv, query).parms.fullScreen == 1
    ensures AttemptSamples(setter, cv) == 0
  {
  }

  /** Whether attempt `i` is tried at all: the GLimp loop tries attempt 0 only for quad-buffer stereo. */
  predicate AttemptTried(setter: ModeSetter, cv: VideoCVars, i: nat)
  {
    !(i == 0 && setter.GLimpSetNewMode? && cv.stereoRenderEnable != STEREO3D_QUAD_BUFFER)
  }

  /** Whether attempt `i` asks for stereo: attempt 0 of the GLimp loop under quad-buffer stereo. */
  predicate AttemptStereo(setter: ModeSetter, cv: VideoCVars, i: nat)
  {
    i == 0 && setter.GLimpSetNewMode? && cv.stereoRenderEnable == STEREO3D_QUAD_BUFFER
  }

  /** The parameters attempt `i` hands to the window system when the cvars are `cv`. */
  function AttemptParms(setter: ModeSetter, cv: VideoCVars, i: nat, query: int -> ModeList): ModeParms
    requires RequestParms(cv, query).Request?
  {
    RequestParms(cv, query).parms.(multiSamples := AttemptSamples(setter, cv), stereo := AttemptStereo(setter, cv, i))
  }

  /**
   * The cvars a pass of the loop leaves when the loop goes on: unchanged when
   * the pass is skipped, those of the request after a failed attempt 0, and
   * safe mode after the jump or after a failed attempt 1.
   */
  function AfterFailedPass(setter: ModeSetter, cv: VideoCVars, i: nat, query: int -> ModeList): VideoCVars
  {
    if !AttemptTried(setter, cv, i) then cv
    else match RequestParms(cv, query)
      case SafeModeJump(c) => SafeMode(setter, c)
      case Request(c, _) => if i == 0 then c else SafeMode(setter, c)
  }

  /** The cvars at the head of iteration `i` when every earlier attempt was rejected. */
  function CvarsAt(setter: ModeSetter, cv0: VideoCVars, query: int -> ModeList, i: nat): VideoCVars
    decreases i, 1
  {
    if i == 0 then cv0 else AfterFailedPass(setter, CvarsBefore(setter, cv0, query, i), i - 1, query)
  }

  /** The cvars at the head of the iteration before `i`; unfolding CvarsAt once exposes one pass. */
  function CvarsBefore(setter: ModeSetter, cv0: VideoCVars, query: int -> ModeList, i: nat): VideoCVars
    requires i > 0
    decreases i, 0
  {
    CvarsAt(setter, cv0, query, i - 1)
  }

  /**
   * The mode part of a request is settled: asking again from the cvars it
   * leaves gives the same request, since the display fallback and the
   * r_vidMode reset have already been applied.
   */
  lemma {:induction false} RequestParmsSettles(cv: VideoCVars, query: int -> ModeList)
    requires RequestParms(cv, query).Request?
    ensures RequestParms(RequestParms(cv, query).cvars, query) == RequestParms(cv, query)
  {
    if cv.fullscreen > 0 {
      var cv1 := RequestParms(cv, query).cvars;
      assert DisplayModes(cv1, query).1 == DisplayModes(cv, query).1;
      assert DisplayModes(cv1, query).0 == cv1;
    }
  }

  /**
   * Attempt 1 after a failed attempt 0 asks for the same mode without
   * stereo; when the GLimp loop skips attempt 0, attempt 1 starts from the
   * caller's cvars.
   */
  lemma {:induction false} SecondAttemptDropsOnlyStereo(setter: ModeSetter, cv0: VideoCVars, query: int -> ModeList)
    ensures !AttemptTried(setter, cv0, 0) ==> CvarsAt(setter, cv0, query, 1) == cv0
    ensures AttemptTried(setter, cv0, 0) && RequestParms(cv0, query).Request? ==>
      && RequestParms(CvarsAt(setter, cv0, query, 1), query).Request?
      && AttemptParms(setter, CvarsAt(setter, cv0, query, 1), 1, query)
         == AttemptParms(setter, cv0, 0, query).(stereo := false)
  {
    if AttemptTried(setter, cv0, 0) && RequestParms(cv0, query).Request? {
      RequestParmsSettles(cv0, query);
    }
  }

  /**
   * Attempt 2 starts from safe mode and, when it asks for a mode, asks for
   * the first mode of the first display, fullscreen and without
   * multisampling or stereo.
   */
  lemma {:induction false} LastAttemptIsSafe(setter: ModeSetter, cv0: VideoCVars, query: int -> ModeList)
    ensures IsSafe(setter, CvarsAt(setter, cv0, query, 2))
    ensures var cv2 := CvarsAt(setter, cv0, query, 2);
      RequestParms(cv2, query).Request? ==>
        && |query(0).modes| > 0
        && var p := AttemptParms(setter, cv2, 2, query);
        && p.fullScreen == 1 && p.multiSamples == 0 && !p.stereo
        && VidMode(p.width, p.height, p.displayHz) == query(0).modes[0]
  {
    var cv2 := CvarsAt(setter, cv0, query, 2);
    if RequestParms(cv2, query).Request? {
      assert DisplayModes(cv2, query).1 == query(0).modes;
    }
  }

  /** What one pass of the loop body leaves: the cvars, the call it made if any, and how the loop goes on. */
  datatype Pass = Pass(cvars: VideoCVars, attempt: Option<Attempt>, outcome: ModeOutcome)

  /**
   * What one pass promises: the stereo cvar is untouched; a skipped pass
   * changes nothing; a pass with a mode to ask for makes attempt `i`, whose
   * stereo flag is set only for attempt 0 of the GLimp loop with quad-buffer
   * stereo; the loop stops on an accepted attempt (ModeSet) and on a failed
   * attempt 2 (UnableToInitialize); a pass that goes on from attempt 1 or 2
   * leaves safe-mode cvars; an attempt made in safe mode asks for a
   * fullscreen mode without multisampling; and a fullscreen setting stays
   * fullscreen, its attempts asking for a mode of a display with modes.
   */
  ghost predicate PassFacts(setter: ModeSetter, cv: VideoCVars, i: nat, query: int -> ModeList,
                            accept: (nat, ModeParms) -> bool, p: Pass)
  {
    && p.cvars.stereoRenderEnable == cv.stereoRenderEnable
    && (!AttemptTried(setter, cv, i) ==> p.attempt.None? && p.cvars == cv)
    && (AttemptTried(setter, cv, i) && RequestParms(cv, query).Request? ==> p.attempt.Some?)
    && (p.attempt.None? ==> p.outcome == NoModeSet)
    && (p.attempt.Some? ==>
          && p.attempt.value.index == i
          && p.attempt.value.accepted == accept(i, p.attempt.value.parms)
          && (p.attempt.value.parms.stereo <==>
                i == 0 && setter.GLimpSetNewMode? && cv.stereoRenderEnable == STEREO3D_QUAD_BUFFER)
          && RequestParms(cv, query).Request?
          && p.attempt.value.parms == AttemptParms(setter, cv, i, query))
    && (p.outcome == NoModeSet ==> p.cvars == AfterFailedPass(setter, cv, i, query))
    && (p.attempt.Some? && p.outcome != NoModeSet ==> p.cvars == RequestParms(cv, query).cvars)
    && (p.outcome.ModeSet? <==> p.attempt.Some? && p.attempt.value.accepted)
    && (p.outcome.ModeSet? ==> p.outcome == ModeSet(i, p.attempt.value.parms))
    && (p.outcome == UnableToInitialize <==> p.attempt.Some? && i == 2 && !p.attempt.value.accepted)
    && (p.outcome == NoModeSet && i >= 1 ==> IsSafe(setter, p.cvars))
    && (IsSafe(setter, cv) && p.attempt.Some? ==>
          p.attempt.value.parms.fullScreen == 1 && p.attempt.value.parms.multiSamples == 0)
    && (cv.fullscreen > 0 ==> p.cvars.fullscreen > 0)
    && (cv.fullscreen > 0 && p.attempt.Some? ==>
          p.attempt.value.parms.fullScreen >= 1 && exists d :: |query(d).modes| > 0)
  }

  /**
   * One pass of the retry loop for attempt `i`: skipped, a jump to safe mode
   * on an empty mode list, or one call of the window system.  A failed call is
   * followed by the same settings (after attempt 0), the fatal error (after
   * attempt 2) or safe mode (after attempt 1).
   */
  method LoopPass(setter: ModeSetter, cv: VideoCVars, i: nat, query: int -> ModeList, accept: (nat, ModeParms) -> bool)
    returns (p: Pass)
    requires i < 3
    ensures PassFacts(setter, cv, i, query, accept, p)
  {
    if !AttemptTried(setter, cv, i) {
      return Pass(cv, None, NoModeSet);
    }
    var request := RequestParms(cv, query);
    if request.SafeModeJump? {
      return Pass(SafeMode(setter, request.cvars), None, NoModeSet);
    }
    var parms := AttemptParms(setter, cv, i, query);
    var ok := accept(i, parms);
    var attempt := Some(Attempt(i, parms, ok));
    if IsSafe(setter, cv) {
      SafeModeRequestStaysSafe(setter, cv, query);
    }
    if cv.fullscreen > 0 {
      var d := if query(cv.fullscreen - 1).ok then cv.fullscreen - 1 else 0;
      assert |query(d).modes| > 0;
    }
    if ok {
      p := Pass(request.cvars, attempt, ModeSet(i, parms));
    } else if i == 2 {
      p := Pass(request.cvars, attempt, UnableToInitialize);
    } else if i == 0 {
      p := Pass(request.cvars, attempt, NoModeSet);
    } else {
      p := Pass(SafeMode(setter, request.cvars), attempt, NoModeSet);
    }
  }

  /**
   * What holds of every call the loop makes: it is one of the three
   * attempts, its result is the window system's answer, and it asks for
   * stereo exactly on the GLimp loop's attempt 0 under quad-buffer stereo.
   */
  predicate WellFormedAttempt(setter: ModeSetter, cv0: VideoCVars, accept: (nat, ModeParms) -> bool, a: Attempt)
  {
    && a.index < 3
    && a.accepted == accept(a.index, a.parms)
    && (a.parms.stereo <==> a.index == 0 && setter.GLimpSetNewMode? && cv0.stereoRenderEnable == STEREO3D_QUAD_BUFFER)
    && (a.index == 2 ==> a.parms.fullScreen == 1 && a.parms.multiSamples == 0)
    && (cv0.fullscreen > 0 ==> a.parms.fullScreen >= 1)
  }

  /** Every attempt in the sequence is well formed. */
  predicate AllWellFormed(setter: ModeSetter, cv0: VideoCVars, accept: (nat, ModeParms) -> bool, attempts: seq<Attempt>)
  {
    forall j :: 0 <= j < |attempts| ==> WellFormedAttempt(setter, cv0, accept, attempts[j])
  }

  /** Every attempt in the sequence was made before iteration `i`. */
  predicate AllBelow(attempts: seq<Attempt>, i: nat)
  {
    forall j :: 0 <= j < |attempts| ==> attempts[j].index < i
  }

  lemma AppendKeepsWellFormed(setter: ModeSetter, cv0: VideoCVars, accept: (nat, ModeParms) -> bool, attempts: seq<Attempt>, a: Attempt)
    requires AllWellFormed(setter, cv0, accept, attempts) && WellFormedAttempt(setter, cv0, accept, a)
    ensures AllWellFormed(setter, cv0, accept, attempts + [a])
  {
  }

  /** Attempt numbers strictly increase along the sequence of attempts. */
  predicate Increasing(attempts: seq<Attempt>)
  {
    forall j, k :: 0 <= j < k < |attempts| ==> attempts[j].index < attempts[k].index
  }

  /** Every attempt was rejected and none was the last-chance attempt 2. */
  predicate AllRejectedBefore2(attempts: seq<Attempt>)
  {
    forall j :: 0 <= j < |attempts| ==> !attempts[j].accepted && attempts[j].index != 2
  }

  /** No attempt in the sequence is attempt 0. */
  predicate NoAttemptZero(attempts: seq<Attempt>)
  {
    forall j :: 0 <= j < |attempts| ==> attempts[j].index != 0
  }

  lemma AppendKeepsRejected(attempts: seq<Attempt>, a: Attempt)
    requires AllRejectedBefore2(attempts) && !a.accepted && a.index != 2
    ensures AllRejectedBefore2(attempts + [a])
  {
  }

  lemma AppendKeepsNoZero(attempts: seq<Attempt>, a: Attempt)
    requires NoAttemptZero(attempts) && a.index != 0
    ensures NoAttemptZero(attempts + [a])
  {
  }

  lemma AppendKeepsIncreasing(attempts: seq<Attempt>, a: Attempt)
    requires Increasing(attempts)
    requires AllBelow(attempts, a.index)
    ensures Increasing(attempts + [a])
  {
  }

  /**
   * What the retry loop promises: at most three attempts, each well formed
   * and in increasing order; every attempt but the last was rejected; a mode
   * is set exactly when the last attempt was accepted, and it is that
   * attempt's mode; the fatal error is raised exactly when attempt 2 failed;
   * running out of attempts leaves safe-mode cvars; attempt 0 is made when it
   * is due and has a mode to ask for, and never when it is not due; and a
   * fullscreen setting only asks for modes when some display has modes.
   */
  ghost predicate AttemptsSpec(setter: ModeSetter, cv0: VideoCVars, query: int -> ModeList,
                                 accept: (nat, ModeParms) -> bool, cv: VideoCVars, attempts: seq<Attempt>,
                                 outcome: ModeOutcome)
  {
    && |attempts| <= 3
    && AllWellFormed(setter, cv0, accept, attempts)
    && Increasing(attempts)
    && (forall j :: 0 <= j < |attempts| - 1 ==> !attempts[j].accepted)
    && (outcome.ModeSet? <==> |attempts| > 0 && attempts[|attempts| - 1].accepted)
    && (outcome.ModeSet? ==>
         outcome == ModeSet(attempts[|attempts| - 1].index, attempts[|attempts| - 1].parms))
    && (outcome == UnableToInitialize <==>
         |attempts| > 0 && attempts[|attempts| - 1].index == 2 && !attempts[|attempts| - 1].accepted)
    && (outcome == NoModeSet ==> IsSafe(setter, cv))
    && (!AttemptTried(setter, cv0, 0) ==> NoAttemptZero(attempts))
    && (AttemptTried(setter, cv0, 0) && RequestParms(cv0, query).Request? ==>
         |attempts| > 0 && attempts[0].index == 0)
    && (cv0.fullscreen > 0 && |attempts| > 0 ==> exists d :: |query(d).modes| > 0)
    && AllAsked(setter, cv0, query, attempts)
    && (outcome != NoModeSet ==>
         |attempts| > 0
         && cv == RequestParms(CvarsAt(setter, cv0, query, attempts[|attempts| - 1].index), query).cvars)
    && (outcome == NoModeSet ==> cv == CvarsAt(setter, cv0, query, 3))
  }

  /**
   * What the retry loop promises (AttemptsSpec), and that the attempts made
   * are exactly the due passes up to the one that stopped the loop, or all
   * three passes when it ran out: no pass that had a mode to ask for was
   * passed over.
   */
  ghost predicate SetNewModeSpec(setter: ModeSetter, cv0: VideoCVars, query: int -> ModeList,
                                 accept: (nat, ModeParms) -> bool, cv: VideoCVars, attempts: seq<Attempt>,
                                 outcome: ModeOutcome)
  {
    && AttemptsSpec(setter, cv0, query, accept, cv, attempts, outcome)
    && (outcome == NoModeSet ==> Indices(attempts) == DuePasses(setter, cv0, query, 3))
    && (outcome != NoModeSet ==>
         |attempts| > 0 && Indices(attempts) == DuePasses(setter, cv0, query, attempts[|attempts| - 1].index + 1))
  }

  /**
   * Every attempt asks for what its iteration's cvars request: attempt `k`
   * is made from CvarsAt(k), which has a mode to ask for.
   */
  ghost predicate AllAsked(setter: ModeSetter, cv0: VideoCVars, query: int -> ModeList, attempts: seq<Attempt>)
  {
    forall j :: 0 <= j < |attempts| ==>
      && RequestParms(CvarsAt(setter, cv0, query, attempts[j].index), query).Request?
      && attempts[j].parms == AttemptParms(setter, CvarsAt(setter, cv0, query, attempts[j].index), attempts[j].index, query)
  }

  /**
   * Whether pass `k`, reached with every earlier attempt rejected, calls the
   * window system: the pass is tried and its cvars have a mode to ask for.
   */
  ghost predicate Due(setter: ModeSetter, cv0: VideoCVars, query: int -> ModeList, k: nat)
  {
    var cv := CvarsAt(setter, cv0, query, k);
    AttemptTried(setter, cv, k) && RequestParms(cv, query).Request?
  }

  /** The due passes below `n`, in order. */
  ghost function DuePasses(setter: ModeSetter, cv0: VideoCVars, query: int -> ModeList, n: nat): seq<nat>
  {
    if n == 0 then [] else DuePasses(setter, cv0, query, n - 1) + (if Due(setter, cv0, query, n - 1) then [n - 1] else [])
  }

  /** The attempt numbers of a list of attempts, in order. */
  function Indices(attempts: seq<Attempt>): seq<nat>
  {
    seq(|attempts|, j requires 0 <= j < |attempts| => attempts[j].index)
  }

  lemma {:induction false} IndicesAppend(attempts: seq<Attempt>, a: Attempt)
    ensures Indices(attempts + [a]) == Indices(attempts) + [a.index]
  {
    assert (attempts + [a])[..|attempts|] == attempts;
  }

  /** The attempts made so far stay the due passes after one more pass. */
  lemma {:induction false} DuePassesStep(setter: ModeSetter, cv0: VideoCVars, query: int -> ModeList,
                         i: nat, cv: VideoCVars, attempts: seq<Attempt>, made: Option<Attempt>)
    requires cv == CvarsAt(setter, cv0, query, i)
    requires Indices(attempts) == DuePasses(setter, cv0, query, i)
    requires made.Some? <==> AttemptTried(setter, cv, i) && RequestParms(cv, query).Request?
    requires made.Some? ==> made.value.index == i
    ensures Indices(attempts + AttemptMade(made)) == DuePasses(setter, cv0, query, i + 1)
  {
    if made.Some? {
      IndicesAppend(attempts, made.value);
    } else {
      assert attempts + AttemptMade(made) == attempts;
    }
  }

  /** What holds at the head of the retry loop before iteration `i`, apart from which passes were made. */
  ghost predicate LoopInvCore(setter: ModeSetter, cv0: VideoCVars, query: int -> ModeList,
                          accept: (nat, ModeParms) -> bool, i: nat, cv: VideoCVars, attempts: seq<Attempt>)
  {
    && i <= 3
    && |attempts| <= i
    && AllWellFormed(setter, cv0, accept, attempts) && AllBelow(attempts, i)
    && Increasing(attempts)
    && AllRejectedBefore2(attempts)
    && (!AttemptTried(setter, cv0, 0) ==> NoAttemptZero(attempts))
    && cv == CvarsAt(setter, cv0, query, i)
    && AllAsked(setter, cv0, query, attempts)
    && (i >= 2 ==> IsSafe(setter, cv))
    && (i >= 1 && AttemptTried(setter, cv0, 0) && RequestParms(cv0, query).Request? ==>
          |attempts| > 0 && attempts[0].index == 0)
    && (cv0.fullscreen > 0 ==> cv.fullscreen > 0)
    && (cv0.fullscreen > 0 && |attempts| > 0 ==> exists d :: |query(d).modes| > 0)
  }

  /** What holds at the head of the retry loop before iteration `i`: the attempts so far are the due passes below `i`. */
  ghost predicate LoopInv(setter: ModeSetter, cv0: VideoCVars, query: int -> ModeList,
                          accept: (nat, ModeParms) -> bool, i: nat, cv: VideoCVars, attempts: seq<Attempt>)
  {
    && LoopInvCore(setter, cv0, query, accept, i, cv, attempts)
    && Indices(attempts) == DuePasses(setter, cv0, query, i)
  }

  /** The attempts a pass adds to the list: its call, if it made one. */
  function AttemptMade(a: Option<Attempt>): seq<Attempt>
  {
    if a.Some? then [a.value] else []
  }

  /** An attempt made from its iteration's cvars extends a list of such attempts. */
  lemma {:induction false} AppendKeepsAsked(setter: ModeSetter, cv0: VideoCVars, query: int -> ModeList, attempts: seq<Attempt>, a: Attempt)
    requires AllAsked(setter, cv0, query, attempts)
    requires RequestParms(CvarsAt(setter, cv0, query, a.index), query).Request?
    requires a.parms == AttemptParms(setter, CvarsAt(setter, cv0, query, a.index), a.index, query)
    ensures AllAsked(setter, cv0, query, attempts + [a])
  {
    forall j | 0 <= j < |attempts + [a]|
      ensures RequestParms(CvarsAt(setter, cv0, query, (attempts + [a])[j].index), query).Request?
    {
      if j < |attempts| {
        assert (attempts + [a])[j] == attempts[j];
      }
    }
  }

  /** One pass seen from the loop: it keeps the loop's invariant, or it stops the loop with the promise fulfilled. */
  lemma {:induction false} PassStep(setter: ModeSetter, cv0: VideoCVars, query: int -> ModeList,
                         accept: (nat, ModeParms) -> bool, i: nat, cv: VideoCVars, attempts: seq<Attempt>, p: Pass)
    requires i < 3 && LoopInv(setter, cv0, query, accept, i, cv, attempts)
    requires PassFacts(setter, cv, i, query, accept, p)
    ensures p.outcome == NoModeSet ==>
      LoopInv(setter, cv0, query, accept, i + 1, p.cvars, attempts + AttemptMade(p.attempt))
    ensures p.outcome != NoModeSet ==>
      SetNewModeSpec(setter, cv0, query, accept, p.cvars, attempts + AttemptMade(p.attempt), p.outcome)
  {
    if p.outcome == NoModeSet {
      StepKeepsLoopInv(setter, cv0, query, accept, i, cv, attempts, p);
    } else {
      StepEndsLoop(setter, cv0, query, accept, i, cv, attempts, p);
    }
  }

  /** A pass after which the loop goes on keeps the loop's invariant. */
  lemma {:induction false} StepKeepsLoopInv(setter: ModeSetter, cv0: VideoCVars, query: int -> ModeList,
                         accept: (nat, ModeParms) -> bool, i: nat, cv: VideoCVars, attempts: seq<Attempt>, p: Pass)
    requires i < 3 && LoopInv(setter, cv0, query, accept, i, cv, attempts)
    requires PassFacts(setter, cv, i, query, accept, p) && p.outcome == NoModeSet
    ensures LoopInv(setter, cv0, query, accept, i + 1, p.cvars, attempts + AttemptMade(p.attempt))
  {
    DuePassesStep(setter, cv0, query, i, cv, attempts, p.attempt);
    if p.attempt.Some? {
      FailedAttemptKeepsLoopInv(setter, cv0, query, accept, i, cv, attempts, p);
    } else {
      SkippedPassKeepsLoopInv(setter, cv0, query, accept, i, cv, attempts, p);
      assert attempts + AttemptMade(p.attempt) == attempts;
    }
  }

  /** A pass that made no call keeps the core of the loop's invariant. */
  lemma {:induction false} SkippedPassKeepsLoopInv(setter: ModeSetter, cv0: VideoCVars, query: int -> ModeList,
                         accept: (nat, ModeParms) -> bool, i: nat, cv: VideoCVars, attempts: seq<Attempt>, p: Pass)
    requires i < 3 && LoopInvCore(setter, cv0, query, accept, i, cv, attempts)
    requires PassFacts(setter, cv, i, query, accept, p) && p.outcome == NoModeSet && p.attempt.None?
    ensures LoopInvCore(setter, cv0, query, accept, i + 1, p.cvars, attempts)
  {
  }

  /** A rejected attempt keeps the core of the loop's invariant. */
  lemma {:induction false} FailedAttemptKeepsLoopInv(setter: ModeSetter, cv0: VideoCVars, query: int -> ModeList,
                         accept: (nat, ModeParms) -> bool, i: nat, cv: VideoCVars, attempts: seq<Attempt>, p: Pass)
    requires i < 3 && LoopInvCore(setter, cv0, query, accept, i, cv, attempts)
    requires PassFacts(setter, cv, i, query, accept, p) && p.outcome == NoModeSet && p.attempt.Some?
    ensures LoopInvCore(setter, cv0, query, accept, i + 1, p.cvars, attempts + [p.attempt.value])
  {
    var a := p.attempt.value;
    AppendKeepsIncreasing(attempts, a);
    AppendKeepsWellFormed(setter, cv0, accept, attempts, a);
    AppendKeepsRejected(attempts, a);
    AppendKeepsAsked(setter, cv0, query, attempts, a);
    if !AttemptTried(setter, cv0, 0) {
      AppendKeepsNoZero(attempts, a);
    }
  }

  /** A pass that stops the loop leaves the loop's promise fulfilled. */
  lemma {:induction false} StepEndsLoop(setter: ModeSetter, cv0: VideoCVars, query: int -> ModeList,
                     accept: (nat, ModeParms) -> bool, i: nat, cv: VideoCVars, attempts: seq<Attempt>, p: Pass)
    requires i < 3 && LoopInv(setter, cv0, query, accept, i, cv, attempts)
    requires PassFacts(setter, cv, i, query, accept, p) && p.outcome != NoModeSet
    ensures p.attempt.Some?
    ensures SetNewModeSpec(setter, cv0, query, accept, p.cvars, attempts + [p.attempt.value], p.outcome)
  {
    DuePassesStep(setter, cv0, query, i, cv, attempts, p.attempt);
    StepEndsAttempts(setter, cv0, query, accept, i, cv, attempts, p);
  }

  /** A pass that stops the loop leaves the promise about the attempts fulfilled. */
  lemma {:induction false} StepEndsAttempts(setter: ModeSetter, cv0: VideoCVars, query: int -> ModeList,
                     accept: (nat, ModeParms) -> bool, i: nat, cv: VideoCVars, attempts: seq<Attempt>, p: Pass)
    requires i < 3 && LoopInvCore(setter, cv0, query, accept, i, cv, attempts)
    requires PassFacts(setter, cv, i, query, accept, p) && p.outcome != NoModeSet
    ensures p.attempt.Some?
    ensures AttemptsSpec(setter, cv0, query, accept, p.cvars, attempts + [p.attempt.value], p.outcome)
  {
    var a := p.attempt.value;
    AppendKeepsIncreasing(attempts, a);
    AppendKeepsWellFormed(setter, cv0, accept, attempts, a);
    AppendKeepsAsked(setter, cv0, query, attempts, a);
    if !AttemptTried(setter, cv0, 0) {
      AppendKeepsNoZero(attempts, a);
    }
  }

  /** Before the first pass nothing has been tried and the cvars are the caller's. */
  lemma {:induction false} LoopStarts(setter: ModeSetter, cv0: VideoCVars, query: int -> ModeList,
                      accept: (nat, ModeParms) -> bool)
    ensures LoopInv(setter, cv0, query, accept, 0, cv0, [])
  {
  }

  /** Three passes without a stop leave the promise fulfilled with no mode set. */
  lemma {:induction false} LoopExhausted(setter: ModeSetter, cv0: VideoCVars, query: int -> ModeList,
                      accept: (nat, ModeParms) -> bool, cv: VideoCVars, attempts: seq<Attempt>)
    requires LoopInv(setter, cv0, query, accept, 3, cv, attempts)
    ensures SetNewModeSpec(setter, cv0, query, accept, cv, attempts, NoModeSet)
  {
  }

  /**
   * The retry loop of R_SetNewMode (GLimp) and SetNewMode (Vulkan).  Up to
   * three attempts: attempt 0 (stereo if asked for), attempt 1 with the same
   * settings without stereo, attempt 2 after falling back to safe mode.  The
   * loop stops at the first accepted attempt, and a failed third attempt is
   * fatal.  `accept` is the window system's answer (GLimp_Init or
   * GLimp_SetScreenParms in the GLimp loop, SetScreenParms in the Vulkan one).
   * The r_vidMode reset is the corrected one (see VidModeIndexAsWritten).
   */
  method SetNewMode(setter: ModeSetter, cv0: VideoCVars, query: int -> ModeList, accept: (nat, ModeParms) -> bool)
    returns (cv: VideoCVars, attempts: seq<Attempt>, outcome: ModeOutcome)
    ensures SetNewModeSpec(setter, cv0, query, accept, cv, attempts, outcome)
  {
    cv := cv0;
    attempts := [];
    outcome := NoModeSet;
    var i: nat := 0;
    LoopStarts(setter, cv0, query, accept);
    while i < 3
      invariant LoopInv(setter, cv0, query, accept, i, cv, attempts)
      invariant outcome == NoModeSet
    {
      var pass := LoopPass(setter, cv, i, query, accept);
      PassStep(setter, cv0, query, accept, i, cv, attempts, pass);
      cv, attempts := pass.cvars, attempts + AttemptMade(pass.attempt);
      if pass.outcome != NoModeSet {
        outcome := pass.outcome;
        return;
      }
      i := i + 1;
    }
    LoopExhausted(setter, cv0, query, accept, cv, attempts);
  }

  /**
   * A window system that rejects every attempt ends the loop in the fatal
   * error whenever the first display has modes: attempt 2, made from safe
   * mode, is then always due, and it fails.
   */
  lemma {:induction false} RejectingEveryAttemptIsFatal(setter: ModeSetter, cv0: VideoCVars, query: int -> ModeList,
                         accept: (nat, ModeParms) -> bool, cv: VideoCVars, attempts: seq<Attempt>, outcome: ModeOutcome)
    requires forall i: nat, parms: ModeParms :: !accept(i, parms)
    requires |query(0).modes| > 0
    requires SetNewModeSpec(setter, cv0, query, accept, cv, attempts, outcome)
    ensures outcome == UnableToInitialize
  {
    LastAttemptIsSafe(setter, cv0, query);
    var cv2 := CvarsAt(setter, cv0, query, 2);
    assert DisplayModes(cv2, query).1 == query(0).modes;
    assert DuePasses(setter, cv0, query, 3) == DuePasses(setter, cv0, query, 2) + [2];
    assert outcome == NoModeSet ==> 2 in Indices(attempts);
    if |attempts| > 0 {
      assert WellFormedAttempt(setter, cv0, accept, attempts[|attempts| - 1]);
    }
  }

  /** SetScreenParms: the Vulkan back end accepts every set of parameters. */
  function SetScreenParms(parms: ModeParms): (ok: bool)
    ensures ok
  {
    true
  }

  /**
   * The Vulkan render system's SetNewMode: every call of SetScreenParms
   * succeeds, so the loop ends at its first attempt whenever that attempt
   * has a mode to ask for.
   */
  method SetNewModeVulkan(cv0: VideoCVars, query: int -> ModeList)
    returns (cv: VideoCVars, attempts: seq<Attempt>, outcome: ModeOutcome)
    ensures outcome != UnableToInitialize
    ensures RequestParms(cv0, query).Request? ==> outcome.ModeSet? && outcome.index == 0 && |attempts| == 1
    ensures RequestParms(cv0, query).Request? ==>
      && outcome == ModeSet(0, RequestParms(cv0, query).parms.(multiSamples := cv0.multiSamples, stereo := false))
      && cv == RequestParms(cv0, query).cvars
    ensures outcome == NoModeSet ==> IsSafe(VulkanSetNewMode, cv) && attempts == []
  {
    cv, attempts, outcome := SetNewMode(VulkanSetNewMode, cv0, query, (i: nat, p: ModeParms) => SetScreenParms(p));
    if |attempts| > 0 {
      assert attempts[0].accepted;
    }
  }

  /**
   * A fullscreen setting on a machine whose every mode list is empty: all
   * three iterations jump to safe mode, no mode is set, and no error is
   * raised.
   */
  method EmptyModeListsSetNoMode(setter: ModeSetter, cv0: VideoCVars, accept: (nat, ModeParms) -> bool)
    returns (outcome: ModeOutcome)
    requires cv0.fullscreen > 0
    ensures outcome == NoModeSet
  {
    var query := (display: int) => ModeList(true, []);
    var cv, attempts;
    cv, attempts, outcome := SetNewMode(setter, cv0, query, accept);
  }

  /**
   * A window system that refuses every mode, on a machine whose displays
   * list one mode each: whatever the cvars, the loop makes every due attempt
   * and the failed attempt 2 raises the fatal error.
   */
  method RejectedModesAreFatal(setter: ModeSetter, cv0: VideoCVars)
    returns (outcome: ModeOutcome)
    ensures outcome == UnableToInitialize
  {
    var query := (display: int) => ModeList(true, [VidMode(640, 480, 60)]);
    var accept := (i: nat, parms: ModeParms) => false;
    var cv, attempts;
    cv, attempts, outcome := SetNewMode(setter, cv0, query, accept);
    RejectingEveryAttemptIsFatal(setter, cv0, query, accept, cv, attempts, outcome);
  }

  /**
   * R_GetModeParms: the parameters of one attempt for the Vulkan back end,
   * with r_multiSamples; an empty mode list is fatal here.
   */
  function GetModeParms(cv: VideoCVars, query: int -> ModeList): (r: ModeParmsResult)
    ensures r == NoModesAvailable <==> RequestParms(cv, query).SafeModeJump?
    ensures r.ModeParmsFor? ==> r.parms.multiSamples == cv.multiSamples && !r.parms.stereo
    ensures r.ModeParmsFor? ==> r.cvars == RequestParms(cv, query).cvars
  {
    match RequestParms(cv, query)
    case SafeModeJump(_) => NoModesAvailable
    case Request(cv1, parms) => ModeParmsFor(cv1, parms.(multiSamples := cv.multiSamples))
  }
}
