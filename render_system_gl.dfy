/**
 * The OpenGL build's render-system helpers around the screenshot path: the
 * argument handling of the `screenshot` command, the `sizeUp`/`sizeDown`
 * key bindings on r_screenFraction, the screen size seen through the stereo
 * mode, and the integer stage of the Van der Corput radical inverse.
 */
module RenderSystemGl {
  import opened ScreenshotGl
  import opened VideoModes
  import opened BufferObjects

  // ---------------------------------------------------------------- screenshot command

  /** What R_ScreenShot_f does: print its usage, or take a PNG screenshot of this size and blend count. */
  datatype ScreenShotCommand = Usage | TakeShot(width: int, height: int, blends: int)

  /**
   * R_ScreenShot_f's argument handling.  `argc` counts the command name;
   * `a1`, `a2` and `a3` are atoi of the first three arguments (read only
   * where the source reads them as numbers); `screenW` x `screenH` is
   * GetWidth() x GetHeight().  The blend count is clamped to
   * [1, MAX_BLENDS].
   */
  function ScreenShotArgs(argc: nat, a1: int, a2: int, a3: int, screenW: int, screenH: int): (cmd: ScreenShotCommand)
    ensures cmd.TakeShot? <==> 1 <= argc <= 4
    ensures cmd.TakeShot? ==> 1 <= cmd.blends <= MAX_BLENDS
    ensures cmd.TakeShot? && argc <= 3 ==> cmd.blends == 1
    ensures argc == 4 && 1 <= a3 <= MAX_BLENDS ==> cmd.blends == a3
    ensures argc == 4 && a3 < 1 ==> cmd.blends == 1
    ensures argc == 4 && a3 > MAX_BLENDS ==> cmd.blends == MAX_BLENDS
    ensures cmd.TakeShot? && argc <= 2 ==> cmd.width == screenW && cmd.height == screenH
    ensures cmd.TakeShot? && argc >= 3 ==> cmd.width == a1 && cmd.height == a2
  {
    if argc == 1 || argc == 2 then TakeShot(screenW, screenH, 1)
    else if argc == 3 then TakeShot(a1, a2, 1)
    else if argc == 4 then
      var b := if a3 < 1 then 1 else a3;
      TakeShot(a1, a2, if b > MAX_BLENDS then MAX_BLENDS else b)
    else Usage
  }

  /**
   * Whatever the arguments, a blended screenshot the command asks for
   * averages its passes exactly: the unsigned-short accumulator never wraps
   * and every output byte is the rounded-down mean of the passes.
   */
  lemma ScreenShotBlendIsMean(argc: nat, a1: int, a2: int, a3: int, screenW: int, screenH: int,
                              images: seq<seq<byte>>, n: nat, j: nat)
    requires ScreenShotArgs(argc, a1, a2, a3, screenW, screenH).TakeShot?
    requires |images| == ScreenShotArgs(argc, a1, a2, a3, screenW, screenH).blends
    requires SameSize(images, n) && j < n
    ensures Average(images, n)[j] as int == Sum(images, j) / |images|
    ensures Average(images, n)[j] as int <= 255
  {
    AverageIsMean(images, n, j);
  }

  // ---------------------------------------------------------------- stencil shot

  /**
   * The file R_StencilShot writes: a zeroed TGA header filled in as for a
   * screenshot, then every stencil byte repeated as the three colour bytes of
   * its pixel, a grey level.
   */
  function StencilFile(width: nat, height: nat, stencil: seq<byte>): (file: seq<byte>)
    requires |stencil| == width * height
    ensures |file| == TGA_HEADER_SIZE + 3 * |stencil|
  {
    WithTgaHeader(seq(TGA_HEADER_SIZE, _ => 0) + seq(3 * |stencil|, k requires 0 <= k < 3 * |stencil| => stencil[k / 3]), width, height)
  }

  /** Every pixel of a stencil shot is grey with the stencil value, behind a 24-bit type-2 header. */
  lemma StencilFilePixels(width: nat, height: nat, stencil: seq<byte>, i: nat)
    requires |stencil| == width * height && i < |stencil|
    ensures var file := StencilFile(width, height, stencil);
      && file[2] == 2 && file[16] == 24
      && HeaderField(file, 12) == width % 0x1_0000 && HeaderField(file, 14) == height % 0x1_0000
      && file[TGA_HEADER_SIZE + 3 * i] == file[TGA_HEADER_SIZE + 3 * i + 1] == file[TGA_HEADER_SIZE + 3 * i + 2] == stencil[i]
  {
    var body := seq(TGA_HEADER_SIZE, _ => 0) + seq(3 * |stencil|, k requires 0 <= k < 3 * |stencil| => stencil[k / 3]);
    TgaHeaderFields(body, width, height);
    TgaHeaderKeepsPixels(body, width, height);
    var file := StencilFile(width, height, stencil);
    assert file[TGA_HEADER_SIZE..] == body[TGA_HEADER_SIZE..];
    assert file[TGA_HEADER_SIZE + 3 * i] == body[TGA_HEADER_SIZE + 3 * i];
    assert file[TGA_HEADER_SIZE + 3 * i + 1] == body[TGA_HEADER_SIZE + 3 * i + 1];
    assert file[TGA_HEADER_SIZE + 3 * i + 2] == body[TGA_HEADER_SIZE + 3 * i + 2];
  }

  /** The pixel of colour byte 3 * i + r is pixel i. */
  lemma ThirdOf(i: nat, r: nat)
    requires r < 3
    ensures (3 * i + r) / 3 == i
  {
  }

  /**
   * R_StencilShot: the header bytes zeroed, each stencil byte (what
   * glReadPixels returns for GL_STENCIL_INDEX) stored three times, then the
   * header filled in.
   */
  method StencilShot(width: nat, height: nat, stencil: seq<byte>, uninit: seq<byte>) returns (file: seq<byte>)
    requires |stencil| == width * height && |uninit| == TGA_HEADER_SIZE + 3 * |stencil|
    ensures file == StencilFile(width, height, stencil)
  {
    var pix := |stencil|;
    var buffer := new byte[TGA_HEADER_SIZE + 3 * pix](k requires 0 <= k < |uninit| => uninit[k]);
    forall k | 0 <= k < TGA_HEADER_SIZE {
      buffer[k] := 0;
    }
    var i := 0;
    while i < pix
      invariant 0 <= i <= pix
      invariant forall k :: 0 <= k < TGA_HEADER_SIZE ==> buffer[k] == 0
      invariant forall k :: 0 <= k < 3 * i ==> buffer[TGA_HEADER_SIZE + k] == stencil[k / 3]
    {
      buffer[TGA_HEADER_SIZE + i * 3] := stencil[i];
      buffer[TGA_HEADER_SIZE + i * 3 + 1] := stencil[i];
      buffer[TGA_HEADER_SIZE + i * 3 + 2] := stencil[i];
      forall k | 3 * i <= k < 3 * (i + 1)
        ensures buffer[TGA_HEADER_SIZE + k] == stencil[k / 3]
      {
        ThirdOf(i, k - 3 * i);
      }
      i := i + 1;
    }
    assert buffer[..] == seq(TGA_HEADER_SIZE, _ => 0) + seq(3 * pix, k requires 0 <= k < 3 * pix => stencil[k / 3]);
    FillTgaHeader(buffer, width, height);
    file := buffer[..];
  }

  // ---------------------------------------------------------------- r_screenFraction

  /** The value R_SizeUp_f leaves in r_screenFraction: ten more, capped at 100. */
  function SizeUp(fraction: int): (r: int)
    ensures r <= 100
    ensures fraction <= 90 ==> r == fraction + 10
    ensures fraction > 90 ==> r == 100
  {
    if fraction + 10 > 100 then 100 else fraction + 10
  }

  /** The value R_SizeDown_f leaves in r_screenFraction: ten less, floored at 10. */
  function SizeDown(fraction: int): (r: int)
    ensures r >= 10
    ensures fraction >= 20 ==> r == fraction - 10
    ensures fraction < 20 ==> r == 10
  {
    if fraction - 10 < 10 then 10 else fraction - 10
  }

  /** The key bindings keep a fraction in [10, 100] inside it, and move it by at most ten. */
  lemma SizeStepsStayInRange(fraction: int)
    requires 10 <= fraction <= 100
    ensures 10 <= SizeUp(fraction) <= 100 && 10 <= SizeDown(fraction) <= 100
    ensures fraction <= SizeUp(fraction) <= fraction + 10
    ensures fraction - 10 <= SizeDown(fraction) <= fraction
  {
  }

  /** Away from the bounds, sizeDown undoes sizeUp and sizeUp undoes sizeDown. */
  lemma SizeStepsUndoEachOther(fraction: int)
    requires 10 <= fraction <= 100
    ensures fraction <= 90 ==> SizeDown(SizeUp(fraction)) == fraction
    ensures fraction >= 20 ==> SizeUp(SizeDown(fraction)) == fraction
  {
  }

  /** Enough presses reach the cap: from a fraction in [10, 100], `presses` sizeUp commands that add up to 100 give 100. */
  lemma {:induction false} SizeUpReachesFull(fraction: int, presses: nat)
    requires 10 <= fraction <= 100 && fraction + 10 * presses >= 100
    ensures SizeUpTimes(fraction, presses) == 100
    decreases presses
  {
    if presses > 0 {
      if fraction + 10 > 100 {
        SizeUpStaysFull(SizeUp(fraction), presses - 1);
      } else {
        SizeUpReachesFull(fraction + 10, presses - 1);
      }
    }
  }

  /** r_screenFraction after `presses` sizeUp commands. */
  function SizeUpTimes(fraction: int, presses: nat): int
    decreases presses
  {
    if presses == 0 then fraction else SizeUpTimes(SizeUp(fraction), presses - 1)
  }

  lemma {:induction false} SizeUpStaysFull(fraction: int, presses: nat)
    requires fraction == 100
    ensures SizeUpTimes(fraction, presses) == 100
    decreases presses
  {
    if presses > 0 {
      SizeUpStaysFull(SizeUp(fraction), presses - 1);
    }
  }

  /** The r_screenFraction cvar the two key bindings update. */
  class ScreenFraction {
    var value: int

    constructor (initial: int)
      ensures value == initial
    {
      value := initial;
    }

    /** R_SizeUp_f. */
    method SizeUpCommand()
      modifies this
      ensures value == SizeUp(old(value))
    {
      if value + 10 > 100 {
        value := 100;
      } else {
        value := value + 10;
      }
    }

    /** R_SizeDown_f. */
    method SizeDownCommand()
      modifies this
      ensures value == SizeDown(old(value))
    {
      if value - 10 < 10 {
        value := 10;
      } else {
        value := value - 10;
      }
    }
  }

  // ---------------------------------------------------------------- stereo screen size

  /** Side-by-side modes split the screen's width between the eyes. */
  predicate SideBySide(mode: StereoMode)
  {
    mode == STEREO3D_SIDE_BY_SIDE || mode == STEREO3D_SIDE_BY_SIDE_COMPRESSED
  }

  /** `x >> 1` on a C int: an arithmetic shift, which rounds toward minus infinity. */
  function Half(x: int): (r: int)
    ensures 2 * r <= x < 2 * r + 2
  {
    x / 2
  }

  /** idRenderSystemLocal::GetWidth: half the native width for side-by-side modes. */
  function GetWidth(mode: StereoMode, nativeWidth: int): (w: int)
    ensures SideBySide(mode) ==> 2 * w <= nativeWidth < 2 * w + 2
    ensures !SideBySide(mode) ==> w == nativeWidth
  {
    if SideBySide(mode) then Half(nativeWidth) else nativeWidth
  }

  /**
   * idRenderSystemLocal::GetHeight: 720 for the HDMI 720p frame-packed mode,
   * half the native width for warped side-by-side (a square view per eye),
   * half the native height for interlaced and top-and-bottom, and the native
   * height otherwise.  `warp` is stereoRender_warp.
   */
  function GetHeight(mode: StereoMode, warp: bool, nativeWidth: int, nativeHeight: int): (h: int)
    ensures mode == STEREO3D_HDMI_720 ==> h == 720
    ensures mode == STEREO3D_SIDE_BY_SIDE && warp ==> 2 * h <= nativeWidth < 2 * h + 2
    ensures mode in {STEREO3D_INTERLACED, STEREO3D_TOP_AND_BOTTOM_COMPRESSED} ==> 2 * h <= nativeHeight < 2 * h + 2
    ensures mode in {STEREO3D_OFF, STEREO3D_SIDE_BY_SIDE_COMPRESSED, STEREO3D_QUAD_BUFFER} ==> h == nativeHeight
    ensures mode == STEREO3D_SIDE_BY_SIDE && !warp ==> h == nativeHeight
  {
    if mode == STEREO3D_HDMI_720 then 720
    else if mode == STEREO3D_SIDE_BY_SIDE && warp then Half(nativeWidth)
    else if mode == STEREO3D_INTERLACED || mode == STEREO3D_TOP_AND_BOTTOM_COMPRESSED then Half(nativeHeight)
    else nativeHeight
  }

  /** A warped side-by-side view is square: each eye's width equals the height. */
  lemma WarpedSideBySideIsSquare(nativeWidth: int, nativeHeight: int)
    ensures GetWidth(STEREO3D_SIDE_BY_SIDE, nativeWidth) == GetHeight(STEREO3D_SIDE_BY_SIDE, true, nativeWidth, nativeHeight)
  {
  }

  /** The parts of glConfig that the screen size depends on. */
  class GlConfig {
    var nativeScreenWidth: int
    var nativeScreenHeight: int
    var stereo3Dmode: StereoMode

    constructor (width: int, height: int)
      ensures nativeScreenWidth == width && nativeScreenHeight == height && stereo3Dmode == STEREO3D_OFF
    {
      nativeScreenWidth, nativeScreenHeight := width, height;
      stereo3Dmode := STEREO3D_OFF;
    }

    /**
     * idRenderSystemLocal::UpdateStereo3DMode: a 1280 x 1470 screen is an
     * HDMI 1.4 720p frame-packed display; otherwise the mode is
     * stereoRender_enable (stereo rendering is always reported supported).
     */
    method UpdateStereo3DMode(stereoRenderEnable: StereoMode)
      modifies this`stereo3Dmode
      ensures nativeScreenWidth == 1280 && nativeScreenHeight == 1470 ==> stereo3Dmode == STEREO3D_HDMI_720
      ensures !(nativeScreenWidth == 1280 && nativeScreenHeight == 1470) ==> stereo3Dmode == stereoRenderEnable
    {
      if nativeScreenWidth == 1280 && nativeScreenHeight == 1470 {
        stereo3Dmode := STEREO3D_HDMI_720;
      } else {
        stereo3Dmode := stereoRenderEnable;
      }
    }
  }

  /**
   * A 1280 x 1470 frame-packed display renders each eye at 1280 x 720,
   * whatever stereoRender_enable and stereoRender_warp say.
   */
  method FramePackedDisplaySize(stereoRenderEnable: StereoMode, warp: bool) returns (width: int, height: int)
    ensures width == 1280 && height == 720
  {
    var cfg := new GlConfig(1280, 1470);
    cfg.UpdateStereo3DMode(stereoRenderEnable);
    width := GetWidth(cfg.stereo3Dmode, cfg.nativeScreenWidth);
    height := GetHeight(cfg.stereo3Dmode, warp, cfg.nativeScreenWidth, cfg.nativeScreenHeight);
  }

  // ---------------------------------------------------------------- radical inverse

  /** Bit i of a 32-bit word. */
  function Bit(n: bv32, i: bv32): bool
    requires i < 32
  {
    (n >> i) & 1 == 1
  }

  /**
   * The bit reversal of RadicalInverse_VdC: a byte swap (bswap32, or the
   * two-step swap of the fallback), then exchanges of nibbles, bit pairs and
   * single bits.
   */
  function ReverseBits(n: bv32): bv32
  {
    var a := (n << 16) | (n >> 16);
    var b := ((a & 0x00ff00ff) << 8) | ((a & 0xff00ff00) >> 8);
    var c := ((b & 0x0f0f0f0f) << 4) | ((b & 0xf0f0f0f0) >> 4);
    var d := ((c & 0x33333333) << 2) | ((c & 0xcccccccc) >> 2);
    ((d & 0x55555555) << 1) | ((d & 0xaaaaaaaa) >> 1)
  }

  /** The reversal moves bit i of n to bit 31 - i. */
  lemma ReverseBitsMirrors(n: bv32, i: bv32)
    requires i < 32
    ensures Bit(ReverseBits(n), 31 - i) == Bit(n, i)
  {
  }

  /** Reversing twice gives the word back. */
  lemma ReverseBitsInvolutive(n: bv32)
    ensures ReverseBits(ReverseBits(n)) == n
  {
  }

  /**
   * The integer stage of RadicalInverse_VdC: the reversed word's top 24
   * bits, XORed with the low 24 bits of `scramble` (`scramble & ~-(1 << 24)`);
   * the single-precision division by 2^24 that follows is not modelled.
   */
  function VdCNumerator(n: bv32, scramble: bv32): (r: bv32)
    ensures r < 0x100_0000
  {
    (ReverseBits(n) >> 8) ^ (scramble & 0x00ff_ffff)
  }

  /**
   * Without scrambling, bit j of the numerator is bit 23 - j of the input:
   * the low eight input bits are dropped and the rest are mirrored.
   */
  lemma VdCNumeratorBits(n: bv32, j: bv32)
    requires j < 24
    ensures Bit(VdCNumerator(n, 0), j) == Bit(n, 23 - j)
  {
    ReverseBitsMirrors(n, 23 - j);
  }
}
