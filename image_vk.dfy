/**
 * Vulkan images: the deferred-deletion garbage ring shared by all images,
 * PurgeImage and IsLoaded, the texture-format and swizzle tables, and the
 * staging arithmetic of SubImageUpload.
 *
 * Handles (VkImage, VkImageView, VkSampler and the allocator's allocation
 * record) are naturals with 0 standing for VK_NULL_HANDLE and for an empty
 * allocation.  Destroying a handle is a foreign call, so EmptyGarbage
 * returns the lists it destroys instead.
 */
module ImageVk {
  import opened FrameData

  /** One slot of the garbage ring: the four per-slot lists. */
  datatype Garbage = Garbage(allocations: seq<nat>, images: seq<nat>, views: seq<nat>, samplers: seq<nat>)

  const NO_GARBAGE: Garbage := Garbage([], [], [], [])

  /** garbageIndex and the four garbage arrays, as one value. */
  datatype RingState = RingState(index: nat, slots: seq<Garbage>)

  ghost predicate RingValid(s: RingState)
  {
    |s.slots| == NUM_FRAME_DATA && s.index < NUM_FRAME_DATA
  }

  /**
   * EmptyGarbage as a step on the ring: advance the index, then hand back
   * and empty that slot.  Every other slot is left alone.
   */
  function EmptyStep(s: RingState): (r: (RingState, Garbage))
    requires RingValid(s)
    ensures RingValid(r.0)
    ensures r.0.index == (s.index + 1) % NUM_FRAME_DATA
    ensures r.1 == s.slots[r.0.index] && r.0.slots[r.0.index] == NO_GARBAGE
    ensures forall k :: 0 <= k < NUM_FRAME_DATA && k != r.0.index ==> r.0.slots[k] == s.slots[k]
  {
    var i := (s.index + 1) % NUM_FRAME_DATA;
    (RingState(i, s.slots[i := NO_GARBAGE]), s.slots[i])
  }

  /** What PurgeImage appends to the current slot for one image's handles. */
  function PurgeStep(s: RingState, allocation: nat, image: nat, view: nat, sampler: nat): (r: RingState)
    requires RingValid(s)
    ensures RingValid(r) && r.index == s.index
    ensures forall k :: 0 <= k < NUM_FRAME_DATA && k != s.index ==> r.slots[k] == s.slots[k]
  {
    var g := s.slots[s.index];
    var g1 := if sampler != 0 then g.(samplers := g.samplers + [sampler]) else g;
    var g2 := if image != 0 then g1.(allocations := g1.allocations + [allocation],
                                     views := g1.views + [view],
                                     images := g1.images + [image])
              else g1;
    RingState(s.index, s.slots[s.index := g2])
  }

  /**
   * Deferred deletion: an image purged now survives the next EmptyGarbage
   * (which drains the other slot) and is destroyed by the one after it,
   * since NUM_FRAME_DATA is two.
   */
  lemma PurgedImageDestroyedOnSecondEmpty(s: RingState, allocation: nat, image: nat, view: nat, sampler: nat)
    requires RingValid(s) && image != 0
    ensures var p := PurgeStep(s, allocation, image, view, sampler);
            var e1 := EmptyStep(p);
            var e2 := EmptyStep(e1.0);
            && e1.1 == s.slots[(s.index + 1) % NUM_FRAME_DATA]
            && e2.1.images == s.slots[s.index].images + [image]
            && e2.1.views == s.slots[s.index].views + [view]
            && e2.1.allocations == s.slots[s.index].allocations + [allocation]
  {
    var p := PurgeStep(s, allocation, image, view, sampler);
    var e1 := EmptyStep(p);
    assert e1.0.index != s.index;
    assert EmptyStep(e1.0).0.index == s.index;
  }

  /** NUM_FRAME_DATA consecutive EmptyGarbage calls leave every slot empty. */
  lemma TwoEmptiesDrainEverySlot(s: RingState)
    requires RingValid(s)
    ensures var e2 := EmptyStep(EmptyStep(s).0).0;
            forall k :: 0 <= k < NUM_FRAME_DATA ==> e2.slots[k] == NO_GARBAGE
  {
    var e1 := EmptyStep(s).0;
    var e2 := EmptyStep(e1).0;
    assert e1.index != e2.index;
    forall k | 0 <= k < NUM_FRAME_DATA
      ensures e2.slots[k] == NO_GARBAGE
    {
      if k != e2.index {
        assert k == e1.index;
      }
    }
  }

  /** The static garbageIndex and garbage arrays shared by every idImage. */
  class GarbageRing {
    var garbageIndex: nat
    var slots: seq<Garbage>

    function State(): RingState
      reads this
    {
      RingState(garbageIndex, slots)
    }

    ghost predicate Valid()
      reads this
    {
      RingValid(State())
    }

    constructor ()
      ensures Valid() && garbageIndex == 0
      ensures forall k :: 0 <= k < NUM_FRAME_DATA ==> slots[k] == NO_GARBAGE
    {
      garbageIndex := 0;
      slots := [NO_GARBAGE, NO_GARBAGE];
    }

    /**
     * idImage::EmptyGarbage: moves to the next slot and destroys everything
     * queued there; the returned lists are what is freed, in order.
     */
    method EmptyGarbage() returns (destroyed: Garbage)
      requires Valid()
      modifies this
      ensures Valid()
      ensures (State(), destroyed) == EmptyStep(old(State()))
    {
      garbageIndex := (garbageIndex + 1) % NUM_FRAME_DATA;
      destroyed := slots[garbageIndex];
      slots := slots[garbageIndex := NO_GARBAGE];
    }
  }

  /** The handles an idImage owns. */
  class Image {
    var image: nat
    var view: nat
    var sampler: nat
    var allocation: nat
    var isSwapChainImage: bool

    /** The idImage constructor: no handles yet. */
    constructor ()
      ensures image == 0 && view == 0 && sampler == 0 && !isSwapChainImage
      ensures !IsLoaded()
    {
      image, view, sampler, allocation := 0, 0, 0, 0;
      isSwapChainImage := false;
    }

    /** An image is loaded exactly when it holds a VkImage. */
    predicate IsLoaded()
      reads this
      ensures IsLoaded() <==> image != 0
    {
      image != 0
    }

    /**
     * idImage::PurgeImage: queues the sampler, and the image with its view
     * and allocation, on the ring's current slot and forgets them.
     */
    method PurgeImage(ring: GarbageRing)
      requires ring.Valid()
      modifies this, ring
      ensures ring.Valid()
      ensures ring.State() == PurgeStep(old(ring.State()), old(allocation), old(image), old(view), old(sampler))
      ensures image == 0 && sampler == 0 && !IsLoaded()
      ensures old(image) == 0 ==> view == old(view) && allocation == old(allocation)
      ensures old(image) != 0 ==> view == 0 && allocation == 0
    {
      var g := ring.slots[ring.garbageIndex];
      if sampler != 0 {
        g := g.(samplers := g.samplers + [sampler]);
        sampler := 0;
      }
      if image != 0 {
        g := g.(allocations := g.allocations + [allocation], views := g.views + [view], images := g.images + [image]);
        allocation := 0;
        view := 0;
        image := 0;
      }
      ring.slots := ring.slots[ring.garbageIndex := g];
    }
  }

  /** A second purge queues nothing: the first one nulled every handle. */
  method PurgeTwiceAddsNothing(img: Image, ring: GarbageRing)
    requires ring.Valid()
    modifies img, ring
    ensures ring.Valid() && !img.IsLoaded()
    ensures ring.State() == PurgeStep(old(ring.State()), old(img.allocation), old(img.image), old(img.view), old(img.sampler))
  {
    img.PurgeImage(ring);
    ghost var once := ring.State();
    img.PurgeImage(ring);
    assert ring.State() == once;
  }

  // ---------------------------------------------------------------------
  // Format and swizzle tables

  datatype TextureFormat =
    | FMT_NONE | FMT_RGBA8 | FMT_XRGB8 | FMT_ALPHA | FMT_L8A8 | FMT_LUM8 | FMT_INT8
    | FMT_DXT1 | FMT_DXT5 | FMT_DEPTH | FMT_X16 | FMT_Y16_X16 | FMT_RGB565
    | FMT_SHADOW_ARRAY | FMT_ETC1_RGB8_OES | FMT_RGBA16F | FMT_RGBA32F | FMT_R32F

  datatype VkFormat =
    | VK_FORMAT_UNDEFINED
    | VK_FORMAT_R8G8B8A8_UNORM | VK_FORMAT_R8G8B8_UNORM | VK_FORMAT_R8_UNORM | VK_FORMAT_R8G8_UNORM
    | VK_FORMAT_BC1_RGB_UNORM_BLOCK | VK_FORMAT_BC3_UNORM_BLOCK
    | VK_FORMAT_R16_UNORM | VK_FORMAT_R16G16_UNORM | VK_FORMAT_R5G6B5_UNORM_PACK16
    | VK_FORMAT_B8G8R8A8_UNORM
    | VK_FORMAT_D32_SFLOAT_S8_UINT | VK_FORMAT_D24_UNORM_S8_UINT
    | OtherVkFormat(code: nat)

  /** The block-compressed texture formats. */
  predicate IsCompressed(format: TextureFormat)
  {
    format == FMT_DXT1 || format == FMT_DXT5
  }

  predicate IsBlockFormat(f: VkFormat)
  {
    f == VK_FORMAT_BC1_RGB_UNORM_BLOCK || f == VK_FORMAT_BC3_UNORM_BLOCK
  }

  /** The formats the Vulkan back end has no mapping for. */
  predicate Unsupported(format: TextureFormat)
  {
    format in {FMT_NONE, FMT_SHADOW_ARRAY, FMT_ETC1_RGB8_OES, FMT_RGBA16F, FMT_RGBA32F, FMT_R32F}
  }

  /**
   * VK_GetFormatFromTextureFormat; `depthFormat` is the device's chosen depth
   * format (vkcontext.depthFormat).  Unsupported formats fall to the
   * debug assertion and then VK_FORMAT_UNDEFINED.
   */
  function FormatFromTextureFormat(format: TextureFormat, depthFormat: VkFormat): (r: VkFormat)
    ensures format == FMT_DEPTH ==> r == depthFormat
    ensures format != FMT_DEPTH ==> (r == VK_FORMAT_UNDEFINED <==> Unsupported(format))
    ensures format != FMT_DEPTH ==> (IsBlockFormat(r) <==> IsCompressed(format))
    ensures format in {FMT_ALPHA, FMT_LUM8, FMT_INT8} ==> r == VK_FORMAT_R8_UNORM
  {
    match format
    case FMT_RGBA8 => VK_FORMAT_R8G8B8A8_UNORM
    case FMT_XRGB8 => VK_FORMAT_R8G8B8_UNORM
    case FMT_ALPHA => VK_FORMAT_R8_UNORM
    case FMT_L8A8 => VK_FORMAT_R8G8_UNORM
    case FMT_LUM8 => VK_FORMAT_R8_UNORM
    case FMT_INT8 => VK_FORMAT_R8_UNORM
    case FMT_DXT1 => VK_FORMAT_BC1_RGB_UNORM_BLOCK
    case FMT_DXT5 => VK_FORMAT_BC3_UNORM_BLOCK
    case FMT_DEPTH => depthFormat
    case FMT_X16 => VK_FORMAT_R16_UNORM
    case FMT_Y16_X16 => VK_FORMAT_R16G16_UNORM
    case FMT_RGB565 => VK_FORMAT_R5G6B5_UNORM_PACK16
    case _ => VK_FORMAT_UNDEFINED
  }

  /** Distinct supported colour formats never share a Vulkan format unless both are one-channel 8-bit. */
  lemma FormatTableInjectiveOnColour(f: TextureFormat, g: TextureFormat, depth: VkFormat)
    requires f != g && f != FMT_DEPTH && g != FMT_DEPTH && !Unsupported(f) && !Unsupported(g)
    requires FormatFromTextureFormat(f, depth) == FormatFromTextureFormat(g, depth)
    ensures f in {FMT_ALPHA, FMT_LUM8, FMT_INT8} && g in {FMT_ALPHA, FMT_LUM8, FMT_INT8}
  {
  }

  datatype TextureColor = CFM_DEFAULT | CFM_NORMAL_DXT5 | CFM_YCOCG_DXT5 | CFM_GREEN_ALPHA

  datatype Swizzle =
    | VK_COMPONENT_SWIZZLE_ZERO | VK_COMPONENT_SWIZZLE_ONE
    | VK_COMPONENT_SWIZZLE_R | VK_COMPONENT_SWIZZLE_G | VK_COMPONENT_SWIZZLE_B | VK_COMPONENT_SWIZZLE_A

  datatype ComponentMapping = ComponentMapping(r: Swizzle, g: Swizzle, b: Swizzle, a: Swizzle)

  const IDENTITY_MAPPING: ComponentMapping :=
    ComponentMapping(VK_COMPONENT_SWIZZLE_R, VK_COMPONENT_SWIZZLE_G, VK_COMPONENT_SWIZZLE_B, VK_COMPONENT_SWIZZLE_A)

  /** VK_GetComponentMappingFromTextureFormat. */
  function ComponentMappingFor(format: TextureFormat, color: TextureColor): (m: ComponentMapping)
    ensures color == CFM_GREEN_ALPHA ==>
      m == ComponentMapping(VK_COMPONENT_SWIZZLE_ONE, VK_COMPONENT_SWIZZLE_ONE, VK_COMPONENT_SWIZZLE_ONE, VK_COMPONENT_SWIZZLE_G)
    ensures color != CFM_GREEN_ALPHA && !(format in {FMT_LUM8, FMT_L8A8, FMT_ALPHA, FMT_INT8}) ==> m == IDENTITY_MAPPING
    ensures color != CFM_GREEN_ALPHA && format in {FMT_LUM8, FMT_L8A8, FMT_INT8} ==>
      m.r == m.g == m.b == VK_COMPONENT_SWIZZLE_R
    ensures color != CFM_GREEN_ALPHA && format == FMT_LUM8 ==> m.a == VK_COMPONENT_SWIZZLE_ONE
    ensures color != CFM_GREEN_ALPHA && format == FMT_L8A8 ==> m.a == VK_COMPONENT_SWIZZLE_G
    ensures color != CFM_GREEN_ALPHA && format == FMT_INT8 ==> m.a == VK_COMPONENT_SWIZZLE_R
    ensures color != CFM_GREEN_ALPHA && format == FMT_ALPHA ==>
      m == ComponentMapping(VK_COMPONENT_SWIZZLE_ONE, VK_COMPONENT_SWIZZLE_ONE, VK_COMPONENT_SWIZZLE_ONE, VK_COMPONENT_SWIZZLE_R)
    ensures m.r != VK_COMPONENT_SWIZZLE_ZERO && m.g != VK_COMPONENT_SWIZZLE_ZERO
    ensures m.b != VK_COMPONENT_SWIZZLE_ZERO && m.a != VK_COMPONENT_SWIZZLE_ZERO
  {
    if color == CFM_GREEN_ALPHA then
      ComponentMapping(VK_COMPONENT_SWIZZLE_ONE, VK_COMPONENT_SWIZZLE_ONE, VK_COMPONENT_SWIZZLE_ONE, VK_COMPONENT_SWIZZLE_G)
    else
      match format
      case FMT_LUM8 =>
        ComponentMapping(VK_COMPONENT_SWIZZLE_R, VK_COMPONENT_SWIZZLE_R, VK_COMPONENT_SWIZZLE_R, VK_COMPONENT_SWIZZLE_ONE)
      case FMT_L8A8 =>
        ComponentMapping(VK_COMPONENT_SWIZZLE_R, VK_COMPONENT_SWIZZLE_R, VK_COMPONENT_SWIZZLE_R, VK_COMPONENT_SWIZZLE_G)
      case FMT_ALPHA =>
        ComponentMapping(VK_COMPONENT_SWIZZLE_ONE, VK_COMPONENT_SWIZZLE_ONE, VK_COMPONENT_SWIZZLE_ONE, VK_COMPONENT_SWIZZLE_R)
      case FMT_INT8 =>
        ComponentMapping(VK_COMPONENT_SWIZZLE_R, VK_COMPONENT_SWIZZLE_R, VK_COMPONENT_SWIZZLE_R, VK_COMPONENT_SWIZZLE_R)
      case _ => IDENTITY_MAPPING
  }

  // ---------------------------------------------------------------------
  // SubImageUpload

  /** `(n + 3) & ~3` for a non-negative n: the round-up to a multiple of 4. */
  function RoundUpTo4(n: nat): (r: nat)
    ensures r % 4 == 0 && n <= r < n + 4
    ensures n % 4 == 0 ==> r == n
  {
    (n + 3) - (n + 3) % 4
  }

  /** `s` with the two bytes of every pair exchanged. */
  function SwapPairs(s: seq<bv8>): (r: seq<bv8>)
    requires |s| % 2 == 0
    ensures |r| == |s|
  {
    if |s| == 0 then [] else [s[1], s[0]] + SwapPairs(s[2..])
  }

  /** Byte k of the swapped sequence is byte k with its low index bit flipped. */
  lemma {:induction false} SwapPairsAt(s: seq<bv8>, k: nat)
    requires |s| % 2 == 0 && k < |s|
    ensures SwapPairs(s)[k] == (if k % 2 == 0 then s[k + 1] else s[k - 1])
  {
    if k >= 2 {
      SwapPairsAt(s[2..], k - 2);
    }
  }

  /** Swapping pairs twice gives the bytes back. */
  lemma {:induction false} SwapPairsInvolutive(s: seq<bv8>)
    requires |s| % 2 == 0
    ensures SwapPairs(SwapPairs(s)) == s
  {
    if |s| > 0 {
      var t := SwapPairs(s);
      assert t == [s[1], s[0]] + SwapPairs(s[2..]);
      assert t[2..] == SwapPairs(s[2..]);
      SwapPairsInvolutive(s[2..]);
      assert SwapPairs(t) == [s[0], s[1]] + s[2..];
    }
  }

  /** What SubImageUpload hands to the staging buffer and the image copy. */
  datatype StagedUpload = StagedUpload(width: nat, height: nat, bytes: seq<bv8>)

  /**
   * idImage::SubImageUpload, up to the staged bytes: compressed uploads are
   * widened to whole 4x4 blocks, `bitsPerPixel` is BitsForFormat of the
   * image's format, and RGB565 texels are byte-swapped while being staged.
   */
  method SubImageUpload(format: TextureFormat, width: nat, height: nat, bitsPerPixel: nat, pic: seq<bv8>)
    returns (upload: StagedUpload)
    requires format == FMT_RGB565 ==> bitsPerPixel == 16
    requires (if IsCompressed(format) then RoundUpTo4(width) * RoundUpTo4(height) else width * height) * bitsPerPixel / 8 <= |pic|
    ensures upload.width == (if IsCompressed(format) then RoundUpTo4(width) else width)
    ensures upload.height == (if IsCompressed(format) then RoundUpTo4(height) else height)
    ensures |upload.bytes| == upload.width * upload.height * bitsPerPixel / 8
    ensures format != FMT_RGB565 ==> upload.bytes == pic[..|upload.bytes|]
    ensures format == FMT_RGB565 ==> |upload.bytes| % 2 == 0 && upload.bytes == SwapPairs(pic[..|upload.bytes|])
  {
    var w, h := width, height;
    if IsCompressed(format) {
      w := RoundUpTo4(w);
      h := RoundUpTo4(h);
    }
    var texels := w * h;
    var size := texels * bitsPerPixel / 8;
    if format == FMT_RGB565 {
      assert size == texels * 2;
      var data := StageSwapped(pic[..size]);
      upload := StagedUpload(w, h, data);
    } else {
      upload := StagedUpload(w, h, pic[..size]);
    }
  }

  /** The RGB565 staging loop: each 16-bit texel is written with its bytes exchanged. */
  method StageSwapped(src: seq<bv8>) returns (staged: seq<bv8>)
    requires |src| % 2 == 0
    ensures staged == SwapPairs(src)
  {
    var data := new bv8[|src|];
    var i := 0;
    while i < |src|
      invariant 0 <= i <= |src| && i % 2 == 0
      invariant forall k :: 0 <= k < i ==> data[k] == (if k % 2 == 0 then src[k + 1] else src[k - 1])
    {
      data[i] := src[i + 1];
      data[i + 1] := src[i];
      i := i + 2;
    }
    forall k | 0 <= k < |src|
      ensures data[k] == SwapPairs(src)[k]
    {
      SwapPairsAt(src, k);
    }
    staged := data[..];
  }
}
