/**
 * Buffer objects: the packed size and offset words of idBufferObject and the
 * Vulkan vertex, index and uniform buffers built on them.
 *
 * The three Vulkan classes are textually the same apart from the buffer-usage
 * bit they request and the uniform buffer's dynamic default, so one class
 * parameterised by its kind models all three.
 *
 * `m_size` and `m_offsetInOtherBuffer` are C ints whose sign bit carries a
 * flag.  They are modelled as `int32` values; each mask on the sign bit is
 * written as its two's-complement arithmetic (clearing the sign bit of a
 * negative int adds 2^31, setting it on a non-negative int subtracts 2^31).
 */
module BufferObjects {
  import opened Wrappers

  newtype int32 = x: int | -0x8000_0000 <= x < 0x8000_0000

  /** An unsigned char. */
  newtype byte = x: int | 0 <= x < 0x100

  /** `1 << 31` on a 32-bit int is the sign bit, whose value is INT_MIN. */
  const MAPPED_FLAG: int32 := -0x8000_0000
  const OWNS_BUFFER_FLAG: int32 := -0x8000_0000

  /** Largest size whose round-up to 16 still fits a 32-bit int. */
  const MAX_ALLOC_SIZE: int32 := 0x7FFF_FFF0

  datatype BufferMapType = BM_READ | BM_WRITE
  datatype BufferUsage = BU_STATIC | BU_DYNAMIC
  datatype BufferKind = VertexBuffer | IndexBuffer | UniformBuffer
  datatype MemoryUsage = VULKAN_MEMORY_USAGE_GPU_ONLY | VULKAN_MEMORY_USAGE_CPU_TO_GPU

  // VkBufferUsageFlagBits, as defined by the Vulkan specification.
  const VK_BUFFER_USAGE_TRANSFER_DST_BIT: bv32 := 0x02
  const VK_BUFFER_USAGE_UNIFORM_BUFFER_BIT: bv32 := 0x10
  const VK_BUFFER_USAGE_INDEX_BUFFER_BIT: bv32 := 0x40
  const VK_BUFFER_USAGE_VERTEX_BUFFER_BIT: bv32 := 0x80

  /** What AllocBufferObject hands to vkCreateBuffer and the allocator. */
  datatype BufferCreateInfo = BufferCreateInfo(size: int32, usageBits: bv32, memoryUsage: MemoryUsage)

  /** A vkCmdCopyBuffer from the staging buffer into `dstBuffer` at `dstOffset`. */
  datatype BufferCopy = BufferCopy(dstBuffer: nat, dstOffset: int, bytes: seq<byte>)

  datatype UpdateOutcome =
    | UpdateOverrun                  // idLib::FatalError "size overrun"
    | CopiedToMapped                 // CopyBuffer into the persistently mapped memory
    | StagedCopy(copy: BufferCopy)   // static buffer: copy recorded through the staging manager

  datatype AllocOutcome =
    | AllocSizeError                 // idLib::Error "allocSize = %i"
    | Allocated(created: BufferCreateInfo, upload: Option<UpdateOutcome>, succeeded: bool)

  datatype MapOutcome =
    | MapStaticFatal                 // idLib::FatalError "Cannot map a buffer marked as BU_STATIC"
    | Mapped(base: int32)            // the returned address is the mapped memory plus `base`

  datatype UnmapOutcome = UnmapStaticFatal | Unmapped

  /** The buffer and memory handed back to the device by an owning free. */
  datatype Release = Release(buffer: nat, memory: nat)

  /** `word & ~(1 << 31)`: the word with its sign bit cleared. */
  function ClearSignBit(word: int32): (r: int32)
    ensures 0 <= r
    ensures 0 <= word ==> r == word
  {
    if word < 0 then (word as int + 0x8000_0000) as int32 else word
  }

  /** Clearing the sign bit keeps the 31 low bits of the word. */
  lemma ClearSignBitKeepsLowBits(word: int32)
    ensures ClearSignBit(word) as int % 0x8000_0000 == word as int % 0x8000_0000
  {
    if word < 0 {
      assert ClearSignBit(word) as int == word as int + 0x8000_0000;
    }
  }

  /** `word | (1 << 31)`: the word with its sign bit set. */
  function SetSignBit(word: int32): (r: int32)
    ensures r < 0
    ensures ClearSignBit(r) == ClearSignBit(word)
  {
    if word < 0 then word else (word as int - 0x8000_0000) as int32
  }

  /** `(word & (1 << 31)) != 0`: in two's complement the sign bit is set exactly for negative words. */
  predicate SignBitSet(word: int32)
  {
    word < 0
  }

  /** Reduction of an int to a C int (two's-complement wrap-around). */
  function Wrap32(x: int): (r: int32)
    ensures (r as int - x) % 0x1_0000_0000 == 0
  {
    var m := x % 0x1_0000_0000;
    if m < 0x8000_0000 then m as int32 else (m - 0x1_0000_0000) as int32
  }

  /**
   * `((size + 15) & ~15)` on a C int: the round-up to a multiple of 16.
   * `x & ~15` clears the four low bits, which in two's complement subtracts the
   * Euclidean remainder of x by 16.  Sizes above MAX_ALLOC_SIZE overflow.
   */
  function AllocedSize(size: int32): (r: int32)
    requires 0 <= size
    ensures size <= MAX_ALLOC_SIZE ==> r % 16 == 0 && size <= r && r as int < size as int + 16
    ensures size > MAX_ALLOC_SIZE ==> r < 0
  {
    var t := Wrap32(size as int + 15);
    t - t % 16
  }

  /** The buffer-usage bit that each kind of buffer requests. */
  function KindUsageBit(kind: BufferKind): bv32
  {
    match kind
    case VertexBuffer => VK_BUFFER_USAGE_VERTEX_BUFFER_BIT
    case IndexBuffer => VK_BUFFER_USAGE_INDEX_BUFFER_BIT
    case UniformBuffer => VK_BUFFER_USAGE_UNIFORM_BUFFER_BIT
  }

  /**
   * The creation parameters AllocBufferObject passes on: static buffers are
   * copy destinations in GPU-only memory, dynamic ones host-visible.
   */
  function CreateInfoFor(kind: BufferKind, usage: BufferUsage, numBytes: int32): (info: BufferCreateInfo)
    ensures info.size == numBytes
    ensures info.usageBits & KindUsageBit(kind) != 0
    ensures (info.usageBits & VK_BUFFER_USAGE_TRANSFER_DST_BIT != 0) <==> usage == BU_STATIC
    ensures (info.memoryUsage == VULKAN_MEMORY_USAGE_GPU_ONLY) <==> usage == BU_STATIC
  {
    var bits := if usage == BU_STATIC then KindUsageBit(kind) | VK_BUFFER_USAGE_TRANSFER_DST_BIT else KindUsageBit(kind);
    var mem := if usage == BU_STATIC then VULKAN_MEMORY_USAGE_GPU_ONLY else VULKAN_MEMORY_USAGE_CPU_TO_GPU;
    BufferCreateInfo(numBytes, bits, mem)
  }

  /** `s` with the bytes from `at` on replaced by `d`: the effect of a memcpy. */
  function Splice(s: seq<byte>, at: int, d: seq<byte>): (r: seq<byte>)
    requires 0 <= at && at + |d| <= |s|
    ensures |r| == |s|
    ensures r[at..at + |d|] == d
  {
    s[..at] + d + s[at + |d|..]
  }

  /** A splice leaves every byte outside the spliced range as it was. */
  lemma SpliceKeepsOthers(s: seq<byte>, at: int, d: seq<byte>, k: int)
    requires 0 <= at && at + |d| <= |s| && 0 <= k < |s| && !(at <= k < at + |d|)
    ensures Splice(s, at, d)[k] == s[k]
  {
    if k >= at + |d| {
      assert Splice(s, at, d)[k] == s[at + |d|..][k - at - |d|];
    }
  }

  /** Splicing into a window of `s` is splicing into that window alone. */
  lemma SpliceWindow(s: seq<byte>, lo: int, hi: int, at: int, d: seq<byte>)
    requires 0 <= lo <= hi <= |s| && 0 <= at && at + |d| <= hi - lo
    ensures Splice(s, lo + at, d)[lo..hi] == Splice(s[lo..hi], at, d)
  {
    var l, r := Splice(s, lo + at, d)[lo..hi], Splice(s[lo..hi], at, d);
    forall k | 0 <= k < hi - lo
      ensures l[k] == r[k]
    {
      if at <= k < at + |d| {
        assert l[k] == Splice(s, lo + at, d)[lo + at..lo + at + |d|][k - at];
        assert r[k] == r[at..at + |d|][k - at];
      } else {
        SpliceKeepsOthers(s, lo + at, d, lo + k);
        SpliceKeepsOthers(s[lo..hi], at, d, k);
      }
    }
  }

  /** Copies `src` into `a` starting at `dst`, leaving the rest of `a` alone. */
  method CopyBytes(a: array<byte>, dst: int, src: seq<byte>)
    requires 0 <= dst && dst + |src| <= a.Length
    modifies a
    ensures a[..] == Splice(old(a[..]), dst, src)
  {
    forall k | 0 <= k < |src| {
      a[dst + k] := src[k];
    }
  }

  /** A window of a window is a window of the whole. */
  lemma SliceOfSlice(s: seq<byte>, lo: int, hi: int, i: int, j: int)
    requires 0 <= lo <= hi <= |s| && 0 <= i <= j <= hi - lo
    ensures s[lo..hi][i..j] == s[lo + i..lo + j]
  {
    assert forall k :: 0 <= k < j - i ==> s[lo..hi][i..j][k] == s[lo + i..lo + j][k];
  }

  /** The size check Update performs as written: the offset takes no part in it. */
  predicate UpdateOverrunsAsWritten(size: int, offset: int, currentSize: int)
  {
    size > currentSize
  }

  /** The size check Update needs: the written range [offset, offset + size) must fit the buffer. */
  predicate UpdateOverruns(size: int, offset: int, currentSize: int)
  {
    offset + size > currentSize
  }

  /** The as-written check lets through writes that end past the buffer's own bytes. */
  lemma AsWrittenUpdateCheckAdmitsOverrun()
    ensures !UpdateOverrunsAsWritten(64, 16, 64)
    ensures UpdateOverruns(64, 16, 64)
  {
  }

  /** Byte `k` lies in the range [offset, offset + size) that an Update writes. */
  predicate Touches(offset: int, size: int, k: int)
  {
    offset <= k < offset + size
  }

  /** The corrected check admits exactly the writes whose every byte lies inside the buffer. */
  lemma UpdateCheckConfinesWrite(size: int, offset: int, currentSize: int)
    requires 0 < size && 0 <= offset
    ensures !UpdateOverruns(size, offset, currentSize) <==> (forall k :: Touches(offset, size, k) ==> 0 <= k < currentSize)
  {
    if UpdateOverruns(size, offset, currentSize) {
      assert Touches(offset, size, offset + size - 1);
    }
  }

  /**
   * idVertexBuffer, idIndexBuffer and idUniformBuffer.  `apiObject` is the
   * VkBuffer and `deviceMemory` the allocation's VkDeviceMemory (0 is
   * VK_NULL_HANDLE); `data` is the host view of the allocation
   * (`m_allocation.data`), present only for dynamic buffers.
   */
  class BufferObject {
    const kind: BufferKind
    var mSize: int32
    var mOffsetInOtherBuffer: int32
    var usage: BufferUsage
    var apiObject: nat
    var deviceMemory: nat
    var data: array?<byte>

    function GetSize(): (r: int32)
      reads this
      ensures 0 <= r
    {
      ClearSignBit(mSize)
    }

    /** The size rounded up to the 16-byte allocation granule. */
    function GetAllocedSize(): (r: int32)
      reads this
      ensures GetSize() <= MAX_ALLOC_SIZE ==> r % 16 == 0 && GetSize() <= r && r as int < GetSize() as int + 16
    {
      AllocedSize(GetSize())
    }

    function GetUsage(): (r: BufferUsage)
      reads this
      ensures r == usage
    {
      usage
    }

    function GetOffset(): (r: int32)
      reads this
      ensures 0 <= r
    {
      ClearSignBit(mOffsetInOtherBuffer)
    }

    /** The MAPPED_FLAG bit is set: masking it off changes the word. */
    predicate IsMapped()
      reads this
      ensures IsMapped() <==> ClearSignBit(mSize) != mSize
    {
      SignBitSet(mSize)
    }

    /** The OWNS_BUFFER_FLAG bit is set: masking it off changes the word. */
    predicate OwnsBuffer()
      reads this
      ensures OwnsBuffer() <==> ClearSignBit(mOffsetInOtherBuffer) != mOffsetInOtherBuffer
    {
      SignBitSet(mOffsetInOtherBuffer)
    }

    /** The state ClearWithoutFreeing leaves behind. */
    predicate IsCleared()
      reads this
    {
      mSize == 0 && mOffsetInOtherBuffer == OWNS_BUFFER_FLAG && apiObject == VK_NULL && deviceMemory == VK_NULL
    }

    /**
     * Only a dynamic buffer with a handle is ever mapped; a buffer without a
     * handle is in the cleared state; an owner sits at offset 0; and a
     * dynamic buffer's bytes lie inside its host-visible memory.
     */
    ghost predicate Valid()
      reads this
    {
      && (IsMapped() ==> usage == BU_DYNAMIC && apiObject != VK_NULL)
      && (apiObject == VK_NULL ==> IsCleared())
      && (OwnsBuffer() ==> GetOffset() == 0)
      && (usage == BU_STATIC ==> data == null)
      && (apiObject != VK_NULL && usage == BU_DYNAMIC ==>
            data != null && GetOffset() as int + GetSize() as int <= data.Length)
    }

    /** The buffer's own bytes inside its host-visible memory. */
    function View(): (v: seq<byte>)
      reads this, data
      requires Valid() && apiObject != VK_NULL && usage == BU_DYNAMIC
      ensures |v| == GetSize() as int
    {
      data[GetOffset()..GetOffset() as int + GetSize() as int]
    }

    /** idBufferObject's constructor clears the object; idUniformBuffer's then makes it dynamic. */
    constructor (kind: BufferKind)
      ensures this.kind == kind && Valid() && IsCleared()
      ensures !IsMapped() && OwnsBuffer() && GetSize() == 0 && GetOffset() == 0
      ensures usage == (if kind == UniformBuffer then BU_DYNAMIC else BU_STATIC)
      ensures data == null
    {
      this.kind := kind;
      mSize := 0;
      mOffsetInOtherBuffer := OWNS_BUFFER_FLAG;
      apiObject := VK_NULL;
      deviceMemory := VK_NULL;
      data := null;
      usage := if kind == UniformBuffer then BU_DYNAMIC else BU_STATIC;
    }

    method SetMapped()
      modifies this`mSize
      ensures IsMapped() && GetSize() == old(GetSize())
    {
      mSize := SetSignBit(mSize);
    }

    method SetUnmapped()
      modifies this`mSize
      ensures !IsMapped() && GetSize() == old(GetSize())
    {
      mSize := ClearSignBit(mSize);
    }

    method ClearWithoutFreeing()
      requires usage == BU_STATIC ==> data == null
      modifies this`mSize, this`mOffsetInOtherBuffer, this`apiObject, this`deviceMemory
      ensures Valid() && IsCleared()
      ensures GetSize() == 0 && GetOffset() == 0 && OwnsBuffer() && !IsMapped()
    {
      mSize := 0;
      mOffsetInOtherBuffer := OWNS_BUFFER_FLAG;
      apiObject := VK_NULL;
      deviceMemory := VK_NULL;
    }

    /**
     * Creates the VkBuffer (`newBuffer`) and its memory (`newMemory`), then
     * uploads `initial` when it is given.  The allocator's memory contents are
     * not specified.
     */
    method AllocBufferObject(initial: Option<seq<byte>>, allocSize: int32, usageArg: BufferUsage, newBuffer: nat, newMemory: nat)
      returns (outcome: AllocOutcome)
      requires Valid() && apiObject == VK_NULL
      requires newBuffer != VK_NULL && newMemory != VK_NULL
      requires allocSize <= MAX_ALLOC_SIZE
      requires initial.Some? ==> allocSize as int <= |initial.value|
      modifies this
      ensures Valid()
      ensures allocSize <= 0 ==> outcome == AllocSizeError && unchanged(this)
      ensures allocSize > 0 ==>
        && outcome.Allocated? && outcome.succeeded
        && GetSize() == allocSize && usage == usageArg
        && !IsMapped() && OwnsBuffer() && GetOffset() == 0
        && apiObject == newBuffer && deviceMemory == newMemory
        && outcome.created == CreateInfoFor(kind, usageArg, GetAllocedSize())
        && (usageArg == BU_DYNAMIC ==> data != null && fresh(data) && data.Length == GetAllocedSize() as int)
        && (initial.None? <==> outcome.upload.None?)
        && (initial.Some? && usageArg == BU_DYNAMIC ==>
              outcome.upload == Some(CopiedToMapped) && View() == initial.value[..allocSize])
        && (initial.Some? && usageArg == BU_STATIC ==>
              outcome.upload == Some(StagedCopy(BufferCopy(newBuffer, 0, initial.value[..allocSize]))))
    {
      if allocSize <= 0 {
        return AllocSizeError;
      }
      mSize := allocSize;
      usage := usageArg;
      var numBytes := GetAllocedSize();
      var created := CreateInfoFor(kind, usage, numBytes);
      apiObject := newBuffer;
      deviceMemory := newMemory;
      if usage == BU_DYNAMIC {
        data := new byte[numBytes];
      } else {
        data := null;
      }
      var upload := None;
      if initial.Some? {
        var u := Update(initial.value, allocSize, 0);
        upload := Some(u);
      }
      outcome := Allocated(created, upload, true);
    }

    /**
     * Unmaps a mapped buffer, then either only clears a sub-allocation or
     * releases the owned buffer and memory.  An owner without a handle returns
     * early; under Valid() it is already in the cleared state, so every path
     * ends cleared.
     */
    method FreeBufferObject() returns (released: Option<Release>)
      requires Valid()
      modifies this
      ensures Valid() && IsCleared()
      ensures !IsMapped() && OwnsBuffer() && GetSize() == 0 && GetOffset() == 0
      ensures usage == old(usage)
      ensures released == (if old(OwnsBuffer()) && old(apiObject) != VK_NULL
                           then Some(Release(old(apiObject), old(deviceMemory))) else None)
      ensures if released.Some? then data == null else data == old(data)
    {
      if IsMapped() {
        var u := UnmapBuffer();
      }
      if !OwnsBuffer() {
        ClearWithoutFreeing();
        return None;
      }
      if apiObject == VK_NULL {
        return None;
      }
      released := Some(Release(apiObject, deviceMemory));
      apiObject := VK_NULL;
      deviceMemory := VK_NULL;
      data := null;
      ClearWithoutFreeing();
    }

    /**
     * Copies `size` bytes of `bytes` to the buffer at `offset`: straight into
     * the mapped memory for a dynamic buffer, through a staged copy for a
     * static one.  The overrun check is the corrected one (see
     * UpdateOverrunsAsWritten for the check as written).
     */
    method Update(bytes: seq<byte>, size: int32, offset: int32) returns (outcome: UpdateOutcome)
      requires Valid() && apiObject != VK_NULL && GetOffset() % 16 == 0
      requires 0 <= size && size as int <= |bytes| && 0 <= offset
      modifies data
      ensures outcome == UpdateOverrun <==> UpdateOverruns(size as int, offset as int, GetSize() as int)
      ensures (outcome == UpdateOverrun || usage == BU_STATIC) && data != null ==> data[..] == old(data[..])
      ensures usage == BU_STATIC && outcome != UpdateOverrun ==>
        outcome == StagedCopy(BufferCopy(apiObject, GetOffset() as int + offset as int, bytes[..size]))
      ensures usage == BU_DYNAMIC && outcome != UpdateOverrun ==>
        && outcome == CopiedToMapped
        && data[..] == Splice(old(data[..]), GetOffset() as int + offset as int, bytes[..size])
    {
      if UpdateOverruns(size as int, offset as int, GetSize() as int) {
        return UpdateOverrun;
      }
      if usage == BU_DYNAMIC {
        CopyBytes(data, GetOffset() as int + offset as int, bytes[..size]);
        outcome := CopiedToMapped;
      } else {
        outcome := StagedCopy(BufferCopy(apiObject, GetOffset() as int + offset as int, bytes[..size]));
      }
    }

    /** A static buffer cannot be mapped; a dynamic one is mapped at its offset. */
    method MapBuffer(mapType: BufferMapType) returns (outcome: MapOutcome)
      requires Valid() && apiObject != VK_NULL
      requires kind == UniformBuffer ==> mapType == BM_WRITE
      modifies this`mSize
      ensures Valid()
      ensures usage == BU_STATIC ==> outcome == MapStaticFatal && mSize == old(mSize)
      ensures usage == BU_DYNAMIC ==> outcome == Mapped(GetOffset()) && IsMapped() && GetSize() == old(GetSize())
    {
      if usage == BU_STATIC {
        return MapStaticFatal;
      }
      SetMapped();
      outcome := Mapped(GetOffset());
    }

    method UnmapBuffer() returns (outcome: UnmapOutcome)
      requires Valid() && apiObject != VK_NULL
      modifies this`mSize
      ensures Valid()
      ensures usage == BU_STATIC ==> outcome == UnmapStaticFatal && mSize == old(mSize)
      ensures usage == BU_DYNAMIC ==> outcome == Unmapped && !IsMapped() && GetSize() == old(GetSize())
    {
      if usage == BU_STATIC {
        return UnmapStaticFatal;
      }
      SetUnmapped();
      outcome := Unmapped;
    }

    /**
     * Makes this buffer a non-owning view of `refSize` bytes of `other`
     * starting `refOffset` bytes into it, sharing its handle and memory.
     */
    method Reference(other: BufferObject, refOffset: int32, refSize: int32) returns (released: Option<Release>)
      requires other != this && other.kind == kind && Valid() && other.Valid()
      requires !IsMapped() && other.apiObject != VK_NULL
      requires 0 <= refOffset && 0 <= refSize && refOffset as int + refSize as int <= other.GetSize() as int
      requires other.GetOffset() as int + refOffset as int < 0x8000_0000
      modifies this
      ensures Valid() && !OwnsBuffer() && !IsMapped()
      ensures GetSize() == refSize && GetOffset() as int == other.GetOffset() as int + refOffset as int
      ensures usage == other.usage && apiObject == other.apiObject
      ensures deviceMemory == other.deviceMemory && data == other.data
      ensures released == (if old(OwnsBuffer()) && old(apiObject) != VK_NULL
                           then Some(Release(old(apiObject), old(deviceMemory))) else None)
    {
      released := FreeBufferObject();
      mSize := refSize;
      mOffsetInOtherBuffer := (other.GetOffset() as int + refOffset as int) as int32;
      usage := other.usage;
      apiObject := other.apiObject;
      deviceMemory := other.deviceMemory;
      data := other.data;
    }
  }

  const VK_NULL: nat := 0

  /**
   * A buffer that references `refSize` bytes of a dynamic buffer at
   * `refOffset` sees exactly those bytes of the referenced buffer.
   */
  lemma ReferenceSeesWindow(b: BufferObject, other: BufferObject, refOffset: int, refSize: int)
    requires b.Valid() && other.Valid() && b.apiObject != VK_NULL && other.apiObject != VK_NULL
    requires b.usage == BU_DYNAMIC && other.usage == BU_DYNAMIC && b.data == other.data
    requires 0 <= refOffset && refOffset + refSize <= other.GetSize() as int
    requires b.GetOffset() as int == other.GetOffset() as int + refOffset && b.GetSize() as int == refSize
    ensures b.View() == other.View()[refOffset..refOffset + refSize]
  {
    var o, n := other.GetOffset() as int, other.GetSize() as int;
    SliceOfSlice(other.data[..], o, o + n, refOffset, refOffset + refSize);
  }


  /**
   * Bytes written by a dynamic Update at `offset` are read back at the mapped
   * address plus `offset`.
   */
  method DynamicUpdateThenMap(kind: BufferKind, bytes: seq<byte>, offset: int32, allocSize: int32)
    returns (seen: seq<byte>)
    requires 0 < allocSize <= MAX_ALLOC_SIZE
    requires 0 <= offset && offset as int + |bytes| <= allocSize as int
    ensures seen == bytes
  {
    var b := new BufferObject(kind);
    var a := b.AllocBufferObject(None, allocSize, BU_DYNAMIC, 1, 1);
    var u := b.Update(bytes, |bytes| as int32, offset);
    assert bytes[..|bytes|] == bytes;
    var m := b.MapBuffer(BM_WRITE);
    assert m.base == 0;
    seen := b.data[m.base as int + offset as int .. m.base as int + offset as int + |bytes|];
  }
}
