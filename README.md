# RBDOOM-3-BFG renderer core in Dafny

A model of the frame machinery at the heart of the RBDOOM-3-BFG renderer
(the Vulkan back end with the GL screenshot path). It covers:

- **Buffer objects** (`buffer_object.dfy`, module `BufferObjects`). These are the
  vertex, index and uniform buffers of `BufferObject.h` and
  `Vulkan/BufferObject_VK.cpp`. The model keeps two 32-bit words. One holds the
  size with the MAPPED flag in its sign bit; the other holds the offset into a
  parent buffer with the OWNS_BUFFER flag in its sign bit. Allocation rounds the
  size up to 16 bytes. Update copies into the mapped bytes for a dynamic buffer
  and stages a copy for a static one. Map and unmap fail fatally on static
  buffers. Reference makes a buffer a window into another buffer.
- **Command lists** (`frame_data.dfy`, module `FrameData`). Each of the
  `NUM_FRAME_DATA` frame slots holds a command chain that starts with a no-op
  head. `R_GetCommandBuffer` appends to the current chain. `R_ToggleSmpFrame`
  closes the chain and starts the other slot with a fresh one.
  `RenderCommandBuffers` hands a chain to the back end only if the chain holds a
  view.
- **The render system** (`render_system.dfy`, module `RenderSystem`). The
  `idRenderSystemLocal` lifecycle: constructor, Clear, Init, Shutdown,
  InitOpenGL, ShutdownOpenGL and VidRestart. Also the swap of command buffers,
  render crops, and screen and virtual-screen sizes.
- **Video modes** (`video_mode.dfy`, module `VideoModes`). The retry loop of
  `R_SetNewMode` and its Vulkan twin `SetNewMode`, with mode-list lookup and the
  safe-mode fallback. Also `R_GetModeParms`.
- **The Vulkan back end** (`backend_vk.dfy`, module `RenderBackendVk`):
  - command execution, frame start and end, the blocking swap with its fences,
    and the GL state merge;
  - vertex-cache handle decoding;
  - the surface-format, present-mode, extension, sample-count and depth-format
    choices.
- **The image garbage ring** (`image_vk.dfy`, module `ImageVk`). A purged image's
  Vulkan objects go into the current garbage slot. `EmptyGarbage` advances the
  index and destroys what the next slot holds. Also the format and component
  tables, and the sub-image upload with its RGB565 byte swap.
- **Screenshots** (`screenshot_gl.dfy`, module `ScreenshotGl`, and
  `render_system_gl.dfy`, module `RenderSystemGl`):
  - tiled read-back, multi-pass blending through an unsigned-short accumulator,
    and the TGA header and red/blue swap;
  - the `screenshot` command's arguments, the stencil shot and the screen-size
    commands;
  - the stereo screen sizes and the bit reversal of `RadicalInverse_VdC`.

Things outside the model appear as parameters:
- GPU completion, the pixels a read-back returns, and the display-mode query;
- the mode-set acceptance by the window system, and Vulkan handles;
- cvar values.

## Model

| member | source | states |
|---|---|---|
| BufferObjects.ClearSignBit | neo/renderer/BufferObject.h:70 | Clearing MAPPED gives a non-negative size and leaves a non-negative word unchanged |
| BufferObjects.ClearSignBitKeepsLowBits | neo/renderer/BufferObject.h:106-107 | Clearing the flag keeps the low 31 bits, so the size survives flag changes |
| BufferObjects.SetSignBit | neo/renderer/BufferObject.h:78 | Setting MAPPED makes the word negative and keeps the size that GetSize reads |
| BufferObjects.Wrap32 | neo/renderer/BufferObject.h:71 | The 32-bit wrap agrees with the unbounded value modulo 2^32 |
| BufferObjects.AllocedSize | neo/renderer/BufferObject.h:71 | Up to the largest safe size, the allocated size is the least multiple of 16 that is at least the size; beyond it, the int addition wraps negative |
| BufferObjects.CreateInfoFor | neo/renderer/Vulkan/BufferObject_VK.cpp:89-109 | The create info has the buffer's own usage bit. It has TRANSFER_DST and GPU-only memory exactly when the usage is static |
| BufferObjects.Splice | neo/renderer/Vulkan/BufferObject_VK.cpp:192-199 | A copy into mapped memory keeps the length and puts the data in the window |
| BufferObjects.SpliceKeepsOthers | neo/renderer/Vulkan/BufferObject_VK.cpp:192-199 | Bytes outside the copied window are unchanged |
| BufferObjects.CopyBytes | neo/renderer/Vulkan/BufferObject_VK.cpp:192-199 | The in-place copy leaves the array equal to the splice of its old contents |
| BufferObjects.AsWrittenUpdateCheckAdmitsOverrun | neo/renderer/Vulkan/BufferObject_VK.cpp:188-190 | The size-only check lets through a 64-byte update at offset 16 of a 64-byte buffer, which overruns it |
| BufferObjects.UpdateCheckConfinesWrite | neo/renderer/Vulkan/BufferObject_VK.cpp:183-190 | The corrected check passes exactly when every byte written lies inside the buffer |
| BufferObjects.BufferObject.GetSize | neo/renderer/BufferObject.h:70 | The size read through the MAPPED flag is never negative |
| BufferObjects.BufferObject.GetOffset | neo/renderer/BufferObject.h:73 | The offset read through the OWNS_BUFFER flag is never negative |
| BufferObjects.BufferObject.GetAllocedSize | neo/renderer/BufferObject.h:71 | The size rounded up to the least multiple of 16, for every size up to MAX_ALLOC_SIZE |
| BufferObjects.BufferObject.GetUsage | neo/renderer/BufferObject.h:72 | The usage the buffer holds (set by the constructor, kept by FreeBufferObject) |
| BufferObjects.BufferObject.IsMapped | neo/renderer/BufferObject.h:75 | Mapped exactly when masking MAPPED_FLAG off the size word changes it |
| BufferObjects.BufferObject.OwnsBuffer | neo/renderer/BufferObject.h:80 | Owning exactly when masking OWNS_BUFFER_FLAG off the offset word changes it |
| BufferObjects.BufferObject.View | neo/renderer/BufferObject.h:70-73 | A dynamic buffer's visible bytes are exactly GetSize long |
| BufferObjects.BufferObject.constructor | neo/renderer/Vulkan/BufferObject_VK.cpp:61-63 | A new buffer is empty, unmapped and owns its storage. Uniform buffers are dynamic (lines 514-517); the others are static |
| BufferObjects.BufferObject.SetMapped | neo/renderer/BufferObject.h:78 | Sets the mapped flag and keeps the size |
| BufferObjects.BufferObject.SetUnmapped | neo/renderer/BufferObject.h:79 | Clears the mapped flag and keeps the size |
| BufferObjects.BufferObject.ClearWithoutFreeing | neo/renderer/Vulkan/BufferObject_VK.cpp:263-273 | Leaves size 0, offset 0, owning, unmapped and no handles, without releasing anything |
| BufferObjects.BufferObject.AllocBufferObject | neo/renderer/Vulkan/BufferObject_VK.cpp:70-135 | A non-positive size is the error return with nothing changed. Otherwise the buffer owns a fresh unmapped allocation of the requested size, created from the kind and usage. A dynamic buffer gets mapped bytes of the 16-rounded size |
| BufferObjects.BufferObject.FreeBufferObject | neo/renderer/Vulkan/BufferObject_VK.cpp:142-174 | Releases the handles only when the buffer owns them, then clears it. Usage is kept |
| BufferObjects.BufferObject.Update | neo/renderer/Vulkan/BufferObject_VK.cpp:183-215 | Uses the corrected overrun check (see Findings). Reports an overrun exactly when the write leaves the buffer, with nothing changed. A static buffer stages a copy to the parent offset plus the offset. A dynamic buffer splices the bytes into mapped memory at that position |
| BufferObjects.BufferObject.MapBuffer | neo/renderer/Vulkan/BufferObject_VK.cpp:222-240 | Static buffers fail fatally. A dynamic buffer returns its offset into the mapped block and becomes mapped |
| BufferObjects.BufferObject.UnmapBuffer | neo/renderer/Vulkan/BufferObject_VK.cpp:248-255 | Static buffers fail fatally. A dynamic buffer becomes unmapped with its size kept |
| BufferObjects.BufferObject.Reference | neo/renderer/BufferObject.h:126-128 | The buffer becomes a non-owning, unmapped window of the given size, at the other buffer's offset plus the reference offset. It shares the other buffer's handles and bytes, and frees its own storage first if it owned any |
| BufferObjects.ReferenceSeesWindow | neo/renderer/BufferObject.h:126-128 | A reference's visible bytes are the matching slice of the referenced buffer |
| BufferObjects.DynamicUpdateThenMap | neo/renderer/Vulkan/BufferObject_VK.cpp:70-240 | Allocating a dynamic buffer, updating it and mapping it shows the written bytes at the written offset |
| FrameData.RenderCommandBuffers | neo/renderer/RenderSystem.cpp:485-529 | The chain reaches the back end exactly when it holds a draw-view command and the back end is not skipped, and it reaches it unchanged |
| FrameData.AppendHasView | neo/renderer/RenderSystem.cpp:544-554 | After an append, a chain holds a view exactly when it did before or the new command is a view |
| FrameData.FreshChainHasNoView | neo/renderer/RenderSystem.cpp:485-529 | A fresh chain of only the no-op head holds no view, so it is never executed |
| FrameData.FrameDataRing.CmdHead | neo/renderer/RenderSystem.cpp:544-554 | Every chain starts with the no-op head |
| FrameData.FrameDataRing.constructor | neo/renderer/Vulkan/RenderSystem_VK.cpp:389 | Every slot starts with a fresh chain, and the frame counter is 0 |
| FrameData.FrameDataRing.InitFrameData | neo/renderer/Vulkan/RenderSystem_VK.cpp:389 | Resets every slot to a fresh chain and the frame counter to 0 |
| FrameData.FrameDataRing.GetCommandBuffer | neo/renderer/RenderSystem.cpp:544-554 | Appends the command to the current chain as its new tail. Other slots are unchanged |
| FrameData.FrameDataRing.ToggleSmpFrame | neo/renderer/RenderSystem.cpp:1115 | Advances the frame and starts a fresh chain. The closed chain stays in its slot |
| FrameData.ClosedChainSurvivesNextFrame | neo/renderer/RenderSystem.cpp:1090-1167 | A chain closed by the toggle is untouched by the next frame's commands |
| VideoModes.VidModeIndex | neo/renderer/RenderSystem.cpp:342-346 | The reset mode index always lies inside the mode list and keeps an index that already does |
| VideoModes.AsWrittenVidModeIndexOverruns | neo/renderer/Vulkan/RenderSystem_VK.cpp:312 | With `>` in the reset, an r_vidMode equal to the list length is kept and indexes one past the end |
| VideoModes.VidModeResetsAgreeElsewhere | neo/renderer/Vulkan/RenderBackend_VK.cpp:171 | The written reset and the corrected one agree on every index except the list length |
| VideoModes.SamplesForAntiAliasing | neo/renderer/RenderSystem.cpp:354-369 | MSAA 2x, 4x and 8x give 2, 4 and 8 samples, and every other mode gives 0 |
| VideoModes.DisplayModes | neo/renderer/RenderSystem.cpp:313-321 | The mode list of the chosen display; when that display cannot be queried, fullscreen falls back to display 1 |
| VideoModes.RequestParms | neo/renderer/RenderSystem.cpp:301-352 | Windowed requests use the window cvars. Fullscreen with no modes jumps to safe mode. A custom mode uses the custom size. A listed mode uses that mode's size and rate, with the index reset into the list |
| VideoModes.SafeMode | neo/renderer/RenderSystem.cpp:410-416 | The fallback leaves a safe setup, fullscreen on display 0 (r_fullscreen 1), and keeps the setting that the variant does not reset |
| VideoModes.SafeModeRequestStaysSafe | neo/renderer/RenderSystem.cpp:371-416 | A safe setup requests a fullscreen mode on display 0 without multisampling, and stays safe |
| VideoModes.LoopPass | neo/renderer/RenderSystem.cpp:292-415 | One pass of the retry loop: it skips pass 0 unless quad-buffer stereo is on, tries the request, and falls back to safe mode on failure. The attempt asks for the request's mode with the variant's sample count, and for stereo only on pass 0. A pass that goes on leaves AfterFailedPass's cvars; an attempt that ends the loop leaves the request's cvars |
| VideoModes.SetNewMode | neo/renderer/RenderSystem.cpp:288-416 | At most three attempts at increasing passes, all rejected but the last. The mode is set exactly when the last attempt is accepted, with its parameters. Failing pass 2 is fatal. Ending with no mode leaves the safe setup. Pass 0 is tried first whenever it applies. Attempt k asks for exactly the mode that the cvars at the head of pass k request (CvarsAt). A set or fatal outcome leaves that request's cvars, and three passes leave the cvars after pass 2. The attempts made are exactly the due passes (tried, with a mode to ask for) up to the pass that stopped the loop, or all three passes when it ran out, so no due pass is skipped |
| VideoModes.SetNewModeVulkan | neo/renderer/Vulkan/RenderSystem_VK.cpp:273-348 | Uses the corrected `>=` r_vidMode reset (see Findings). The Vulkan variant never reports a fatal failure. When the cvars request a mode, it sets exactly that mode on its first attempt, with r_multiSamples and stereo fixed to false (the source leaves it unset; see Left out), and leaves the request's cvars |
| VideoModes.SetScreenParms | neo/renderer/Vulkan/RenderBackend_VK.cpp:193-196 | The Vulkan back end accepts every set of parameters |
| VideoModes.RequestParmsSettles | neo/renderer/RenderSystem.cpp:301-352 | Asking again from the cvars a request leaves gives the same request: the display fallback and the r_vidMode reset are already applied |
| VideoModes.SecondAttemptDropsOnlyStereo | neo/renderer/RenderSystem.cpp:371-408 | After a failed attempt 0, attempt 1 asks for the same parameters without stereo. When attempt 0 is skipped, attempt 1 starts from the caller's cvars |
| VideoModes.LastAttemptIsSafe | neo/renderer/RenderSystem.cpp:410-416 | Pass 2 starts from the safe setup. When it asks for a mode, it asks for the first mode of display 0, fullscreen, without multisampling or stereo |
| VideoModes.RejectingEveryAttemptIsFatal | neo/renderer/RenderSystem.cpp:398-416 | When the window system rejects every attempt and display 0 lists a mode, the loop ends in the fatal error: attempt 2 from safe mode is always due and fails |
| VideoModes.RejectedModesAreFatal | neo/renderer/RenderSystem.cpp:288-416 | With one listed mode per display and a window system that refuses everything, the loop raises the fatal error, whatever the cvars |
| VideoModes.EmptyModeListsSetNoMode | neo/renderer/RenderSystem.cpp:316-326 | With fullscreen requested and no display offering a mode, no mode is set |
| VideoModes.GetModeParms | neo/renderer/Vulkan/RenderBackend_VK.cpp:134-185 | Uses the corrected `>=` r_vidMode reset (see Findings). Fails exactly when the request jumps to safe mode. Otherwise it returns the request's cvars with the current sample count and stereo fixed to false (the source leaves it unset; see Left out) |
| RenderSystem.GetWidth | neo/renderer/Vulkan/RenderSystem_VK.cpp:669-671 | The Vulkan screen width is the fixed 1280 |
| RenderSystem.GetHeight | neo/renderer/Vulkan/RenderSystem_VK.cpp:678-680 | The Vulkan screen height is the fixed 720 |
| RenderSystem.FullScreenRect | neo/renderer/RenderSystem.cpp:1138-1143 | The base crop starts at the origin and spans the whole screen |
| RenderSystem.GetVirtualWidth | neo/renderer/Vulkan/RenderSystem_VK.cpp:1644-1651 | With the virtual resolution on, the width is SCREEN_WIDTH; otherwise it is the real width |
| RenderSystem.GetVirtualHeight | neo/renderer/Vulkan/RenderSystem_VK.cpp:1653-1660 | With the virtual resolution on, the height is SCREEN_HEIGHT; otherwise it is the real height |
| RenderSystem.VirtualScreenFits | neo/renderer/Vulkan/RenderSystem_VK.cpp:1644-1660 | The virtual screen is never larger than the real one |
| RenderSystem.CropOf | neo/renderer/RenderSystem.cpp:1262-1277 | A crop has the requested size and is anchored at the previous crop's left and bottom edges |
| RenderSystem.CropStaysInside | neo/renderer/RenderSystem.cpp:1238-1277 | A crop no larger than the previous one lies inside it |
| RenderSystem.NonNull | neo/renderer/Vulkan/RenderSystem_VK.cpp:555-589 | The triangle sets freed are exactly the non-null ones |
| RenderSystem.NonNullOfThree | neo/renderer/Vulkan/RenderSystem_VK.cpp:555-589 | The three triangle sets are freed in declaration order, skipping the null ones |
| RenderSystem.RenderSystemLocal.constructor | neo/renderer/Vulkan/RenderSystem_VK.cpp:355-364 | Builds an uninitialized, cleared system over the frame ring and back end |
| RenderSystem.RenderSystemLocal.Clear | neo/renderer/Vulkan/RenderSystem_VK.cpp:555-590 | Resets every counter, crop and handle, and frees the non-null triangle sets |
| RenderSystem.RenderSystemLocal.ResetCounters | neo/renderer/Vulkan/RenderSystem_VK.cpp:555-590 | Frame, view and crop counters return to 0, the cached colour to all ones, and the GUI, job-list and screenshot state to empty |
| RenderSystem.RenderSystemLocal.FreeTriangles | neo/renderer/Vulkan/RenderSystem_VK.cpp:555-590 | Frees the non-null triangle sets and nulls all three |
| RenderSystem.RenderSystemLocal.ResetCrops | neo/renderer/Vulkan/RenderSystem_VK.cpp:555-590 | Every render crop becomes the zero rectangle |
| RenderSystem.RenderSystemLocal.FinishRendering | neo/renderer/RenderSystem.cpp:1006-1083 | Presents exactly when the renderer is up and the current frame recorded a command buffer, which advances the back-end counter by one |
| RenderSystem.RenderSystemLocal.FinishCommandBuffers | neo/renderer/RenderSystem.cpp:1090-1167 | Uninitialized: returns nothing and changes nothing. Otherwise: returns the closed chain, toggles the frame, opens a fresh chain and resets the crops to the full screen |
| RenderSystem.RenderSystemLocal.SwapCommandBuffers | neo/renderer/RenderSystem.cpp:989-999 | Uninitialized: nothing is presented or swapped. Otherwise: the frame count grows by one and the closed chain is returned with a fresh one open |
| RenderSystem.RenderSystemLocal.RenderCommandBuffers | neo/renderer/RenderSystem.cpp:485-529 | The back end runs exactly when the chain holds a view and is not skipped, and it runs the chain's known-command prefix |
| RenderSystem.RenderSystemLocal.CropRenderSize | neo/renderer/RenderSystem.cpp:1238-1277 | Uninitialized or a non-positive size: nothing changes. Otherwise pushes a crop of the requested size, anchored at the previous crop's left and bottom edges |
| RenderSystem.RenderSystemLocal.UnCrop | neo/renderer/RenderSystem.cpp:1285-1301 | Uninitialized or with no crop pushed: nothing changes. Otherwise pops one crop |
| RenderSystem.RenderSystemLocal.Init | neo/renderer/Vulkan/RenderSystem_VK.cpp:380-436 | A second Init changes nothing, the triangle sets included. The first one clears, creates the objects (each triangle set kept when it already exists), marks the system initialized and swaps once |
| RenderSystem.RenderSystemLocal.CreateObjects | neo/renderer/Vulkan/RenderSystem_VK.cpp:395-427 | Sets viewCount to 1 and stores the GUI model and job list. Each triangle set is created only if it is still null |
| RenderSystem.RenderSystemLocal.Shutdown | neo/renderer/Vulkan/RenderSystem_VK.cpp:444-482 | Clears the system, frees the non-null triangle sets and marks it uninitialized; whether the renderer is up is kept |
| RenderSystem.RenderSystemLocal.InitOpenGL | neo/renderer/Vulkan/RenderSystem_VK.cpp:1606-1625 | An initialized renderer is left alone. Otherwise the mode set runs, and the renderer is up afterwards exactly when it opened, never fatally |
| RenderSystem.RenderSystemLocal.ShutdownOpenGL | neo/renderer/Vulkan/RenderSystem_VK.cpp:1627-1632 | The renderer is no longer initialized |
| RenderSystem.RenderSystemLocal.VidRestart | neo/renderer/Vulkan/RenderSystem_VK.cpp:489-532 | Does nothing before Init. Otherwise it re-runs the mode set, which never fails fatally and sets a requested mode |
| RenderSystem.CropThenUnCrop | neo/renderer/RenderSystem.cpp:1238-1301 | A crop followed by an uncrop restores the crop stack |
| RenderSystem.ChainHandedOver | neo/renderer/RenderSystem.cpp:989-1167 | Commands recorded in a frame are exactly what the next swap hands to the back end |
| ImageVk.EmptyStep | neo/renderer/Vulkan/Image_VK.cpp:262-305 | Advances the garbage index and destroys exactly what the new slot held, which becomes empty; other slots are kept |
| ImageVk.PurgeStep | neo/renderer/Vulkan/Image_VK.cpp:386-406 | A purge adds to the current slot only; the index and the other slots are kept |
| ImageVk.PurgedImageDestroyedOnSecondEmpty | neo/renderer/Vulkan/Image_VK.cpp:262-406 | A purged image's handles are destroyed by the second EmptyGarbage after the purge, not the first |
| ImageVk.TwoEmptiesDrainEverySlot | neo/renderer/Vulkan/Image_VK.cpp:262-305 | NUM_FRAME_DATA empties in a row leave every slot empty |
| ImageVk.GarbageRing.constructor | neo/renderer/Vulkan/Image_VK.cpp:35-43 | The ring starts at index 0 with every slot empty |
| ImageVk.GarbageRing.EmptyGarbage | neo/renderer/Vulkan/Image_VK.cpp:262-305 | The in-place empty agrees with EmptyStep |
| ImageVk.Image.constructor | neo/renderer/Vulkan/Image_VK.cpp:138-156 | A new image holds no handles and is not loaded |
| ImageVk.Image.IsLoaded | neo/renderer/Vulkan/Image_VK.cpp:174-176 | Loaded exactly when the image holds a VkImage |
| ImageVk.Image.PurgeImage | neo/renderer/Vulkan/Image_VK.cpp:386-406 | The purge agrees with PurgeStep and leaves the image unloaded; view and allocation are cleared only when an image existed |
| ImageVk.PurgeTwiceAddsNothing | neo/renderer/Vulkan/Image_VK.cpp:386-406 | Purging twice queues the same garbage as purging once |
| ImageVk.FormatFromTextureFormat | neo/renderer/Vulkan/Image_VK.cpp:50-74 | Depth maps to the chosen depth format. A format is undefined exactly when unsupported. Compressed formats map to block formats. The 8-bit single-channel formats map to R8 |
| ImageVk.FormatTableInjectiveOnColour | neo/renderer/Vulkan/Image_VK.cpp:50-74 | Two supported colour formats share a Vulkan format only if both are 8-bit single-channel |
| ImageVk.ComponentMappingFor | neo/renderer/Vulkan/Image_VK.cpp:81-131 | Green-alpha reads (1, 1, 1, G). Luminance reads (R, R, R, 1), L8A8 (R, R, R, G), intensity (R, R, R, R) and alpha (1, 1, 1, R). Every other format gets the identity, and no component is ever zero |
| ImageVk.RoundUpTo4 | neo/renderer/Vulkan/Image_VK.cpp:425-428 | Compressed sizes round up to the least multiple of 4 |
| ImageVk.SwapPairs | neo/renderer/Vulkan/Image_VK.cpp:436-444 | The RGB565 swap keeps the length |
| ImageVk.SwapPairsAt | neo/renderer/Vulkan/Image_VK.cpp:436-444 | Each byte trades places with its partner in its 16-bit pair |
| ImageVk.SwapPairsInvolutive | neo/renderer/Vulkan/Image_VK.cpp:436-444 | Swapping twice restores the data |
| ImageVk.SubImageUpload | neo/renderer/Vulkan/Image_VK.cpp:422-446 | Compressed uploads round the extent up to 4. The staged size is width times height times bits over 8. The bytes are the picture's prefix, pair-swapped for RGB565 |
| ImageVk.StageSwapped | neo/renderer/Vulkan/Image_VK.cpp:436-444 | The staging loop produces the pair-swapped data |
| RenderBackendVk.ActionOf | neo/renderer/Vulkan/RenderBackend_VK.cpp:1428-1475 | NOP and SET_BUFFER do nothing. A draw-view command draws its view |
| RenderBackendVk.ActionsAppend | neo/renderer/Vulkan/RenderBackend_VK.cpp:1428-1475 | Executing two chains back to back is executing their concatenation |
| RenderBackendVk.NoViewNoDraw | neo/renderer/Vulkan/RenderBackend_VK.cpp:1428-1475 | A chain without a view command draws nothing |
| RenderBackendVk.FirstUnknown | neo/renderer/Vulkan/RenderBackend_VK.cpp:1428-1475 | The position of the first unknown command; every command before it is known |
| RenderBackendVk.Backend.constructor | neo/renderer/Vulkan/RenderBackend_VK.cpp:1108-1141 | Counter 0, current frame 0, no frame recorded or queried, state bits 0 and no view set |
| RenderBackendVk.Backend.GpuCompletes | neo/renderer/Vulkan/RenderBackend_VK.cpp:1373-1401 | The GPU signals one frame's fence and no other |
| RenderBackendVk.Backend.BlockingSwapBuffers | neo/renderer/Vulkan/RenderBackend_VK.cpp:1373-1401 | Presents exactly when the current frame was recorded. Then the counter grows by one, every recorded flag clears, and the old frame's fence is reset while the other frames' fences keep their state. Otherwise nothing changes |
| RenderBackendVk.Backend.GL_StartFrame | neo/renderer/Vulkan/RenderBackend_VK.cpp:1568-1610 | Empties the image garbage as EmptyStep does, and restarts the current frame's queries at one |
| RenderBackendVk.Backend.GL_EndFrame | neo/renderer/Vulkan/RenderBackend_VK.cpp:1617-1668 | Adds the end query, marks the frame recorded with its fence unsignalled, and leaves other frames alone |
| RenderBackendVk.Backend.ExecuteBackEndCommands | neo/renderer/Vulkan/RenderBackend_VK.cpp:1428-1475 | Runs the known prefix of the chain. It completes exactly when every command is known, recording the frame with two queries; otherwise it is a fatal bad-command error. A chain that hands on no work leaves the default GL state, whatever the bits were before. The image garbage is the ring after GL_StartFrame emptied its next slot |
| RenderBackendVk.Backend.GL_State | neo/renderer/Vulkan/RenderBackend_VK.cpp:1695-1700 | The new state is the merge of the old state, the requested bits, the kept bits and the mirror bit |
| RenderBackendVk.Backend.GL_SetDefaultState | neo/renderer/Vulkan/RenderBackend_VK.cpp:1678-1686 | Clearing the word and then setting state 0 leaves only the mirror bit, and that only for a mirror view |
| RenderBackendVk.DefaultStateForgetsOld | neo/renderer/Vulkan/RenderBackend_VK.cpp:1680-1683 | After the clear, state 0 is the default state; without it, the old bits GLS_KEEP selects would survive |
| RenderBackendVk.FrameThenSwap | neo/renderer/Vulkan/RenderBackend_VK.cpp:1373-1475 | A fully known frame followed by the swap presents and advances the counter by one |
| RenderBackendVk.MergeState | neo/renderer/Vulkan/RenderBackend_VK.cpp:1695-1700 | The requested bits are set and the mirror bit is added for mirror views. The only other bits are old ones that are kept, and all of them survive |
| RenderBackendVk.MergeStateIdempotent | neo/renderer/Vulkan/RenderBackend_VK.cpp:1695-1700 | Applying the same state twice is applying it once |
| RenderBackendVk.OffsetField | neo/renderer/Vulkan/RenderBackend_VK.cpp:1496 | The decoded offset fits its mask |
| RenderBackendVk.FrameField | neo/renderer/Vulkan/RenderBackend_VK.cpp:1504 | The decoded frame number fits its mask |
| RenderBackendVk.PreviousFrameStamp | neo/renderer/Vulkan/RenderBackend_VK.cpp:1505 | The previous frame stamp fits the mask and wraps to the mask at frame 0 |
| RenderBackendVk.DecodeHandle | neo/renderer/Vulkan/RenderBackend_VK.cpp:1482-1511 | Odd handles are static. An even handle is stale exactly when its frame is not the previous frame. Live handles yield their offset |
| RenderBackendVk.FrameHandle | neo/renderer/Vulkan/RenderBackend_VK.cpp:1482-1511 | A packed frame handle is even and within the handle range |
| RenderBackendVk.FrameHandleFields | neo/renderer/Vulkan/RenderBackend_VK.cpp:1482-1511 | Decoding a packed handle gives back its offset and frame |
| RenderBackendVk.FrameHandleRoundTrip | neo/renderer/Vulkan/RenderBackend_VK.cpp:1482-1511 | A handle stamped with the previous frame decodes to a frame-cache buffer at its offset |
| RenderBackendVk.OtherFrameHandleIsStale | neo/renderer/Vulkan/RenderBackend_VK.cpp:1482-1511 | A handle stamped with any other frame is rejected |
| RenderBackendVk.ChooseSurfaceFormat | neo/renderer/Vulkan/RenderBackend_VK.cpp:595-612 | A single undefined entry or an offered preferred format gives the preferred format; otherwise the first entry |
| RenderBackendVk.ChoosePresentMode | neo/renderer/Vulkan/RenderBackend_VK.cpp:619-640 | FIFO exactly when vsync is on or no low-latency mode is offered; otherwise the first low-latency mode offered |
| RenderBackendVk.ToLower | neo/renderer/Vulkan/RenderBackend_VK.cpp:377-391 | ASCII upper case maps to lower case, everything else is kept |
| RenderBackendVk.MatchesSome | neo/renderer/Vulkan/RenderBackend_VK.cpp:377-391 | Finds a name exactly when some available extension equals it ignoring case |
| RenderBackendVk.CheckPhysicalDeviceExtensionSupport | neo/renderer/Vulkan/RenderBackend_VK.cpp:377-391 | Succeeds exactly when every required extension is offered |
| RenderBackendVk.SampleCountFor | neo/renderer/Vulkan/RenderBackend_VK.cpp:826-836 | The sample count is the largest supported count not above the request, or is kept when none qualifies |
| RenderBackendVk.ChooseSupportedFormat | neo/renderer/Vulkan/RenderBackend_VK.cpp:285-301 | Returns the first supported candidate among the first numFormats. It reports no format exactly when none is supported, and a read past the end exactly when the count exceeds the array and none is supported |
| RenderBackendVk.SelectDepthFormatAsWritten | neo/renderer/Vulkan/RenderBackend_VK.cpp:840-848 | With a count of 3 for two entries, a device with neither depth format reads past the array instead of failing |
| RenderBackendVk.NoDepthFormatReadsPastEnd | neo/renderer/Vulkan/RenderBackend_VK.cpp:840-848 | A device that supports no format makes the as-written selection read past the end |
| RenderBackendVk.SelectDepthFormat | neo/renderer/Vulkan/RenderBackend_VK.cpp:840-848 | The corrected selection never reads past the array. It fails exactly when neither depth format is supported, and prefers D32S8 |
| ScreenshotGl.TileExtent | neo/renderer/OpenGL/RenderSystem_GL.cpp:899-908 | A tile is as large as the window allows, clipped at the image's right or top edge |
| ScreenshotGl.PaddedWords | neo/renderer/OpenGL/RenderSystem_GL.cpp:913 | The padded row length in 4-byte words is the least that holds 3w bytes |
| ScreenshotGl.RowPitch | neo/renderer/OpenGL/RenderSystem_GL.cpp:913 | The read-back row pitch is a multiple of 4 within 3 bytes of 3w |
| ScreenshotGl.RowPitchMasksLowBits | neo/renderer/OpenGL/RenderSystem_GL.cpp:913 | The pitch equals the source's add-3-and-mask expression |
| ScreenshotGl.RowPitchIsLeast | neo/renderer/OpenGL/RenderSystem_GL.cpp:913 | No smaller multiple of 4 holds a row |
| ScreenshotGl.TileAt | neo/renderer/OpenGL/RenderSystem_GL.cpp:899-913 | Each tile is non-empty, no larger than the window and inside the image, with the padded pitch |
| ScreenshotGl.WriteRowIsSplice | neo/renderer/OpenGL/RenderSystem_GL.cpp:915-919 | The byte-wise row copy is a splice of the row into the buffer |
| ScreenshotGl.TileRowOffsets | neo/renderer/OpenGL/RenderSystem_GL.cpp:915-919 | Row y of a tile goes to ((yo+y)·width+xo)·3 in the image and comes from y·pitch in the read-back |
| ScreenshotGl.TileAtFits | neo/renderer/OpenGL/RenderSystem_GL.cpp:849-919 | Every row copy of every tile stays within the buffer and the read-back |
| ScreenshotGl.CopyTile | neo/renderer/OpenGL/RenderSystem_GL.cpp:915-919 | The row-copy loop leaves the buffer equal to CopyRows |
| ScreenshotGl.ReadTiledPixels | neo/renderer/OpenGL/RenderSystem_GL.cpp:819-935 | The tile loops leave the buffer equal to TilesFrom, copying each tile's read-back in column order |
| ScreenshotGl.ReadColumn | neo/renderer/OpenGL/RenderSystem_GL.cpp:849-851 | One column of tiles advances TilesFrom by one column |
| ScreenshotGl.ReadTile | neo/renderer/OpenGL/RenderSystem_GL.cpp:851-920 | One tile advances ColumnFrom by one tile |
| ScreenshotGl.TilesFromKeepsPrefix | neo/renderer/OpenGL/RenderSystem_GL.cpp:976-980 | Reading into buffer+18 leaves the 18 header bytes untouched |
| ScreenshotGl.ReadTiledPixelsFillsPixel | neo/renderer/OpenGL/RenderSystem_GL.cpp:849-919 | Channel c of pixel (x, y) comes from the readback of the tile at (x - x % sysWidth, y - y % sysHeight): byte `(y - yo) * row + (x - xo) * 3 + c` of it, where row is the tile's padded row |
| ScreenshotGl.TilesFromKeepsOutside | neo/renderer/OpenGL/RenderSystem_GL.cpp:915-919 | The tile copies write only the image: every byte in front of it and after it keeps its value |
| ScreenshotGl.OriginIsModOffset | neo/renderer/OpenGL/RenderSystem_GL.cpp:849-851 | The origin of the tile holding a coordinate, as the loops step by the window size, is the coordinate minus its remainder by that size |
| ScreenshotGl.TileOf | neo/renderer/OpenGL/RenderSystem_GL.cpp:849-913 | The tile holding a pixel contains it, starts at its rounded-down origin and has the padded row length |
| ScreenshotGl.ImageOffset | neo/renderer/OpenGL/RenderSystem_GL.cpp:917 | The memcpy destination of a pixel's channel lies inside the image |
| ScreenshotGl.ReadbackOffset | neo/renderer/OpenGL/RenderSystem_GL.cpp:913-918 | The memcpy source of a pixel's channel lies inside the readback buffer |
| ScreenshotGl.TilePixel | neo/renderer/OpenGL/RenderSystem_GL.cpp:899-919 | Copying one tile gives each pixel inside it the bytes at its row and column of the readback, and leaves every other pixel unchanged |
| ScreenshotGl.TilesFromPixel | neo/renderer/OpenGL/RenderSystem_GL.cpp:849-921 | Reading the columns from xo on gives each pixel at or right of xo its tile's bytes, and leaves pixels left of xo unchanged |
| ScreenshotGl.ColumnFromPixel | neo/renderer/OpenGL/RenderSystem_GL.cpp:851-920 | Reading a column from yo down, then the later columns, gives exactly the pixels of those tiles their tile's bytes |
| ScreenshotGl.RowsWrite | neo/renderer/OpenGL/RenderSystem_GL.cpp:915-919 | Byte j of row k of a tile is copied from byte j of readback row k |
| ScreenshotGl.RowsKeep | neo/renderer/OpenGL/RenderSystem_GL.cpp:915-919 | Bytes between the copied rows and past the last one keep their value |
| ScreenshotGl.SingleTile | neo/renderer/OpenGL/RenderSystem_GL.cpp:849-919 | An image that fits the window is read as one tile with its own width and height |
| ScreenshotGl.AccumulateIsSum | neo/renderer/OpenGL/RenderSystem_GL.cpp:1002-1012 | The unsigned-short accumulator holds the exact sum of the passes, with no wrap |
| ScreenshotGl.QuotientOfSum | neo/renderer/OpenGL/RenderSystem_GL.cpp:1016-1026 | The division back to bytes is exact integer division |
| ScreenshotGl.AverageIsMean | neo/renderer/OpenGL/RenderSystem_GL.cpp:983-1028 | Every blended byte is the rounded-down mean of the passes |
| ScreenshotGl.AverageOfEqual | neo/renderer/OpenGL/RenderSystem_GL.cpp:983-1028 | Blending equal passes gives that value back |
| ScreenshotGl.AverageOfOne | neo/renderer/OpenGL/RenderSystem_GL.cpp:983-1028 | A blend of one pass is that pass |
| ScreenshotGl.OnePassBlendIsPlainRead | neo/renderer/OpenGL/RenderSystem_GL.cpp:972-1028 | The blend path with one pass is the plain read |
| ScreenshotGl.AddPass | neo/renderer/OpenGL/RenderSystem_GL.cpp:1002-1012 | The accumulation loop adds one pass's bytes to the accumulator |
| ScreenshotGl.DivideInto | neo/renderer/OpenGL/RenderSystem_GL.cpp:1016-1026 | The division loop writes the quotients at the image base, leaving other bytes unchanged |
| ScreenshotGl.BlendPasses | neo/renderer/OpenGL/RenderSystem_GL.cpp:983-1028 | The blend loop leaves the buffer equal to Blended |
| ScreenshotGl.TgaHeaderFields | neo/renderer/OpenGL/RenderSystem_GL.cpp:1038-1043 | The header gets type 2, 24 bits per pixel and 16-bit little-endian width and height; other bytes are kept |
| ScreenshotGl.TgaHeaderKeepsPixels | neo/renderer/OpenGL/RenderSystem_GL.cpp:1038-1043 | Filling the header leaves the pixels alone |
| ScreenshotGl.FillTgaHeader | neo/renderer/OpenGL/RenderSystem_GL.cpp:1038-1043 | The in-place header fill agrees with WithTgaHeader |
| ScreenshotGl.SwapRedBlueInvolutive | neo/renderer/OpenGL/RenderSystem_GL.cpp:1045-1053 | Swapping red and blue twice restores the image |
| ScreenshotGl.SwapInPlace | neo/renderer/OpenGL/RenderSystem_GL.cpp:1045-1053 | The swap loop agrees with SwapRedBlue |
| ScreenshotGl.PassCount | neo/renderer/OpenGL/RenderSystem_GL.cpp:972-1000 | At least one pass, and exactly `blends` when more than one is asked for |
| ScreenshotGl.ReadImage | neo/renderer/OpenGL/RenderSystem_GL.cpp:958-1028 | Reading leaves the buffer equal to ScreenshotImage: the plain read for one pass, the blend otherwise |
| ScreenshotGl.EncodeTga | neo/renderer/OpenGL/RenderSystem_GL.cpp:1036-1053 | Encoding writes the header, then swaps red and blue across all pixels |
| ScreenshotGl.TakeScreenshot | neo/renderer/OpenGL/RenderSystem_GL.cpp:949-1061 | The bytes handed to the file writer are ScreenshotFile |
| ScreenshotGl.TgaFileLayout | neo/renderer/OpenGL/RenderSystem_GL.cpp:958-1055 | A TGA screenshot is 18+3wh bytes. Its header says type 2, 24-bit, width and height, with other header bytes zero. Swapping back gives the blended image |
| ScreenshotGl.TgaEncoding | neo/renderer/OpenGL/RenderSystem_GL.cpp:1036-1053 | The header plus swap, applied to an image with a zero header, gives that layout and can be undone |
| ScreenshotGl.ImageKeepsHeader | neo/renderer/OpenGL/RenderSystem_GL.cpp:958-1028 | Reading and blending never touch the header bytes |
| RenderSystemGl.ScreenShotArgs | neo/renderer/OpenGL/RenderSystem_GL.cpp:1136-1190 | 1 to 4 arguments take a shot. The size is the screen's or the given one. Blends are 1 unless a fourth argument gives them, clamped to 1..MAX_BLENDS |
| RenderSystemGl.ScreenShotBlendIsMean | neo/renderer/OpenGL/RenderSystem_GL.cpp:1135 | With the command's blend count, every output byte is the exact mean of the passes and fits a byte |
| RenderSystemGl.StencilFile | neo/renderer/OpenGL/RenderSystem_GL.cpp:1198-1232 | The stencil file is an 18-byte header plus three bytes per pixel |
| RenderSystemGl.StencilFilePixels | neo/renderer/OpenGL/RenderSystem_GL.cpp:1198-1232 | The header is type 2, 24-bit, with width and height. Each pixel is grey with its stencil value |
| RenderSystemGl.StencilShot | neo/renderer/OpenGL/RenderSystem_GL.cpp:1198-1232 | The fill loop writes StencilFile |
| RenderSystemGl.SizeUp | neo/renderer/OpenGL/RenderSystem_GL.cpp:2107-2117 | Size up adds 10, capped at 100 |
| RenderSystemGl.SizeDown | neo/renderer/OpenGL/RenderSystem_GL.cpp:2127-2137 | Size down subtracts 10, floored at 10 |
| RenderSystemGl.SizeStepsStayInRange | neo/renderer/OpenGL/RenderSystem_GL.cpp:2107-2137 | From 10..100, both steps stay in 10..100 and move by at most 10 |
| RenderSystemGl.SizeStepsUndoEachOther | neo/renderer/OpenGL/RenderSystem_GL.cpp:2107-2137 | Away from the ends, size down undoes size up and vice versa |
| RenderSystemGl.SizeUpReachesFull | neo/renderer/OpenGL/RenderSystem_GL.cpp:2107-2117 | Enough presses of size up always reach 100 |
| RenderSystemGl.SizeUpStaysFull | neo/renderer/OpenGL/RenderSystem_GL.cpp:2107-2117 | Once at 100, size up stays there |
| RenderSystemGl.ScreenFraction.SizeUpCommand | neo/renderer/OpenGL/RenderSystem_GL.cpp:2107-2117 | The command sets the cvar to SizeUp of its old value |
| RenderSystemGl.ScreenFraction.SizeDownCommand | neo/renderer/OpenGL/RenderSystem_GL.cpp:2127-2137 | The command sets the cvar to SizeDown of its old value |
| RenderSystemGl.Half | neo/renderer/OpenGL/RenderSystem_GL.cpp:2780-2811 | The int division by 2 rounds down |
| RenderSystemGl.GetWidth | neo/renderer/OpenGL/RenderSystem_GL.cpp:2780-2787 | Side-by-side modes halve the native width; others keep it |
| RenderSystemGl.GetHeight | neo/renderer/OpenGL/RenderSystem_GL.cpp:2794-2811 | HDMI 720 gives 720. Warped side-by-side gives half the width. Interlaced and top-bottom halve the height. The rest keep it |
| RenderSystemGl.WarpedSideBySideIsSquare | neo/renderer/OpenGL/RenderSystem_GL.cpp:2780-2811 | Warped side-by-side gives each eye a square view |
| RenderSystemGl.GlConfig.UpdateStereo3DMode | neo/renderer/OpenGL/RenderSystem_GL.cpp:2886-2896 | A 1280x1470 native screen forces HDMI 720; otherwise the stereo cvar decides |
| RenderSystemGl.FramePackedDisplaySize | neo/renderer/OpenGL/RenderSystem_GL.cpp:2780-2906 | On a 1280x1470 frame-packed display, every eye renders 1280x720 |
| RenderSystemGl.ReverseBitsMirrors | neo/renderer/OpenGL/RenderSystem_GL.cpp:1507-1524 | The bit-swap ladder puts bit i at bit 31−i |
| RenderSystemGl.ReverseBitsInvolutive | neo/renderer/OpenGL/RenderSystem_GL.cpp:1507-1524 | Reversing twice gives the word back |
| RenderSystemGl.VdCNumerator | neo/renderer/OpenGL/RenderSystem_GL.cpp:1507-1524 | The 24-bit numerator of the radical inverse fits 24 bits |
| RenderSystemGl.VdCNumeratorBits | neo/renderer/OpenGL/RenderSystem_GL.cpp:1507-1524 | Bit j of the numerator is bit 23−j of n |

## Left out

- Threads and the SMP front-end/back-end split. The model runs the frame on one thread.
- Floating point: the float division of `RadicalInverse_VdC`, GPU timing queries and gamma tables. VdC is modelled up to its integer numerator.
- Every Vulkan and OpenGL API call is left out, along with device, swapchain, render-target and pipeline creation beyond the selection helpers. Handles are opaque numbers, and GPU completion is an explicit `GpuCompletes` step.
- File I/O: `WriteFile`, `R_WritePNG` and the file-name logic of `R_ScreenshotFilename`. The model returns the bytes that would be written.
- The cvar and command systems: cvar values and `atoi` results are parameters.
- `R_FrameAlloc`, `R_InitFrameData` and `R_ToggleSmpFrame` live in FrameData.cpp, which is not part of this model. They are modelled by their effect on the command chains: a fresh no-op head per frame, appends at the tail, and a toggle that closes the chain.
- The body of `Reference` is in BufferObject.cpp, which is not part of this model. `BufferObjects.BufferObject.Reference` follows its declaration and doc comment in BufferObject.h.
- Constants defined in headers outside the model are named constants or parameters: `NUM_FRAME_DATA` = 2, `MAX_RENDER_CROPS` = 8, `SCREEN_WIDTH`/`SCREEN_HEIGHT`, the vertex-cache field layout, `GLS_KEEP` and the mirror bit, and `BitsForFormat`.
- The GUI model calls, demo recording and `R_InitDrawSurfFromTri` in Init, FinishCommandBuffers and Clear.
- `RenderSystem.RenderSystemLocal.ShutdownOpenGL`: only the flag change is modelled. `R_ShutdownFrameData` and `GLimp_Shutdown` are outside the model.
- The AMD memory-allocator branch of the buffer code. Only the `vkcontext` allocator path is modelled.
- The `BUGFIXEDSCREENSHOTRESOLUTION` branch of R_ScreenShot_f, which is compiled out.
- The idImage destructor, `AllocImage`, `CreateSampler`, `CreateFromSwapImage` and the staging manager's buffers.
- `RenderSystem.RenderSystemLocal.CropRenderSize` requires a free crop slot. The source has no bound check on `currentRenderCrop`, so overflowing the crop array is not modelled.
- `ImageVk.SubImageUpload` requires the picture to hold the bytes it copies. The source reads `pic` unchecked.
- `RenderBackendVk.ChooseSurfaceFormat` requires a non-empty format list. The source indexes `formats[0]` without a check.
- BufferObjects.BufferObject.AllocBufferObject: requires `allocSize <= MAX_ALLOC_SIZE`. Above it the 16-byte round-up wraps to a negative C int (AllocedSize states this). What the allocator then does with that size is driver behaviour outside the model.
- ScreenshotGl.TakeScreenshot: takes non-negative sizes. The console command passes `atoi` results unchecked, so a request of -2 by -2 gives four pixels and a 30-byte file that the tile loops never fill. The model does not cover negative sizes.
- VideoModes.SetNewModeVulkan: the source never assigns `parms.stereo`, so the flag holds whatever the uninitialised `gfxImpParms_t` held. The model fixes it to false.
- VideoModes.GetModeParms: as in SetNewModeVulkan, `parms.stereo` is never assigned in the source, and the model fixes it to false.
- RenderBackendVk.Backend.ExecuteBackEndCommands: the GL_State calls made by DrawView, CopyRender and PostProcess are outside the model, so the state bits are stated only for a chain that hands on no work. DrawView's update of `viewDef`, and so of `viewIsMirror`, is not modelled either.
- `BufferObjects.BufferObject.Update` requires the buffer's offset to be 16-aligned, as every allocation and reference in the engine makes it. It does not model a misaligned reference.

## Findings

| source | as written | input that shows it | evidently intended | confidence | as-written member | corrected member |
|---|---|---|---|---|---|---|
| neo/renderer/Vulkan/BufferObject_VK.cpp:188-190 | Update rejects a write only when `size > GetSize()`, ignoring `offset` | size 64, offset 16, buffer size 64: accepted, writes 16 bytes past the end | reject when `offset + size > GetSize()` | not executed | BufferObjects.AsWrittenUpdateCheckAdmitsOverrun | BufferObjects.UpdateCheckConfinesWrite |
| neo/renderer/Vulkan/RenderBackend_VK.cpp:840-848 | the depth-format list has 2 entries but is searched with a count of 3 | a device supporting neither D32S8 nor D24S8: the search reads `formats[2]` | pass the array's length, 2 | not executed | RenderBackendVk.NoDepthFormatReadsPastEnd | RenderBackendVk.SelectDepthFormat |
| neo/renderer/Vulkan/RenderSystem_VK.cpp:312 | r_vidMode is reset only when `> modeList.Num()` (also RenderBackend_VK.cpp:171) | r_vidMode equal to modeList.Num(): the mode list is indexed one past its end | reset when `>= modeList.Num()`, as RenderSystem.cpp:342 does | not executed | VideoModes.AsWrittenVidModeIndexOverruns | VideoModes.VidModeIndex |
