# RenderTexture: offscreen render target and texture readback

This project models the offscreen render-target helper of the EngineerToBeDx12 samples
(`EngineerToBeDx12DR/RenderTexture.cpp`): the `RenderTexture` class, which tracks the
device it is bound to, the render-target-view descriptor it writes through, the resource
state its texture is believed to be in and the texture's size; the free function
`CaptureTexture`, which copies a 2D texture into a CPU-readable readback buffer (resolving
MSAA content first); and `RenderTexture::CopyData`, which rounds the row pitch, runs the
capture and reports the image size.

Direct3D 12 itself is not modelled. Every driver call is an oracle whose answer is a
parameter: `CheckFeatureSupport` is a `FormatQuery`, each `CreateCommittedResource` a
`Creation` (status and new resource identity), the calls of one capture a `CaptureOracle`,
and `Map` a status plus whether the pointer was non-null. Devices and queues are opaque
identities; a resource is its identity, its description and its heap. Commands recorded
on a command list are values (`Transition`, `Resolve`, `CopyToBuffer`).

Layout:

- `bits.dfy` (`Bits`): fixed-width integer types and a bitwise AND on naturals, with
  lemmas about masks.
- `d3d12.dfy` (`D3D12`): HRESULT codes and `HRESULT_FROM_WIN32`, resource states, format
  support flags, resource descriptions, the command values and `D3D12CalcSubresource`.
- `row_pitch.dfy` (`RowPitch`): the 256-byte round-up of the row pitch and the image
  size of `CopyData`.
- `capture_texture.dfy` (`ScreenGrab`): `CaptureTexture` as a specification function
  (`Capture`) with its lemmas, and as a method with the nested item/level loop, proved
  equal to the function.
- `render_texture.dfy` (`RenderTextures`): the object's fields as a value (`Fields`), one
  specification function per member with the lemmas about them, and the `RenderTexture`
  class whose methods update the fields in the source's order and are proved to match
  the specification functions and keep the invariant `Valid()`.

Integers are unbounded in Dafny; `size_t`, `UINT`, `UINT64` and `LONG` are subset types,
and every wrap-around or truncation the code performs is written out (`% TWO_64`,
`% TWO_32`). Exceptions are an `Outcome`; the fields changed before a throw stay changed.

## Model

| member | source | states |
|---|---|---|
| `D3D12.HResultFromWin32` | EngineerToBeDx12DR/RenderTexture.cpp:171 | the converted code is a failure exactly when the Win32 code is nonzero; its low 16 bits carry the code and the facility is Win32 |
| `D3D12.CalcSubresourceExact` | EngineerToBeDx12DR/RenderTexture.cpp:275 | for plane 0 and 16-bit counts the subresource index of (item, level) is `level + item * mipLevels`, computed without 32-bit wrap-around and below `arraySize * mipLevels` |
| `RowPitch.RoundUpPitchAlignedAndBounded` | EngineerToBeDx12DR/RenderTexture.cpp:368-373 | for every footprint pitch the rounded pitch is a multiple of 256 and at most 0xFFFF_FF00, so the `dstRowPitch > UINT32_MAX` test never succeeds |
| `RowPitch.RoundUpPitchIsLeastMultiple` | EngineerToBeDx12DR/RenderTexture.cpp:368-369 | while `fpRowPitch + 255 < 2^32` the rounded pitch is the least multiple of 256 that is at least `fpRowPitch`, that is `256 * ceil(fpRowPitch / 256)` |
| `RowPitch.RoundUpPitchShrinksWidePitches` | EngineerToBeDx12DR/RenderTexture.cpp:369 | above 0xFFFF_FF00 the rounded pitch is smaller than the footprint pitch |
| `RowPitch.RoundUpPitchOfTwoTo32` | EngineerToBeDx12DR/RenderTexture.cpp:369-373 | a footprint pitch of 2^32 rounds to 0, which the following guard lets through |
| `RowPitch.RoundUpPitchWideIsLeastMultiple` | EngineerToBeDx12DR/RenderTexture.cpp:369 | with a 64-bit mask the rounded pitch is the least multiple of 256 at or above the footprint pitch, `256 * ceil(fpRowPitch / 256)`, whenever the sum does not wrap |
| `RowPitch.RoundUpPitchWideGuard` | EngineerToBeDx12DR/RenderTexture.cpp:369-373 | with a 64-bit mask, whenever the sum `fpRowPitch + 255` does not wrap, the guard rejects exactly the footprint pitches above 0xFFFF_FF00 (for the 255 pitches where it wraps the corrected round-up is small and passes) |
| `RowPitch.RoundUpPitchAgreesBelowLimit` | EngineerToBeDx12DR/RenderTexture.cpp:369 | on every footprint pitch up to 0xFFFF_FF00 the 32-bit and 64-bit masks give the same pitch |
| `RowPitch.ReturnedImageSize` | EngineerToBeDx12DR/RenderTexture.cpp:386-407 | the 64-bit image size returned through `uint32_t` is `Width * Height * 4` modulo 2^32, a multiple of 4 |
| `ScreenGrab.ArgumentError` | EngineerToBeDx12DR/RenderTexture.cpp:166-179 | the checks run in order (null queue or source: E_INVALIDARG; not 2D: NOT_SUPPORTED; pitch above UINT32_MAX: ARITHMETIC_OVERFLOW; plane count not 1: NOT_SUPPORTED); the first that fails decides the code, every code is a failure, and there is no error exactly when all four pass |
| `ScreenGrab.StagingBufferHoldsEveryRow` | EngineerToBeDx12DR/RenderTexture.cpp:224-234 | after the pitch check the 64-bit product `srcPitch * Height` does not wrap: the buffer holds every row, in one buffer row |
| `ScreenGrab.ResolveLevelsIndices` | EngineerToBeDx12DR/RenderTexture.cpp:273-277 | the inner loop for an item resolves levels 0 .. mipLevels-1 in order, at indices `item * mipLevels + level` |
| `ScreenGrab.ResolveItemsIndices` | EngineerToBeDx12DR/RenderTexture.cpp:271-278 | the two loops issue `arraySize * mipLevels` resolves and the k-th resolves subresource k into subresource k: each subresource exactly once |
| `ScreenGrab.Capture` | EngineerToBeDx12DR/RenderTexture.cpp:157-336 | the result is S_OK or a failure; S_OK always leaves a staging resource; an argument error returns its code with nothing recorded and `pStaging` untouched; a source in a readback heap is returned as the staging resource with S_OK |
| `ScreenGrab.CaptureStagingBuffer` | EngineerToBeDx12DR/RenderTexture.cpp:283-317 | once the list is submitted, `pStaging` is a readback buffer of `srcPitch * Height` bytes and the list ends with the source's transition to COPY_SOURCE, the copy into that buffer at `srcPitch`, and the transition to the after-state |
| `ScreenGrab.CaptureResolvesEverySubresourceOnce` | EngineerToBeDx12DR/RenderTexture.cpp:236-281 | a submitted capture of an MSAA source resolves every subresource exactly once, in order, into a single-sample copy and copies from that copy; a single-sample source is copied directly with no resolve |
| `ScreenGrab.CaptureTexture` | EngineerToBeDx12DR/RenderTexture.cpp:157-336 | the function with its nested item/level loop returns exactly the status, staging resource and recorded commands of `Capture` |
| `RenderTextures.Extent` | EngineerToBeDx12DR/RenderTexture.cpp:151-152 | the extent passed on is `max(hi - lo, 1)`: at least 1 and at least the difference |
| `RenderTextures.ReleaseResetsToInitial` | EngineerToBeDx12DR/RenderTexture.cpp:130-139 | releasing resets state, device, texture and size to the constructor's values, keeps the descriptor, keeps the invariant and is idempotent |
| `RenderTextures.SetDeviceSameBindingIsNoOp` | EngineerToBeDx12DR/RenderTexture.cpp:37-40 | binding the same device and descriptor again changes no field |
| `RenderTextures.SetDeviceOutcome` | EngineerToBeDx12DR/RenderTexture.cpp:42-76 | a new binding releases any bound device first; it throws exactly when the query fails or either TEXTURE2D or RENDER_TARGET support is missing, leaving no device; otherwise device and descriptor are stored; no texture remains, and a repeated successful call changes nothing |
| `RenderTextures.RequiredSupportNeedsBothFlags` | EngineerToBeDx12DR/RenderTexture.cpp:56-57 | `(Support1 & required) == required` holds exactly when both the TEXTURE2D and RENDER_TARGET bits are set |
| `RenderTextures.SizeResourcesNoOps` | EngineerToBeDx12DR/RenderTexture.cpp:81-90 | the same size, or no device while the stored size is in range, leaves every field unchanged; the out-of-range throw happens exactly when the size changes and the stored width or height exceeds UINT32_MAX |
| `RenderTextures.SizeResourcesResize` | EngineerToBeDx12DR/RenderTexture.cpp:92-127 | with a device and a new size: success stores the requested size, RENDER_TARGET and a texture of that size; a failed creation throws with size 0 x 0 and no texture; a repeated successful call changes nothing |
| `RenderTextures.CreatedTextureMatchesRequest` | EngineerToBeDx12DR/RenderTexture.cpp:96-127 | the texture a successful resize creates is a 2D render target with one array slice, one mip level and one sample, of the object's format and the recorded width; its height is the recorded height exactly when that fits in 32 bits, and the height modulo 2^32 otherwise |
| `RenderTextures.SizeResourcesKeepsConsistent` | EngineerToBeDx12DR/RenderTexture.cpp:79-128 | every call keeps the invariant (a texture only with a device, of the recorded size; no texture means 0 x 0) |
| `RenderTextures.OversizedRequestPassesRangeCheck` | EngineerToBeDx12DR/RenderTexture.cpp:84-99 | with a device bound and a driver that accepts the texture description (whose height is then 0), a height of 2^32 passes the range check, is truncated to 0 in the description and is stored, and the next resize then throws out-of-range |
| `RenderTextures.SetWindowSizeIsPositive` | EngineerToBeDx12DR/RenderTexture.cpp:148-155 | a resize caused by `SetWindow` records at least 1 x 1 and at least the rectangle's extents, and keeps the invariant |
| `RenderTextures.CopyDataPitchAlwaysAccepted` | EngineerToBeDx12DR/RenderTexture.cpp:369-376 | the pitch handed to `CaptureTexture` is 256-byte aligned and never exceeds UINT32_MAX |
| `RenderTextures.CopyDataResultMeaning` | EngineerToBeDx12DR/RenderTexture.cpp:338-407 | a width above UINT32_MAX returns -1; -1 is returned exactly when the width check, the capture, `Map` or the pointer check fails; otherwise the result is `Width * Height * 4` modulo 2^32; after a successful capture the pixel buffer has the 64-bit image size |
| `RenderTextures.CopyDataKeepsFields` | EngineerToBeDx12DR/RenderTexture.cpp:376-383 | `CopyData` changes only the tracked state, to RENDER_TARGET and only after a successful capture, and keeps the invariant |
| `RenderTextures.RenderTexture.constructor` | EngineerToBeDx12DR/RenderTexture.cpp:24-31 | a new object has state COMMON, a null descriptor, no device, no texture and size 0 x 0 |
| `RenderTextures.RenderTexture.SetDevice` | EngineerToBeDx12DR/RenderTexture.cpp:33-77 | the fields and outcome are those of `SetDeviceSpec`; the invariant is kept |
| `RenderTextures.RenderTexture.SizeResources` | EngineerToBeDx12DR/RenderTexture.cpp:79-128 | the fields and outcome are those of `SizeResourcesSpec`; the invariant is kept |
| `RenderTextures.RenderTexture.ReleaseDevice` | EngineerToBeDx12DR/RenderTexture.cpp:130-139 | the fields become `Release` of the old ones |
| `RenderTextures.RenderTexture.TransitionTo` | EngineerToBeDx12DR/RenderTexture.cpp:141-146 | a transition from the old state to the requested one is recorded for the current texture, then the state becomes the requested one; nothing else changes and the invariant is kept |
| `RenderTextures.RenderTexture.SetWindow` | EngineerToBeDx12DR/RenderTexture.cpp:148-155 | the fields and outcome are those of `SizeResourcesSpec` on the clamped extents; the invariant is kept |
| `RenderTextures.RenderTexture.CopyData` | EngineerToBeDx12DR/RenderTexture.cpp:338-407 | the result, fields and pixel-buffer length are those of `CopyDataSpec`, which runs `Capture` with the rounded pitch; the invariant is kept |

## Findings

| source | as written | input that shows it | evidently intended | confidence | as-written member | corrected member |
|---|---|---|---|---|---|---|
| EngineerToBeDx12DR/RenderTexture.cpp:369-373 | `(fpRowPitch + 255) & ~0xFFu` masks with the 32-bit constant 0xFFFF_FF00, so every bit from 32 up is cleared and the `dstRowPitch > UINT32_MAX` check can never succeed | `fpRowPitch = 0x1_0000_0000` gives `dstRowPitch = 0`, which passes the check | a 64-bit mask (`~0xFFull`), so that pitches that do not fit 32 bits are rejected | medium, not executed | `RowPitch.RoundUpPitchOfTwoTo32` | `RowPitch.RoundUpPitchWideGuard` |

The model of `CopyData` keeps the mask as written, so that it describes the code.
`RowPitch.RoundUpPitchAgreesBelowLimit` shows that it behaves exactly like the corrected
round-up on every footprint pitch up to 0xFFFF_FF00; the two differ only on pitches the
corrected guard would reject.

## Left out

- Direct3D 12 and DXGI calls (`CheckFeatureSupport`, `CreateCommittedResource`,
  `CreateCommandAllocator`, `CreateCommandList`, `CreateFence`, `GetHeapProperties`,
  `GetCopyableFootprints`, `GetDevice`, `Map`/`Unmap`, `Close`, `ExecuteCommandLists`,
  `Signal`) are foreign code: their answers are parameters.
- `CreateRenderTargetView` in `SizeResources` and `SetDebugObjectName`: driver side
  effects with no field of the object behind them.
- The fence wait (`GetCompletedValue` and `SwitchToThread`, lines 332-333):
  synchronisation between CPU and GPU, not sequential logic.
- The Xbox row-pitch branch (lines 364-366): it depends on a platform constant that is
  not part of this model.
- The `memcpy` of pixel bytes (line 403): only the length of the pixel buffer is
  modelled, not its contents.
- The clear colour (`m_clearColor`) and the clear value passed at creation: floating point,
  with no effect on the modelled fields.
- `RenderTextures.RenderTexture.TransitionTo`: `TransitionResource` lives in
  DirectXHelpers.h, which is not part of this model, so the model records each call with
  its arguments and does not say whether a barrier with equal before- and after-states
  is dropped.
- The debug-only `assert((srcPitch & 0xFF) == 0)` in `CaptureTexture`: release builds do
  not check it; `CopyDataPitchAlwaysAccepted` shows `CopyData` always satisfies it.
- `RenderTextures.RenderTexture.SetDevice`: the device argument is a non-null identity;
  the source dereferences it, so a null device is outside what callers may pass.
- `RenderTextures.RenderTexture.CopyData`: requires a texture and a non-null queue; the source dereferences `m_resource` and `pCommandQueue` without checking (lines 341 and 344), so calling it without them is outside what callers may pass.
- `RenderTextures.RenderTexture.SetWindow`: requires `right - left` and `bottom - top`
  to fit in `LONG`, since an overflowing subtraction is undefined in the source.
- `ScreenGrab.CaptureTexture`: the `device` argument is not modelled (it is never checked
  for null in the source, only used for oracle calls); the command list of a failed
  capture is returned as recorded, though it is never submitted.
- RenderTexture.h, DirectXHelpers.h and d3dx12.h are not part of this model; `UpdateState`
  is taken to assign the tracked state, as its call at line 383 implies.
- CopyTexture.cpp is entirely commented out and is not modelled; the rest of the
  repository (game loop, effects, UI, logging, vertex types) is outside the helper.
