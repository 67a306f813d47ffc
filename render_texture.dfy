/**
 * `RenderTexture`: an offscreen render target that remembers the device it
 * was created on, the render-target-view descriptor it writes through, the
 * resource state it believes its texture is in, and the texture's size.
 *
 * Each member is given twice: a function over `Fields` values that says what
 * the member does to the object (the specification, about which the lemmas
 * speak), and a method of the `RenderTexture` class that changes the fields in
 * the source's order and is proved to match it.
 */
module RenderTextures {
  import opened Bits
  import opened D3D12
  import opened RowPitch
  import opened ScreenGrab

  /** What a member throws. */
  datatype Exception =
    | RuntimeError(what: string)   // std::runtime_error
    | OutOfRange(what: string)     // std::out_of_range
    | ComError(hr: HResult)        // thrown by ThrowIfFailed

  /** How a member call ended. */
  datatype Outcome = Returned | Threw(exception: Exception)

  /** Every field of a `RenderTexture` that its members update. */
  datatype Fields = Fields(
    state: ResourceStates,
    rtvDescriptor: DescriptorHandle,
    device: Option<DeviceId>,
    resource: Option<Resource>,
    width: size_t,
    height: size_t)

  /** The fields' values after the constructor. */
  const INITIAL_FIELDS: Fields := Fields(STATE_COMMON, 0, None, None, 0, 0)

  /** The new fields after a member call, and how the call ended. */
  datatype Step = Step(fields: Fields, outcome: Outcome)

  /** The two format capabilities a render texture needs: TEXTURE2D | RENDER_TARGET. */
  const REQUIRED_SUPPORT: uint32 := FORMAT_SUPPORT1_TEXTURE2D + FORMAT_SUPPORT1_RENDER_TARGET

  /** The description of the texture `SizeResources` creates for a requested size. */
  function TextureDesc(format: Format, width: size_t, height: size_t): ResourceDesc {
    RenderTargetDesc(format, width, height % TWO_32)
  }

  /**
   * The object invariant: a texture exists only while a device is bound, and
   * it is the texture created for the recorded size; without a texture the
   * recorded size is 0 x 0.
   */
  ghost predicate Consistent(format: Format, f: Fields) {
    && (f.resource.Some? ==>
          f.device.Some? && f.resource.value.heap == HeapDefault &&
          f.resource.value.desc == TextureDesc(format, f.width, f.height))
    && (f.resource.None? ==> f.width == 0 && f.height == 0)
  }

  // ------------------------------------------------------------ specification

  /** `ReleaseDevice`: drop the texture and the device; the descriptor is kept. */
  function Release(f: Fields): Fields {
    f.(state := STATE_COMMON, device := None, resource := None, width := 0, height := 0)
  }

  /** `SetDevice(device, rtvDescriptor)` given the device's answer about the format. */
  function SetDeviceSpec(f: Fields, device: DeviceId, rtvDescriptor: DescriptorHandle, query: FormatQuery): Step {
    if f.device == Some(device) && f.rtvDescriptor == rtvDescriptor then Step(f, Returned)
    else
      var released := if f.device.Some? then Release(f) else f;
      if Failed(query.hr) then Step(released, Threw(RuntimeError("CheckFeatureSupport")))
      else if !HasAllFlags(query.support1, REQUIRED_SUPPORT) then Step(released, Threw(RuntimeError("RenderTexture")))
      else Step(released.(device := Some(device), rtvDescriptor := rtvDescriptor), Returned)
  }

  /** `SizeResources(width, height)` given the answer of the texture's creation. */
  function SizeResourcesSpec(format: Format, f: Fields, width: size_t, height: size_t, creation: Creation): Step {
    if width == f.width && height == f.height then Step(f, Returned)
    else if f.width > UINT32_MAX || f.height > UINT32_MAX then Step(f, Threw(OutOfRange("Invalid width/height")))
    else if f.device.None? then Step(f, Returned)
    else
      var cleared := f.(width := 0, height := 0, state := STATE_RENDER_TARGET, resource := None);
      if Failed(creation.hr) then Step(cleared, Threw(ComError(creation.hr)))
      else
        var texture := Resource(creation.id, TextureDesc(format, width, height), HeapDefault);
        Step(cleared.(resource := Some(texture), width := width, height := height), Returned)
  }

  /** The window rectangle `SetWindow` receives (`RECT`, in `LONG` coordinates). */
  datatype Rect = Rect(left: int32, top: int32, right: int32, bottom: int32)

  /** `LONG` subtraction `hi - lo` does not overflow. */
  predicate ExtentFits(lo: int32, hi: int32) {
    -0x8000_0000 <= hi - lo < 0x8000_0000
  }

  /** `size_t(std::max<LONG>(hi - lo, 1))`: the extent, at least one pixel. */
  function Extent(lo: int32, hi: int32): (r: size_t)
    requires ExtentFits(lo, hi)
    ensures r >= 1 && r >= hi - lo
    ensures r == hi - lo || r == 1
  {
    if hi - lo > 1 then hi - lo else 1
  }

  predicate RectFits(output: Rect) {
    ExtentFits(output.left, output.right) && ExtentFits(output.top, output.bottom)
  }

  /** `SetWindow(output)`: size the texture to the rectangle, at least 1 x 1. */
  function SetWindowSpec(format: Format, f: Fields, output: Rect, creation: Creation): Step
    requires RectFits(output)
  {
    SizeResourcesSpec(format, f, Extent(output.left, output.right), Extent(output.top, output.bottom), creation)
  }

  /** The value `CopyData` returns on every failure: -1 as a `uint32_t`. */
  const COPY_FAILED: uint32 := 0xFFFF_FFFF

  /**
   * The outcome of `CopyData`: its return value, the object's fields
   * afterwards, and the length of the pixel buffer `*outData` was given, if
   * one was allocated.
   */
  datatype CopyDataResult = CopyDataResult(result: uint32, fields: Fields, pixels: Option<uint64>)

  /** `CopyData(pCommandQueue, outData)` given the driver's answers. */
  function CopyDataSpec(f: Fields, queue: QueueId, fpRowPitch: uint64, o: CaptureOracle,
                        mapHr: HResult, mapped: bool): CopyDataResult
    requires f.resource.Some?
  {
    var desc := f.resource.value.desc;
    if desc.width > UINT32_MAX then CopyDataResult(COPY_FAILED, f, None)
    else
      var dstRowPitch := RoundUpPitch(fpRowPitch);
      if dstRowPitch > UINT32_MAX then CopyDataResult(COPY_FAILED, f, None)
      else
        var capture := Capture(Some(queue), f.resource, dstRowPitch, desc, None,
                               STATE_PIXEL_SHADER_RESOURCE, STATE_RENDER_TARGET, o);
        if Failed(capture.hr) then CopyDataResult(COPY_FAILED, f, None)
        else
          var g := f.(state := STATE_RENDER_TARGET);
          var imageSize := ImageSize64(desc.width, desc.height);
          if Failed(mapHr) || !mapped then CopyDataResult(COPY_FAILED, g, Some(imageSize))
          else CopyDataResult(imageSize % TWO_32, g, Some(imageSize))
  }

  // -------------------------------------------------------------- properties

  /** The constructor's fields satisfy the invariant, and releasing resets every field but the descriptor. */
  lemma ReleaseResetsToInitial(format: Format, f: Fields)
    ensures Consistent(format, INITIAL_FIELDS)
    ensures Release(f) == INITIAL_FIELDS.(rtvDescriptor := f.rtvDescriptor)
    ensures Consistent(format, Release(f))
    ensures Release(Release(f)) == Release(f)
  {
  }

  /** Binding the same device and descriptor again changes nothing. */
  lemma SetDeviceSameBindingIsNoOp(f: Fields, device: DeviceId, rtvDescriptor: DescriptorHandle, query: FormatQuery)
    requires f.device == Some(device) && f.rtvDescriptor == rtvDescriptor
    ensures SetDeviceSpec(f, device, rtvDescriptor, query) == Step(f, Returned)
  {
  }

  /**
   * A new binding first releases any bound device. If the format lacks either
   * capability the call throws and leaves no device, no texture and a 0 x 0
   * size; otherwise it binds the device and the descriptor, with no texture yet.
   * Repeating a successful call changes nothing.
   */
  lemma SetDeviceOutcome(format: Format, f: Fields, device: DeviceId, rtvDescriptor: DescriptorHandle, query: FormatQuery)
    requires Consistent(format, f)
    requires f.device != Some(device) || f.rtvDescriptor != rtvDescriptor
    ensures var s := SetDeviceSpec(f, device, rtvDescriptor, query);
      && Consistent(format, s.fields)
      && s.fields.resource.None? && s.fields.width == 0 && s.fields.height == 0
      && s.fields.state == (if f.device.Some? then STATE_COMMON else f.state)
      && (s.outcome.Returned? <==>
            !Failed(query.hr) &&
            HasAllFlags(query.support1, FORMAT_SUPPORT1_TEXTURE2D) &&
            HasAllFlags(query.support1, FORMAT_SUPPORT1_RENDER_TARGET))
      && (s.outcome.Threw? ==> s.fields.device.None? && s.fields.rtvDescriptor == f.rtvDescriptor)
      && (s.outcome.Returned? ==>
            && s.fields.device == Some(device) && s.fields.rtvDescriptor == rtvDescriptor
            && forall q :: SetDeviceSpec(s.fields, device, rtvDescriptor, q) == Step(s.fields, Returned))
  {
    RequiredSupportNeedsBothFlags(query.support1);
  }

  /** The required-support test fails as soon as either of the two capabilities is missing. */
  lemma RequiredSupportNeedsBothFlags(support1: uint32)
    ensures HasAllFlags(support1, REQUIRED_SUPPORT) <==>
      HasAllFlags(support1, FORMAT_SUPPORT1_TEXTURE2D) && HasAllFlags(support1, FORMAT_SUPPORT1_RENDER_TARGET)
  {
    assert Pow2(5) == 32;
    assert Pow2(9) == 512;
    assert Pow2(14) == 0x4000;
    TwoBitMask(support1, 5, 9);
    SingleBitMask(support1, 5);
    SingleBitMask(support1, 14);
  }

  /**
   * `SizeResources` changes nothing when the size is already the requested one
   * or when no device is bound; its range check reads the stored size, not the
   * requested one.
   */
  lemma SizeResourcesNoOps(format: Format, f: Fields, width: size_t, height: size_t, creation: Creation)
    ensures width == f.width && height == f.height ==>
      SizeResourcesSpec(format, f, width, height, creation) == Step(f, Returned)
    ensures f.device.None? && f.width <= UINT32_MAX && f.height <= UINT32_MAX ==>
      SizeResourcesSpec(format, f, width, height, creation) == Step(f, Returned)
    ensures SizeResourcesSpec(format, f, width, height, creation).outcome == Threw(OutOfRange("Invalid width/height"))
      <==> (width != f.width || height != f.height) && (f.width > UINT32_MAX || f.height > UINT32_MAX)
  {
  }

  /**
   * When a device is bound and the size changes, a successful call records the
   * requested size and RENDER_TARGET and holds a texture of that size; a failed
   * creation throws with the size left at 0 x 0 and no texture. Either way the
   * invariant holds, and repeating a successful call changes nothing.
   */
  lemma SizeResourcesResize(format: Format, f: Fields, width: size_t, height: size_t, creation: Creation)
    requires Consistent(format, f)
    requires f.device.Some? && (width != f.width || height != f.height)
    requires f.width <= UINT32_MAX && f.height <= UINT32_MAX
    ensures var s := SizeResourcesSpec(format, f, width, height, creation);
      && Consistent(format, s.fields)
      && s.fields.state == STATE_RENDER_TARGET
      && s.fields.device == f.device && s.fields.rtvDescriptor == f.rtvDescriptor
      && (Failed(creation.hr) ==>
            s == Step(Release(f).(state := STATE_RENDER_TARGET, device := f.device), Threw(ComError(creation.hr))))
      && (!Failed(creation.hr) ==>
            && s.outcome == Returned && s.fields.width == width && s.fields.height == height
            && s.fields.resource == Some(Resource(creation.id, TextureDesc(format, width, height), HeapDefault))
            && forall c :: SizeResourcesSpec(format, s.fields, width, height, c) == s)
  {
  }

  /**
   * The texture a successful resize creates is a single-sample, single-mip 2D
   * render target of the recorded format and width; its height is the recorded
   * height exactly when that fits in 32 bits, and is truncated otherwise.
   */
  lemma CreatedTextureMatchesRequest(format: Format, f: Fields, width: size_t, height: size_t, creation: Creation)
    requires Consistent(format, f)
    requires f.device.Some? && (width != f.width || height != f.height)
    requires f.width <= UINT32_MAX && f.height <= UINT32_MAX
    requires !Failed(creation.hr)
    ensures var s := SizeResourcesSpec(format, f, width, height, creation);
      && s.fields.resource.Some?
      && var d := s.fields.resource.value.desc;
      && d.dimension == DimensionTexture2D && d.allowRenderTarget && d.format == format
      && d.depthOrArraySize == 1 && d.mipLevels == 1 && d.sampleCount == 1
      && d.width == s.fields.width == width
      && (d.height == s.fields.height <==> height <= UINT32_MAX)
      && d.height == height % TWO_32
  {
  }

  /**
   * Every `SizeResources` call keeps the invariant, including the early
   * returns and the throw of the range check.
   */
  lemma SizeResourcesKeepsConsistent(format: Format, f: Fields, width: size_t, height: size_t, creation: Creation)
    requires Consistent(format, f)
    ensures Consistent(format, SizeResourcesSpec(format, f, width, height, creation).fields)
  {
  }

  /**
   * The range check can fire only after an earlier call stored an oversized
   * request: the check lets a height of 2^32 through, the texture is created
   * with the height truncated to 0, and the next resize throws.
   */
  lemma OversizedRequestPassesRangeCheck(format: Format, f: Fields, creation: Creation, next: Creation)
    requires Consistent(format, f) && f.device.Some? && f.width <= UINT32_MAX && f.height <= UINT32_MAX
    requires !Failed(creation.hr)
    ensures var s := SizeResourcesSpec(format, f, 1, TWO_32, creation);
      && s.outcome == Returned && s.fields.height == TWO_32
      && s.fields.resource.value.desc.height == 0
      && SizeResourcesSpec(format, s.fields, 1, 1, next).outcome == Threw(OutOfRange("Invalid width/height"))
  {
  }

  /**
   * `SetWindow` asks for at least 1 x 1: a resize it causes records a size of
   * at least one pixel in each direction.
   */
  lemma SetWindowSizeIsPositive(format: Format, f: Fields, output: Rect, creation: Creation)
    requires Consistent(format, f) && RectFits(output)
    ensures var s := SetWindowSpec(format, f, output, creation);
      && Consistent(format, s.fields)
      && (s.outcome.Returned? && s.fields.resource.Some? ==>
            s.fields.width >= 1 && s.fields.height >= 1 &&
            s.fields.width >= output.right - output.left && s.fields.height >= output.bottom - output.top)
  {
    SizeResourcesKeepsConsistent(format, f, Extent(output.left, output.right), Extent(output.top, output.bottom), creation);
  }

  /**
   * The pitch `CopyData` hands to `CaptureTexture` always passes its range
   * check and is 256-byte aligned; so the `dstRowPitch > UINT32_MAX` branch
   * is never taken.
   */
  lemma CopyDataPitchAlwaysAccepted(fpRowPitch: uint64)
    ensures RoundUpPitch(fpRowPitch) <= UINT32_MAX
    ensures RoundUpPitch(fpRowPitch) % 256 == 0
  {
    RoundUpPitchAlignedAndBounded(fpRowPitch);
  }

  /**
   * `CopyData` returns -1 exactly when one of its steps fails; otherwise it
   * returns `Width * Height * 4` truncated to 32 bits, which is a multiple of
   * 4 and so can never be mistaken for -1.
   */
  lemma CopyDataResultMeaning(f: Fields, queue: QueueId, fpRowPitch: uint64, o: CaptureOracle,
                              mapHr: HResult, mapped: bool)
    requires f.resource.Some?
    ensures var desc := f.resource.value.desc;
      var r := CopyDataSpec(f, queue, fpRowPitch, o, mapHr, mapped);
      var captured := desc.width <= UINT32_MAX &&
        !Failed(Capture(Some(queue), f.resource, RoundUpPitch(fpRowPitch), desc, None,
                        STATE_PIXEL_SHADER_RESOURCE, STATE_RENDER_TARGET, o).hr);
      && (desc.width > UINT32_MAX ==> r.result == COPY_FAILED && r.pixels.None?)
      && (r.result != COPY_FAILED <==> captured && !Failed(mapHr) && mapped)
      && (r.result != COPY_FAILED ==> r.result == (desc.width * desc.height * 4) % TWO_32)
      && (captured ==> r.pixels == Some(ImageSize64(desc.width, desc.height)))
  {
    CopyDataPitchAlwaysAccepted(fpRowPitch);
    ReturnedImageSize(f.resource.value.desc.width, f.resource.value.desc.height);
  }

  /**
   * `CopyData` changes only the tracked state, and only to RENDER_TARGET after
   * a successful capture; the invariant is kept.
   */
  lemma CopyDataKeepsFields(format: Format, f: Fields, queue: QueueId, fpRowPitch: uint64, o: CaptureOracle,
                            mapHr: HResult, mapped: bool)
    requires Consistent(format, f) && f.resource.Some?
    ensures var r := CopyDataSpec(f, queue, fpRowPitch, o, mapHr, mapped);
      && Consistent(format, r.fields)
      && (r.fields == f || r.fields == f.(state := STATE_RENDER_TARGET))
      && (r.pixels.Some? ==> r.fields.state == STATE_RENDER_TARGET)
      && (r.pixels.None? ==> r.fields == f)
  {
  }

  // ------------------------------------------------------------------ class

  class RenderTexture {
    const format: Format
    var state: ResourceStates
    var rtvDescriptor: DescriptorHandle
    var device: Option<DeviceId>
    var resource: Option<Resource>
    var width: size_t
    var height: size_t

    function Current(): Fields
      reads this
    {
      Fields(state, rtvDescriptor, device, resource, width, height)
    }

    ghost predicate Valid()
      reads this
    {
      Consistent(format, Current())
    }

    constructor (format: Format)
      ensures this.format == format && Current() == INITIAL_FIELDS && Valid()
    {
      this.format := format;
      state := STATE_COMMON;
      rtvDescriptor := 0;
      device := None;
      resource := None;
      width, height := 0, 0;
    }

    method SetDevice(newDevice: DeviceId, newRtvDescriptor: DescriptorHandle, query: FormatQuery)
      returns (outcome: Outcome)
      requires Valid()
      modifies this
      ensures Valid()
      ensures Step(Current(), outcome) == SetDeviceSpec(old(Current()), newDevice, newRtvDescriptor, query)
    {
      if device == Some(newDevice) && rtvDescriptor == newRtvDescriptor {
        return Returned;
      }
      if device.Some? {
        ReleaseDevice();
      }
      if Failed(query.hr) {
        return Threw(RuntimeError("CheckFeatureSupport"));
      }
      if !HasAllFlags(query.support1, REQUIRED_SUPPORT) {
        return Threw(RuntimeError("RenderTexture"));
      }
      device := Some(newDevice);
      rtvDescriptor := newRtvDescriptor;
      outcome := Returned;
    }

    method SizeResources(newWidth: size_t, newHeight: size_t, creation: Creation) returns (outcome: Outcome)
      requires Valid()
      modifies this
      ensures Valid()
      ensures Step(Current(), outcome) == SizeResourcesSpec(format, old(Current()), newWidth, newHeight, creation)
    {
      SizeResourcesKeepsConsistent(format, Current(), newWidth, newHeight, creation);
      if newWidth == width && newHeight == height {
        return Returned;
      }
      if width > UINT32_MAX || height > UINT32_MAX {
        return Threw(OutOfRange("Invalid width/height"));
      }
      if device.None? {
        return Returned;
      }
      width, height := 0, 0;
      var desc := TextureDesc(format, newWidth, newHeight);
      state := STATE_RENDER_TARGET;
      resource := None;
      if Failed(creation.hr) {
        return Threw(ComError(creation.hr));
      }
      resource := Some(Resource(creation.id, desc, HeapDefault));
      width, height := newWidth, newHeight;
      outcome := Returned;
    }

    method ReleaseDevice()
      modifies this
      ensures Valid()
      ensures Current() == Release(old(Current()))
    {
      resource := None;
      device := None;
      state := STATE_COMMON;
      width, height := 0, 0;
    }

    method TransitionTo(commandList: CommandList, afterState: ResourceStates)
      requires Valid()
      modifies this, commandList
      ensures Valid()
      ensures Current() == old(Current()).(state := afterState)
      ensures commandList.commands == old(commandList.commands) + [Transition(old(resource), old(state), afterState)]
    {
      commandList.commands := commandList.commands + [Transition(resource, state, afterState)];
      state := afterState;
    }

    method SetWindow(output: Rect, creation: Creation) returns (outcome: Outcome)
      requires Valid() && RectFits(output)
      modifies this
      ensures Valid()
      ensures Step(Current(), outcome) == SetWindowSpec(format, old(Current()), output, creation)
    {
      var w := Extent(output.left, output.right);
      var h := Extent(output.top, output.bottom);
      outcome := SizeResources(w, h, creation);
    }

    method CopyData(queue: QueueId, fpRowPitch: uint64, o: CaptureOracle, mapHr: HResult, mapped: bool)
      returns (result: uint32, pixels: Option<uint64>)
      requires Valid() && resource.Some?
      modifies this
      ensures Valid()
      ensures CopyDataResult(result, Current(), pixels) == CopyDataSpec(old(Current()), queue, fpRowPitch, o, mapHr, mapped)
    {
      CopyDataKeepsFields(format, Current(), queue, fpRowPitch, o, mapHr, mapped);
      pixels := None;
      var desc := resource.value.desc;
      if desc.width > UINT32_MAX {
        return COPY_FAILED, pixels;
      }
      var dstRowPitch := RoundUpPitch(fpRowPitch);
      if dstRowPitch > UINT32_MAX {
        return COPY_FAILED, pixels;
      }
      var hr, staging, commands, executed := CaptureTexture(Some(queue), resource, dstRowPitch, desc, None,
                                                            STATE_PIXEL_SHADER_RESOURCE, STATE_RENDER_TARGET, o);
      if Failed(hr) {
        return COPY_FAILED, pixels;
      }
      assert staging.Some?;
      state := STATE_RENDER_TARGET;
      var imageSize := ImageSize64(desc.width, desc.height);
      pixels := Some(imageSize);
      if Failed(mapHr) {
        return COPY_FAILED, pixels;
      }
      if !mapped {
        return COPY_FAILED, pixels;
      }
      result := imageSize % TWO_32;
    }
  }
}
