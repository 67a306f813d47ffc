/**
 * The slice of the Win32 / Direct3D 12 vocabulary that the render-texture
 * helper uses: HRESULT codes, resource states, resource descriptions,
 * resources as opaque handles, and the commands recorded on a command list.
 * Driver objects are values here; what the driver would answer is passed in.
 */
module D3D12 {
  import opened Bits

  /** A nullable COM pointer. */
  datatype Option<+T> = None | Some(value: T)

  // ---------------------------------------------------------------- HRESULT

  /** `HRESULT`: a signed 32-bit status code; negative means failure. */
  type HResult = int32

  predicate Failed(hr: HResult) { hr < 0 }

  const S_OK: HResult := 0
  const E_FAIL: HResult := 0x8000_4005 - TWO_32
  const E_INVALIDARG: HResult := 0x8007_0057 - TWO_32

  const ERROR_NOT_SUPPORTED: uint32 := 50
  const ERROR_ARITHMETIC_OVERFLOW: uint32 := 534
  const FACILITY_WIN32: nat := 7

  /**
   * `HRESULT_FROM_WIN32(code)`: a code that is zero or already negative as an
   * HRESULT is kept; any other code keeps its low 16 bits and gets the Win32
   * facility and the failure bit (the three fields occupy disjoint bits, so
   * their OR is their sum).
   */
  function HResultFromWin32(code: uint32): (r: HResult)
    ensures Failed(r) <==> code != 0
    ensures 0 < code < 0x8000_0000 ==>
      (r + TWO_32) % TWO_16 == code % TWO_16 && (r + TWO_32) / TWO_16 == 0x8000 + FACILITY_WIN32
  {
    var asSigned: int := if code < 0x8000_0000 then code else code - TWO_32;
    if asSigned <= 0 then asSigned
    else code % TWO_16 + FACILITY_WIN32 * TWO_16 + 0x8000_0000 - TWO_32
  }

  // ------------------------------------------------------- resource states

  /** `D3D12_RESOURCE_STATES`, a set of flags. */
  type ResourceStates = uint32

  const STATE_COMMON: ResourceStates := 0
  const STATE_RENDER_TARGET: ResourceStates := 0x4
  const STATE_PIXEL_SHADER_RESOURCE: ResourceStates := 0x80
  const STATE_COPY_SOURCE: ResourceStates := 0x800

  // ------------------------------------------------------ format support

  /** `DXGI_FORMAT`, an enumeration value. */
  type Format = uint32

  const FORMAT_UNKNOWN: Format := 0

  /** `D3D12_FORMAT_SUPPORT1` flags. */
  const FORMAT_SUPPORT1_TEXTURE2D: uint32 := 0x20
  const FORMAT_SUPPORT1_RENDER_TARGET: uint32 := 0x4000

  /** What `CheckFeatureSupport(D3D12_FEATURE_FORMAT_SUPPORT, ...)` reports for one format. */
  datatype FormatQuery = FormatQuery(hr: HResult, support1: uint32)

  /** `(support & required) == required` */
  predicate HasAllFlags(support: uint32, required: uint32) {
    BitAnd(support, required) == required
  }

  // ------------------------------------------------- resource descriptions

  datatype Dimension = DimensionUnknown | DimensionBuffer | DimensionTexture1D | DimensionTexture2D | DimensionTexture3D

  datatype TextureLayout = LayoutUnknown | LayoutRowMajor

  datatype HeapType = HeapDefault | HeapUpload | HeapReadback | HeapCustom

  /** `D3D12_DEFAULT_RESOURCE_PLACEMENT_ALIGNMENT` */
  const DEFAULT_RESOURCE_PLACEMENT_ALIGNMENT: uint64 := 0x1_0000

  /** `D3D12_RESOURCE_DESC`; the flags field keeps only ALLOW_RENDER_TARGET. */
  datatype ResourceDesc = ResourceDesc(
    dimension: Dimension,
    alignment: uint64,
    width: uint64,
    height: uint32,
    depthOrArraySize: uint16,
    mipLevels: uint16,
    format: Format,
    sampleCount: uint32,
    sampleQuality: uint32,
    layout: TextureLayout,
    allowRenderTarget: bool)

  /**
   * `CD3DX12_RESOURCE_DESC::Tex2D(format, width, height, 1, 1, 1, 0,
   * D3D12_RESOURCE_FLAG_ALLOW_RENDER_TARGET)`.
   */
  function RenderTargetDesc(format: Format, width: uint64, height: uint32): ResourceDesc {
    ResourceDesc(DimensionTexture2D, 0, width, height, 1, 1, format, 1, 0, LayoutUnknown, true)
  }

  /** A resource: its identity, the description it was created with and the heap it lives in. */
  datatype Resource = Resource(id: nat, desc: ResourceDesc, heap: HeapType)

  /** An opaque `ID3D12Device*`, compared by identity. */
  type DeviceId = nat

  /** An opaque `ID3D12CommandQueue*`. */
  type QueueId = nat

  /** `D3D12_CPU_DESCRIPTOR_HANDLE::ptr` */
  type DescriptorHandle = uint64

  /** What a `CreateCommittedResource` call answers: a status and, on success, the new resource's identity. */
  datatype Creation = Creation(hr: HResult, id: nat)

  // ---------------------------------------------------------- commands

  /** `D3D12_SUBRESOURCE_FOOTPRINT` */
  datatype Footprint = Footprint(format: Format, width: uint32, height: uint32, depth: uint32, rowPitch: uint32)

  /** A command recorded on a graphics command list. */
  datatype Command =
    /** A `TransitionResource(list, resource, before, after)` call. */
    | Transition(resource: Option<Resource>, before: ResourceStates, after: ResourceStates)
    /** `ResolveSubresource(dst, dstSubresource, src, srcSubresource, format)` */
    | Resolve(dst: Resource, dstSubresource: uint32, src: Resource, srcSubresource: uint32, format: Format)
    /** `CopyTextureRegion` from a texture subresource into a buffer laid out by a footprint. */
    | CopyToBuffer(dst: Resource, footprint: Footprint, src: Resource, srcSubresource: uint32)

  /** A graphics command list owned by the caller; recording appends to it. */
  class CommandList {
    var commands: seq<Command>

    constructor ()
      ensures commands == []
    {
      commands := [];
    }
  }

  // ----------------------------------------------------- subresources

  /**
   * `D3D12CalcSubresource(mipSlice, arraySlice, planeSlice, mipLevels, arraySize)`,
   * evaluated in 32-bit unsigned arithmetic.
   */
  function CalcSubresource(mipSlice: uint32, arraySlice: uint32, planeSlice: uint32,
                           mipLevels: uint32, arraySize: uint32): uint32
  {
    (mipSlice + arraySlice * mipLevels + planeSlice * mipLevels * arraySize) % TWO_32
  }

  lemma MulMonotone(a: nat, b: nat, c: nat)
    requires a <= b
    ensures a * c <= b * c
  {
  }

  /**
   * For plane 0 and 16-bit array and mip counts, the index of (item, level)
   * is `level + item * mipLevels` with no wrap-around, and it lies below
   * `arraySize * mipLevels`.
   */
  lemma CalcSubresourceExact(level: nat, item: nat, mipLevels: uint16, arraySize: uint16)
    requires level < mipLevels && item < arraySize
    ensures level + item * mipLevels < arraySize * mipLevels <= 0xFFFF * 0xFFFF
    ensures CalcSubresource(level, item, 0, mipLevels, arraySize) == level + item * mipLevels
  {
    var offset := item * mipLevels;
    MulSucc(item, mipLevels);
    MulMonotone(item + 1, arraySize, mipLevels);
    MulMonotone(arraySize, 0xFFFF, mipLevels);
    MulMonotone(mipLevels, 0xFFFF, 0xFFFF);
    assert level + offset < 0xFFFF * 0xFFFF < TWO_32;
    assert 0 * mipLevels * arraySize == 0;
    assert CalcSubresource(level, item, 0, mipLevels, arraySize) == (level + offset) % TWO_32;
  }
}
