/**
 * `CaptureTexture`: copy a 2D texture into a CPU-readable readback buffer.
 *
 * The function checks its arguments, hands back a source that already lives
 * in a readback heap, and otherwise records (on a command list of its own) an
 * optional MSAA resolve of every subresource, a transition to COPY_SOURCE, a
 * copy into a freshly created readback buffer and a transition to the caller's
 * after-state, then submits the list and signals a fence.
 *
 * Every driver call is an oracle: its answer is a field of `CaptureOracle`.
 */
module ScreenGrab {
  import opened Bits
  import opened D3D12

  /** The answers of the driver calls one capture makes, in call order. */
  datatype CaptureOracle = CaptureOracle(
    planeCount: nat,           // D3D12GetFormatPlaneCount(device, desc.Format)
    heapQuery: HResult,        // pSource->GetHeapProperties
    allocatorHr: HResult,      // device->CreateCommandAllocator
    listHr: HResult,           // device->CreateCommandList
    fenceHr: HResult,          // device->CreateFence
    temp: Creation,            // device->CreateCommittedResource, MSAA resolve target
    formatQuery: FormatQuery,  // device->CheckFeatureSupport(desc.Format)
    staging: Creation,         // device->CreateCommittedResource, readback buffer
    closeHr: HResult,          // commandList->Close
    signalHr: HResult)         // pCommandQ->Signal

  /**
   * The outcome of one capture: the returned HRESULT, the caller's `pStaging`
   * afterwards, the commands recorded on the capture's own command list, and
   * whether that list was submitted to the queue.
   */
  datatype CaptureResult = CaptureResult(hr: HResult, staging: Option<Resource>, commands: seq<Command>, executed: bool)

  /**
   * The argument checks, in the order the function makes them; the first
   * failing one decides the code.
   */
  function ArgumentError(queue: Option<QueueId>, source: Option<Resource>, srcPitch: uint64,
                         desc: ResourceDesc, planeCount: nat): (r: Option<HResult>)
    ensures r.None? <==>
      queue.Some? && source.Some? && desc.dimension == DimensionTexture2D &&
      srcPitch <= UINT32_MAX && planeCount == 1
    ensures r.Some? ==> Failed(r.value)
    ensures queue.None? || source.None? ==> r == Some(E_INVALIDARG)
    ensures queue.Some? && source.Some? && desc.dimension != DimensionTexture2D ==>
      r == Some(HResultFromWin32(ERROR_NOT_SUPPORTED))
    ensures queue.Some? && source.Some? && desc.dimension == DimensionTexture2D && srcPitch > UINT32_MAX ==>
      r == Some(HResultFromWin32(ERROR_ARITHMETIC_OVERFLOW))
    ensures (queue.Some? && source.Some? && desc.dimension == DimensionTexture2D && srcPitch <= UINT32_MAX &&
             planeCount != 1) ==> r == Some(HResultFromWin32(ERROR_NOT_SUPPORTED))
  {
    if queue.None? || source.None? then Some(E_INVALIDARG)
    else if desc.dimension != DimensionTexture2D then Some(HResultFromWin32(ERROR_NOT_SUPPORTED))
    else if srcPitch > UINT32_MAX then Some(HResultFromWin32(ERROR_ARITHMETIC_OVERFLOW))
    else if planeCount != 1 then Some(HResultFromWin32(ERROR_NOT_SUPPORTED))
    else None
  }

  /** The readback buffer: one row-major buffer of `srcPitch * height` bytes (64-bit product). */
  function StagingBufferDesc(srcPitch: uint64, height: uint32): ResourceDesc {
    ResourceDesc(DimensionBuffer, 0, (srcPitch * height) % TWO_64, 1, 1, 1,
                 FORMAT_UNKNOWN, 1, 0, LayoutRowMajor, false)
  }

  /**
   * Because the pitch has already been checked against UINT32_MAX, the 64-bit
   * product cannot wrap: the buffer holds `height` rows of `srcPitch` bytes.
   */
  lemma StagingBufferHoldsEveryRow(srcPitch: uint64, height: uint32)
    requires srcPitch <= UINT32_MAX
    ensures StagingBufferDesc(srcPitch, height).width == srcPitch * height
    ensures StagingBufferDesc(srcPitch, height).height == 1
  {
    MulMonotone(srcPitch, UINT32_MAX, height);
    assert UINT32_MAX * height <= UINT32_MAX * UINT32_MAX < TWO_64;
  }

  /** The single-sample copy of an MSAA description that the resolve writes into. */
  function ResolveTargetDesc(desc: ResourceDesc): ResourceDesc {
    desc.(sampleCount := 1, sampleQuality := 0, alignment := DEFAULT_RESOURCE_PLACEMENT_ALIGNMENT)
  }

  /** The resolve of (item, level), at the subresource index D3D12CalcSubresource gives it. */
  function ResolveOne(temp: Resource, source: Resource, desc: ResourceDesc, item: nat, level: nat): Command
    requires item < desc.depthOrArraySize && level < desc.mipLevels
  {
    var index := CalcSubresource(level, item, 0, desc.mipLevels, desc.depthOrArraySize);
    Resolve(temp, index, source, index, desc.format)
  }

  /** The inner loop's resolves for one array item: levels 0 .. levels-1. */
  function ResolveLevels(temp: Resource, source: Resource, desc: ResourceDesc, item: nat, levels: nat): seq<Command>
    requires item < desc.depthOrArraySize && levels <= desc.mipLevels
  {
    if levels == 0 then []
    else ResolveLevels(temp, source, desc, item, levels - 1) + [ResolveOne(temp, source, desc, item, levels - 1)]
  }

  /** Both loops' resolves for array items 0 .. items-1, every level of each. */
  function ResolveItems(temp: Resource, source: Resource, desc: ResourceDesc, items: nat): seq<Command>
    requires items <= desc.depthOrArraySize
  {
    if items == 0 then []
    else ResolveItems(temp, source, desc, items - 1) + ResolveLevels(temp, source, desc, items - 1, desc.mipLevels)
  }

  lemma {:induction false} ResolveLevelsIndices(temp: Resource, source: Resource, desc: ResourceDesc, item: nat, levels: nat)
    requires item < desc.depthOrArraySize && levels <= desc.mipLevels
    ensures |ResolveLevels(temp, source, desc, item, levels)| == levels
    ensures forall l: int :: 0 <= l < levels ==>
      var index := item * desc.mipLevels + l;
      index < TWO_32 &&
      ResolveLevels(temp, source, desc, item, levels)[l] == Resolve(temp, index, source, index, desc.format)
  {
    if levels > 0 {
      ResolveLevelsIndices(temp, source, desc, item, levels - 1);
      CalcSubresourceExact(levels - 1, item, desc.mipLevels, desc.depthOrArraySize);
    }
  }

  /**
   * The resolves of both loops, in order, are exactly one per subresource:
   * the k-th resolve reads and writes subresource k, for every k below
   * `arraySize * mipLevels`.
   */
  lemma {:induction false} ResolveItemsIndices(temp: Resource, source: Resource, desc: ResourceDesc, items: nat)
    requires items <= desc.depthOrArraySize
    ensures |ResolveItems(temp, source, desc, items)| == items * desc.mipLevels
    ensures |ResolveItems(temp, source, desc, items)| < TWO_32
    ensures forall k: int :: 0 <= k < |ResolveItems(temp, source, desc, items)| ==>
      ResolveItems(temp, source, desc, items)[k] == Resolve(temp, k, source, k, desc.format)
  {
    if items > 0 {
      var m: nat := desc.mipLevels;
      var before := (items - 1) * m;
      var prefix := ResolveItems(temp, source, desc, items - 1);
      var row := ResolveLevels(temp, source, desc, items - 1, m);
      ResolveItemsIndices(temp, source, desc, items - 1);
      ResolveLevelsIndices(temp, source, desc, items - 1, m);
      MulSucc(items - 1, m);
      assert items * m == before + m;
      assert ResolveItems(temp, source, desc, items) == prefix + row;
      assert items * m <= 0xFFFF * 0xFFFF by { MulMonotone(items, 0xFFFF, m); MulMonotone(m, 0xFFFF, 0xFFFF); }
      forall k: int | 0 <= k < |ResolveItems(temp, source, desc, items)|
        ensures ResolveItems(temp, source, desc, items)[k] == Resolve(temp, k, source, k, desc.format)
      {
        if k < before {
          assert (prefix + row)[k] == prefix[k];
        } else {
          var l := k - before;
          assert (prefix + row)[k] == row[l];
          assert (items - 1) * desc.mipLevels + l == k;
        }
      }
    } else {
      assert items * desc.mipLevels == 0;
    }
  }

  /** The commands after the resolves: transition the source, copy into the buffer, transition back. */
  function CopyCommands(source: Resource, copySource: Resource, staging: Resource, srcPitch: uint32,
                        desc: ResourceDesc, beforeState: ResourceStates, afterState: ResourceStates): seq<Command>
  {
    var footprint := Footprint(desc.format, desc.width % TWO_32, desc.height, 1, srcPitch);
    [ Transition(Some(source), beforeState, STATE_COPY_SOURCE),
      CopyToBuffer(staging, footprint, copySource, 0),
      Transition(Some(source), STATE_COPY_SOURCE, afterState) ]
  }

  /** What `CaptureTexture` returns and records, given the driver's answers. */
  function Capture(queue: Option<QueueId>, source: Option<Resource>, srcPitch: uint64, desc: ResourceDesc,
                   stagingIn: Option<Resource>, beforeState: ResourceStates, afterState: ResourceStates,
                   o: CaptureOracle): (r: CaptureResult)
    ensures r.hr == S_OK || Failed(r.hr)
    ensures r.hr == S_OK ==> r.staging.Some?
    ensures ArgumentError(queue, source, srcPitch, desc, o.planeCount).Some? ==>
      r == CaptureResult(ArgumentError(queue, source, srcPitch, desc, o.planeCount).value, stagingIn, [], false)
    ensures (ArgumentError(queue, source, srcPitch, desc, o.planeCount).None? &&
             !Failed(o.heapQuery) && source.value.heap == HeapReadback) ==>
      r == CaptureResult(S_OK, source, [], false)
  {
    var argumentError := ArgumentError(queue, source, srcPitch, desc, o.planeCount);
    if argumentError.Some? then CaptureResult(argumentError.value, stagingIn, [], false)
    else
      var src := source.value;
      if !Failed(o.heapQuery) && src.heap == HeapReadback then CaptureResult(S_OK, source, [], false)
      else if Failed(o.allocatorHr) then CaptureResult(o.allocatorHr, stagingIn, [], false)
      else if Failed(o.listHr) then CaptureResult(o.listHr, stagingIn, [], false)
      else if Failed(o.fenceHr) then CaptureResult(o.fenceHr, stagingIn, [], false)
      else
        var msaa := desc.sampleCount > 1;
        var temp := Resource(o.temp.id, ResolveTargetDesc(desc), HeapDefault);
        if msaa && Failed(o.temp.hr) then CaptureResult(o.temp.hr, stagingIn, [], false)
        else if msaa && Failed(o.formatQuery.hr) then CaptureResult(o.formatQuery.hr, stagingIn, [], false)
        else if msaa && BitAnd(o.formatQuery.support1, FORMAT_SUPPORT1_TEXTURE2D) == 0 then
          CaptureResult(E_FAIL, stagingIn, [], false)
        else
          var resolves := if msaa then ResolveItems(temp, src, desc, desc.depthOrArraySize) else [];
          var copySource := if msaa then temp else src;
          if Failed(o.staging.hr) then CaptureResult(o.staging.hr, None, resolves, false)
          else
            var staging := Resource(o.staging.id, StagingBufferDesc(srcPitch, desc.height), HeapReadback);
            var commands := resolves + CopyCommands(src, copySource, staging, srcPitch, desc, beforeState, afterState);
            if Failed(o.closeHr) then CaptureResult(o.closeHr, Some(staging), commands, false)
            else if Failed(o.signalHr) then CaptureResult(o.signalHr, Some(staging), commands, true)
            else CaptureResult(S_OK, Some(staging), commands, true)
  }

  /**
   * Once the list has been submitted, `pStaging` is a readback buffer large
   * enough for `desc.Height` rows of `srcPitch` bytes, and the list ends with
   * the source's transition to COPY_SOURCE, the copy, and its transition to
   * the after-state.
   */
  lemma CaptureStagingBuffer(queue: Option<QueueId>, source: Option<Resource>, srcPitch: uint64, desc: ResourceDesc,
                             stagingIn: Option<Resource>, beforeState: ResourceStates, afterState: ResourceStates,
                             o: CaptureOracle)
    requires Capture(queue, source, srcPitch, desc, stagingIn, beforeState, afterState, o).executed
    ensures var r := Capture(queue, source, srcPitch, desc, stagingIn, beforeState, afterState, o);
      && queue.Some? && source.Some? && srcPitch <= UINT32_MAX
      && r.staging.Some? && r.staging.value.heap == HeapReadback
      && r.staging.value.desc.dimension == DimensionBuffer
      && r.staging.value.desc.width == srcPitch * desc.height
      && |r.commands| >= 3
      && r.commands[|r.commands| - 3] == Transition(source, beforeState, STATE_COPY_SOURCE)
      && r.commands[|r.commands| - 2].CopyToBuffer?
      && r.commands[|r.commands| - 2].dst == r.staging.value
      && r.commands[|r.commands| - 2].footprint.rowPitch == srcPitch
      && r.commands[|r.commands| - 1] == Transition(source, STATE_COPY_SOURCE, afterState)
  {
    StagingBufferHoldsEveryRow(srcPitch, desc.height);
  }

  /**
   * A submitted capture of a multisampled source resolves every subresource
   * exactly once, in subresource order, into a single-sample copy of the
   * source and then copies from that copy; a single-sample source is copied
   * directly with no resolve.
   */
  lemma CaptureResolvesEverySubresourceOnce(queue: Option<QueueId>, source: Option<Resource>, srcPitch: uint64,
                                            desc: ResourceDesc, stagingIn: Option<Resource>,
                                            beforeState: ResourceStates, afterState: ResourceStates, o: CaptureOracle)
    requires Capture(queue, source, srcPitch, desc, stagingIn, beforeState, afterState, o).executed
    ensures var r := Capture(queue, source, srcPitch, desc, stagingIn, beforeState, afterState, o);
      var temp := Resource(o.temp.id, ResolveTargetDesc(desc), HeapDefault);
      var subresources := desc.depthOrArraySize * desc.mipLevels;
      && source.Some?
      && (desc.sampleCount > 1 ==>
            && |r.commands| == subresources + 3
            && subresources < TWO_32
            && (forall k: int :: 0 <= k < subresources ==>
                  r.commands[k] == Resolve(temp, k, source.value, k, desc.format))
            && r.commands[subresources + 1].src == temp)
      && (desc.sampleCount <= 1 ==>
            && |r.commands| == 3
            && r.commands[1].CopyToBuffer? && r.commands[1].src == source.value)
  {
    if desc.sampleCount > 1 {
      var temp := Resource(o.temp.id, ResolveTargetDesc(desc), HeapDefault);
      ResolveItemsIndices(temp, source.value, desc, desc.depthOrArraySize);
      assert desc.depthOrArraySize * desc.mipLevels == |ResolveItems(temp, source.value, desc, desc.depthOrArraySize)|;
    }
  }

  /**
   * `CaptureTexture` as the function runs it, with the nested loop over array
   * items and mip levels that records the MSAA resolves.
   */
  method CaptureTexture(queue: Option<QueueId>, source: Option<Resource>, srcPitch: uint64, desc: ResourceDesc,
                        stagingIn: Option<Resource>, beforeState: ResourceStates, afterState: ResourceStates,
                        o: CaptureOracle)
    returns (hr: HResult, staging: Option<Resource>, commands: seq<Command>, executed: bool)
    ensures CaptureResult(hr, staging, commands, executed) ==
      Capture(queue, source, srcPitch, desc, stagingIn, beforeState, afterState, o)
  {
    staging, commands, executed := stagingIn, [], false;
    if queue.None? || source.None? {
      return E_INVALIDARG, staging, commands, executed;
    }
    if desc.dimension != DimensionTexture2D {
      return HResultFromWin32(ERROR_NOT_SUPPORTED), staging, commands, executed;
    }
    if srcPitch > UINT32_MAX {
      return HResultFromWin32(ERROR_ARITHMETIC_OVERFLOW), staging, commands, executed;
    }
    if o.planeCount != 1 {
      return HResultFromWin32(ERROR_NOT_SUPPORTED), staging, commands, executed;
    }
    var src := source.value;
    if !Failed(o.heapQuery) && src.heap == HeapReadback {
      return S_OK, source, commands, executed;
    }
    if Failed(o.allocatorHr) {
      return o.allocatorHr, staging, commands, executed;
    }
    if Failed(o.listHr) {
      return o.listHr, staging, commands, executed;
    }
    if Failed(o.fenceHr) {
      return o.fenceHr, staging, commands, executed;
    }
    var copySource := src;
    if desc.sampleCount > 1 {
      if Failed(o.temp.hr) {
        return o.temp.hr, staging, commands, executed;
      }
      var temp := Resource(o.temp.id, ResolveTargetDesc(desc), HeapDefault);
      if Failed(o.formatQuery.hr) {
        return o.formatQuery.hr, staging, commands, executed;
      }
      if BitAnd(o.formatQuery.support1, FORMAT_SUPPORT1_TEXTURE2D) == 0 {
        return E_FAIL, staging, commands, executed;
      }
      var item := 0;
      while item < desc.depthOrArraySize
        invariant item <= desc.depthOrArraySize
        invariant commands == ResolveItems(temp, src, desc, item)
      {
        var level := 0;
        while level < desc.mipLevels
          invariant level <= desc.mipLevels
          invariant commands == ResolveItems(temp, src, desc, item) + ResolveLevels(temp, src, desc, item, level)
        {
          var index := CalcSubresource(level, item, 0, desc.mipLevels, desc.depthOrArraySize);
          commands := commands + [Resolve(temp, index, src, index, desc.format)];
          level := level + 1;
        }
        item := item + 1;
      }
      copySource := temp;
    }
    if Failed(o.staging.hr) {
      return o.staging.hr, None, commands, executed;
    }
    staging := Some(Resource(o.staging.id, StagingBufferDesc(srcPitch, desc.height), HeapReadback));
    commands := commands + CopyCommands(src, copySource, staging.value, srcPitch, desc, beforeState, afterState);
    if Failed(o.closeHr) {
      return o.closeHr, staging, commands, executed;
    }
    executed := true;
    if Failed(o.signalHr) {
      return o.signalHr, staging, commands, executed;
    }
    hr := S_OK;
  }
}
