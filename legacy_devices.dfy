/**
  The per-device resources of the older tree (`DeviceResources` in
  `src/screen_task.rs`, built by `init_device_resources` in
  `src/prepare_descriptors/mod.rs`).  Unlike the current tree, the older
  cascade rebuilds every display's pipeline unconditionally and never
  reindexes the pool, and the depth format is `Depth24Plus`.
*/
module LegacyDevices {
  import opened Wrappers
  import opened Engine
  import opened Surfaces
  import opened Buffers
  import opened SurfacePool
  import opened Displays
  import opened Descriptors
  import opened Devices
  import opened DisplayLayout
  import opened LegacyPool
  import opened LegacyDescriptors

  /** `DEPTH_STENCIL_FORMAT` of the older tree. */
  const LEGACY_DEPTH_STENCIL_FORMAT: TextureFormat := Depth24Plus

  /** Every display's swapchain is known to the context (the older pipeline unwraps its descriptor). */
  predicate LegacySwapchainsKnown(ds: seq<LegacyDisplayResources>, swapchains: map<SwapchainId, SwapchainDescriptor>)
  {
    forall i :: 0 <= i < |ds| ==> ds[i].display.swapchain in swapchains
  }

  /** The swapchains the displays are on, in display order. */
  function LegacySwapchainsOf(ds: seq<LegacyDisplayResources>): (r: seq<SwapchainId>)
    ensures |r| == |ds| && forall i :: 0 <= i < |ds| ==> r[i] == ds[i].display.swapchain
  {
    seq(|ds|, i requires 0 <= i < |ds| => ds[i].display.swapchain)
  }

  /** The position of the first display on `swapchain` (`iter().position`), if any. */
  function LegacyFirstOn(ds: seq<LegacyDisplayResources>, swapchain: SwapchainId): (r: Option<nat>)
    ensures r.Some? ==> r.value < |ds| && ds[r.value].display.swapchain == swapchain
    ensures r.Some? ==> forall j :: 0 <= j < r.value ==> ds[j].display.swapchain != swapchain
    ensures r.None? ==> forall j :: 0 <= j < |ds| ==> ds[j].display.swapchain != swapchain
    decreases |ds|
  {
    if ds == [] then None
    else if ds[0].display.swapchain == swapchain then Some(0)
    else match LegacyFirstOn(ds[1..], swapchain)
      case None => None
      case Some(i) => Some(i + 1)
  }

  /** The displays without the first one on `swapchain` (`Vec::remove` at its position). */
  function LegacyWithoutDisplayOn(ds: seq<LegacyDisplayResources>, swapchain: SwapchainId): seq<LegacyDisplayResources>
  {
    match LegacyFirstOn(ds, swapchain)
    case None => ds
    case Some(i) => ds[..i] + ds[i + 1..]
  }

  /**
    Dropping the first display on a swapchain drops that swapchain's first
    occurrence from the displays' swapchains, there is such a display
    exactly when the swapchain is among them, and the remaining displays
    stay known.
  */
  lemma LegacyWithoutDisplayOnProperties(ds: seq<LegacyDisplayResources>, sc: SwapchainId,
                                         swapchains: map<SwapchainId, SwapchainDescriptor>)
    ensures LegacySwapchainsOf(LegacyWithoutDisplayOn(ds, sc)) == RemoveFirst(LegacySwapchainsOf(ds), sc)
    ensures LegacyFirstOn(ds, sc).Some? <==> sc in LegacySwapchainsOf(ds)
    ensures LegacySwapchainsKnown(ds, swapchains) ==> LegacySwapchainsKnown(LegacyWithoutDisplayOn(ds, sc), swapchains)
  {
    var s := LegacySwapchainsOf(ds);
    match LegacyFirstOn(ds, sc)
    case None =>
      RemoveFirstAbsent(s, sc);
    case Some(i) =>
      assert s[i] == sc;
      assert sc !in s[..i] by {
        forall k | 0 <= k < i ensures s[..i][k] != sc {
          assert s[..i][k] == s[k];
        }
      }
      RemoveFirstAt(s, sc, i);
      var r := ds[..i] + ds[i + 1..];
      assert forall j :: 0 <= j < |r| ==> r[j] == if j < i then ds[j] else ds[j + 1];
      assert LegacySwapchainsOf(r) == s[..i] + s[i + 1..];
  }

  /** The pipeline the older `prepare_render_pipeline` builds for `dr` with the device's shared objects. */
  function LegacyPipelineFor(device: DeviceId, dr: LegacyDisplayResources, swapchains: map<SwapchainId, SwapchainDescriptor>,
                             pipelineLayout: PipelineLayoutId, vs: ShaderModuleId, fs: ShaderModuleId): RenderPipelineDescriptor
    requires dr.display.swapchain in swapchains
  {
    LegacyPrepareRenderPipeline(device, dr.display, swapchains[dr.display.swapchain].format, pipelineLayout, vs, fs)
  }

  /** The pipeline updates of the older cascade: one for every display, in display order. */
  function PipelineUpdates(device: DeviceId, ds: seq<LegacyDisplayResources>, swapchains: map<SwapchainId, SwapchainDescriptor>,
                           pipelineLayout: PipelineLayoutId, vs: ShaderModuleId, fs: ShaderModuleId): (r: seq<Request>)
    requires LegacySwapchainsKnown(ds, swapchains)
    ensures |r| == |ds|
    ensures forall i :: 0 <= i < |ds| ==>
              r[i] == Updated(ds[i].renderPipeline.raw, RenderPipelineDesc(LegacyPipelineFor(device, ds[i], swapchains, pipelineLayout, vs, fs)))
  {
    seq(|ds|, i requires 0 <= i < |ds| =>
      Updated(ds[i].renderPipeline.raw, RenderPipelineDesc(LegacyPipelineFor(device, ds[i], swapchains, pipelineLayout, vs, fs))))
  }

  /**
    Whatever the readiness the current tree would have stored, the older
    cascade rebuilds at least as many pipelines as the current one: all of
    them, where the current one rebuilds only those whose readiness flips.
  */
  lemma PipelineUpdatesCoverRebuilds(device: DeviceId, ds: seq<LegacyDisplayResources>, ready: bool,
                                     swapchains: map<SwapchainId, SwapchainDescriptor>,
                                     pipelineLayout: PipelineLayoutId, vs: ShaderModuleId, fs: ShaderModuleId, len: nat)
    requires LegacySwapchainsKnown(ds, swapchains)
    ensures SwapchainsKnown(AllAsCurrent(ds, ready), swapchains)
    ensures |Rebuilds(device, AllAsCurrent(ds, ready), swapchains, pipelineLayout, vs, fs, len)|
            <= |PipelineUpdates(device, ds, swapchains, pipelineLayout, vs, fs)|
    ensures ready == (len > 0) ==> Rebuilds(device, AllAsCurrent(ds, ready), swapchains, pipelineLayout, vs, fs, len) == []
  {
    var cs := AllAsCurrent(ds, ready);
    RebuildsAtMost(device, cs, swapchains, pipelineLayout, vs, fs, len);
    if ready == (len > 0) {
      NoRebuildsWhenCurrent(device, cs, swapchains, pipelineLayout, vs, fs, len);
    }
  }

  /** The current cascade issues at most one pipeline update per display. */
  lemma {:induction false} RebuildsAtMost(device: DeviceId, ds: seq<DisplayResources>, swapchains: map<SwapchainId, SwapchainDescriptor>,
                                          pipelineLayout: PipelineLayoutId, vs: ShaderModuleId, fs: ShaderModuleId, len: nat)
    requires SwapchainsKnown(ds, swapchains)
    ensures |Rebuilds(device, ds, swapchains, pipelineLayout, vs, fs, len)| <= |ds|
    decreases |ds|
  {
    if ds != [] {
      RebuildsAtMost(device, ds[..|ds| - 1], swapchains, pipelineLayout, vs, fs, len);
    }
  }

  /** One more display considered: its pipeline update goes last. */
  lemma PipelineUpdatesStep(device: DeviceId, ds: seq<LegacyDisplayResources>, i: nat,
                            swapchains: map<SwapchainId, SwapchainDescriptor>,
                            pipelineLayout: PipelineLayoutId, vs: ShaderModuleId, fs: ShaderModuleId)
    requires i < |ds| && LegacySwapchainsKnown(ds, swapchains)
    ensures LegacySwapchainsKnown(ds[..i], swapchains) && LegacySwapchainsKnown(ds[..i + 1], swapchains)
    ensures PipelineUpdates(device, ds[..i + 1], swapchains, pipelineLayout, vs, fs)
            == PipelineUpdates(device, ds[..i], swapchains, pipelineLayout, vs, fs)
               + [Updated(ds[i].renderPipeline.raw, RenderPipelineDesc(LegacyPipelineFor(device, ds[i], swapchains, pipelineLayout, vs, fs)))]
  {
    assert forall k :: 0 <= k < i ==> ds[..i][k] == ds[..i + 1][k] == ds[k];
  }

  /**
    What registering an older display records: its depth texture and depth
    view in the older format, then its render pipeline.
  */
  function LegacyDisplayRequests(device: DeviceId, swapchains: map<SwapchainId, SwapchainDescriptor>, dr: LegacyDisplayResources,
                                 pipelineLayout: PipelineLayoutId, vs: ShaderModuleId, fs: ShaderModuleId): seq<Request>
    requires dr.display.swapchain in swapchains
  {
    var (t, v) := DepthDescriptors(device, swapchains[dr.display.swapchain], dr.display.depthStencil, "DepthStencil view",
                                   LEGACY_DEPTH_STENCIL_FORMAT);
    [Added(dr.display.depthStencil.raw, t), Added(dr.display.depthStencilView.raw, v),
     Added(dr.renderPipeline.raw, RenderPipelineDesc(LegacyPipelineFor(device, dr, swapchains, pipelineLayout, vs, fs)))]
  }

  /** `Display::new` with the older depth format, then the registration of its older pipeline. */
  method RegisterLegacyDisplay(ctx: UpdateContext, device: DeviceId, swapchain: SwapchainId, position: Point,
                               pipelineLayout: PipelineLayoutId, vs: ShaderModuleId, fs: ShaderModuleId)
    returns (dr: LegacyDisplayResources)
    requires ctx.Valid() && swapchain in ctx.swapchains
    modifies ctx
    ensures ctx.Valid()
    ensures dr.display.device == device && dr.display.swapchain == swapchain && dr.display.position == position
    ensures dr.display.size == Size(ctx.swapchains[swapchain].width, ctx.swapchains[swapchain].height)
    ensures ctx.requests == old(ctx.requests) + LegacyDisplayRequests(device, ctx.swapchains, dr, pipelineLayout, vs, fs)
  {
    var display := NewDisplay(ctx, device, swapchain, position, LEGACY_DEPTH_STENCIL_FORMAT);
    var descriptor := LegacyPrepareRenderPipeline(device, display, ctx.swapchains[swapchain].format, pipelineLayout, vs, fs);
    var id := ctx.Add(RenderPipelineDesc(descriptor));
    dr := LegacyDisplayResources(display, RenderPipelineId(id));
  }

  /** Registers the shared objects of a device whose pool is still empty, in the order of `init_device_resources`. */
  method RegisterEmptyShared(ctx: UpdateContext, device: DeviceId)
    returns (vs: ShaderModuleId, fs: ShaderModuleId, sampler: SamplerId, bgl: BindGroupLayoutId, bg: BindGroupId, pl: PipelineLayoutId)
    requires ctx.Valid()
    modifies ctx
    ensures ctx.Valid()
    ensures ctx.requests == old(ctx.requests) + SharedRequests(device, 0, [], vs, fs, sampler, bgl, bg, pl)
  {
    ghost var log0 := ctx.requests;
    var v := ctx.Add(ShaderModuleDesc(ShaderModuleDescriptor(device, "ScreenTask VS")));
    var f := ctx.Add(ShaderModuleDesc(ShaderModuleDescriptor(device, "ScreenTask FS")));
    var s := ctx.Add(SamplerDesc(SamplerDescriptor(device, TASK_NAME + " sampler")));
    ghost var log1 := ctx.requests;
    var l := ctx.Add(BindGroupLayoutDesc(PrepareBindGroupLayout(device, 0)));
    var g := ctx.Add(BindGroupDesc(PrepareBindGroup(device, [], BindGroupLayoutId(l), SamplerId(s))));
    var p := ctx.Add(PipelineLayoutDesc(PreparePipelineLayout(device, BindGroupLayoutId(l))));
    vs, fs, sampler, bgl, bg, pl := ShaderModuleId(v), ShaderModuleId(f), SamplerId(s), BindGroupLayoutId(l), BindGroupId(g), PipelineLayoutId(p);
    assert log1 == log0 + SharedRequests(device, 0, [], vs, fs, sampler, bgl, bg, pl)[..3];
    assert ctx.requests == log1 + SharedRequests(device, 0, [], vs, fs, sampler, bgl, bg, pl)[3..];
  }

  class LegacyDeviceResources {
    const device: DeviceId
    const surfaceManager: LegacySurfaceManager
    const fragmentShader: ShaderModuleId
    const vertexShader: ShaderModuleId
    const sampler: SamplerId
    const bindGroupLayout: BindGroupLayoutId
    const bindGroup: BindGroupId
    const pipelineLayout: PipelineLayoutId
    const commandBuffer: CommandBufferId
    const dataCopyCommandBuffer: CommandBufferId
    var displays: seq<LegacyDisplayResources>
    var dataCopyCommandBufferUpdated: bool

    ghost predicate Valid()
      reads this, surfaceManager
    {
      surfaceManager.Valid() && surfaceManager.device == device
    }

    /** The command buffer the older `prepare_command_buffer` builds from the current displays, bind group and pool. */
    function CommandBufferFor(): (r: CommandBufferDescriptor)
      reads this, surfaceManager
      ensures |r.commands| == |displays|
      ensures forall i :: 0 <= i < |displays| ==>
                r.commands[i].RenderPass?
                && r.commands[i].commands == LegacyDrawCommands(displays[i], bindGroup, surfaceManager.buffer, |surfaceManager.stack|)
    {
      LegacyPrepareCommandBuffer(device, displays, bindGroup, surfaceManager.buffer, |surfaceManager.stack|)
    }

    /**
      `init_device_resources`: a fresh, empty pool; the shaders and sampler;
      the bind-group layout, bind group and pipeline layout for no surfaces;
      one display on `swapchain` with its pipeline; the command buffer; and
      an empty data-copy command buffer, not yet due.
    */
    constructor Init(ctx: UpdateContext, device: DeviceId, swapchain: SwapchainId, position: Point)
      requires ctx.Valid() && swapchain in ctx.swapchains
      modifies ctx
      ensures ctx.Valid() && Valid() && fresh(surfaceManager)
      ensures this.device == device
      ensures surfaceManager.stack == [] && surfaceManager.idCounter == 0 && surfaceManager.dataBuffer.pending == []
      ensures |displays| == 1 && displays[0].display.swapchain == swapchain && displays[0].display.position == position
      ensures displays[0].display.device == device
      ensures !dataCopyCommandBufferUpdated
      ensures ctx.requests == old(ctx.requests)
                + [Added(surfaceManager.buffer.raw, BufferDesc(BufferDescriptor(device, "SurfaceManager buffer", 32, true)))]
                + SharedRequests(device, 0, [], vertexShader, fragmentShader, sampler, bindGroupLayout, bindGroup, pipelineLayout)
                + LegacyDisplayRequests(device, ctx.swapchains, displays[0], pipelineLayout, vertexShader, fragmentShader)
                + [Added(commandBuffer.raw, CommandBufferDesc(LegacyPrepareCommandBuffer(device, displays, bindGroup, surfaceManager.buffer, 0))),
                   Added(dataCopyCommandBuffer.raw, CommandBufferDesc(CommandBufferDescriptor(device, TASK_NAME + " data copy command buffer", [])))]
    {
      var sm := new LegacySurfaceManager(ctx, device);
      var vs, fs, s, bgl, bg, pl := RegisterEmptyShared(ctx, device);
      var dr := RegisterLegacyDisplay(ctx, device, swapchain, position, pl, vs, fs);
      var ds := [dr];
      var cb := ctx.Add(CommandBufferDesc(LegacyPrepareCommandBuffer(device, ds, bg, sm.buffer, sm.Len())));
      var dcb := ctx.Add(CommandBufferDesc(CommandBufferDescriptor(device, TASK_NAME + " data copy command buffer", [])));
      this.device := device;
      surfaceManager := sm;
      vertexShader := vs;
      fragmentShader := fs;
      sampler := s;
      bindGroupLayout := bgl;
      bindGroup := bg;
      pipelineLayout := pl;
      commandBuffer := CommandBufferId(cb);
      dataCopyCommandBuffer := CommandBufferId(dcb);
      displays := ds;
      dataCopyCommandBufferUpdated := false;
    }

    /** Re-describes the command buffer from the displays, bind group and pool as they are now. */
    method UpdateCommandBuffer(ctx: UpdateContext)
      requires Valid() && ctx.Valid()
      modifies ctx
      ensures ctx.Valid()
      ensures ctx.requests == old(ctx.requests) + [Updated(commandBuffer.raw, CommandBufferDesc(CommandBufferFor()))]
    {
      var descriptor := LegacyPrepareCommandBuffer(device, displays, bindGroup, surfaceManager.buffer, surfaceManager.Len());
      var _ := ctx.Update(commandBuffer.raw, CommandBufferDesc(descriptor));
    }

    /**
      The occupied arm of `SwapchainCreated`: a display on `swapchain` at the
      origin, with its pipeline, is appended after the existing displays, and
      the command buffer is re-described to draw it too.  The pool is
      untouched.
    */
    method AttachDisplay(ctx: UpdateContext, swapchain: SwapchainId)
      requires Valid() && ctx.Valid() && swapchain in ctx.swapchains
      modifies this`displays, ctx
      ensures ctx.Valid()
      ensures |displays| == |old(displays)| + 1 && displays[..|old(displays)|] == old(displays)
      ensures var d := displays[|old(displays)|];
              && d.display.device == device && d.display.swapchain == swapchain && d.display.position == Point(0, 0)
              && d.display.size == Size(ctx.swapchains[swapchain].width, ctx.swapchains[swapchain].height)
              && ctx.requests == old(ctx.requests)
                   + LegacyDisplayRequests(device, ctx.swapchains, d, pipelineLayout, vertexShader, fragmentShader)
                   + [Updated(commandBuffer.raw, CommandBufferDesc(CommandBufferFor()))]
    {
      var dr := RegisterLegacyDisplay(ctx, device, swapchain, Point(0, 0), pipelineLayout, vertexShader, fragmentShader);
      ghost var log := ctx.requests;
      displays := displays + [dr];
      UpdateCommandBuffer(ctx);
      assert ctx.requests == log + [Updated(commandBuffer.raw, CommandBufferDesc(CommandBufferFor()))];
    }

    /**
      One device's step of the `retain` in `SwapchainDestroyed`: the first
      display on `swapchain`, if any, is dropped.  The result says whether
      the device stays, which it does unless that was its last display; a
      device that stays after losing a display gets its command buffer
      re-described.
    */
    method DetachDisplay(ctx: UpdateContext, swapchain: SwapchainId) returns (keep: bool)
      requires Valid() && ctx.Valid()
      modifies this`displays, ctx
      ensures ctx.Valid()
      ensures displays == LegacyWithoutDisplayOn(old(displays), swapchain)
      ensures keep == (LegacyFirstOn(old(displays), swapchain).None? || |old(displays)| > 1)
      ensures ctx.requests == old(ctx.requests)
                + if LegacyFirstOn(old(displays), swapchain).Some? && |old(displays)| > 1
                  then [Updated(commandBuffer.raw, CommandBufferDesc(CommandBufferFor()))] else []
    {
      match LegacyFirstOn(displays, swapchain)
      case None =>
        keep := true;
      case Some(index) =>
        displays := displays[..index] + displays[index + 1..];
        if displays != [] {
          UpdateCommandBuffer(ctx);
          keep := true;
        } else {
          keep := false;
        }
    }

    /**
      The pipeline loop of the older cascade: every display's pipeline is
      re-described, in display order, whatever its surfaces.  The displays
      themselves, with their pipeline ids, are unchanged.
    */
    method UpdateRenderPipelines(ctx: UpdateContext)
      requires Valid() && ctx.Valid() && LegacySwapchainsKnown(displays, ctx.swapchains)
      modifies ctx
      ensures ctx.Valid()
      ensures ctx.requests == old(ctx.requests)
                + PipelineUpdates(device, displays, ctx.swapchains, pipelineLayout, vertexShader, fragmentShader)
    {
      var i := 0;
      while i < |displays|
        invariant 0 <= i <= |displays| && ctx.Valid()
        invariant LegacySwapchainsKnown(displays[..i], ctx.swapchains)
        invariant ctx.requests == old(ctx.requests)
                    + PipelineUpdates(device, displays[..i], ctx.swapchains, pipelineLayout, vertexShader, fragmentShader)
      {
        PipelineUpdatesStep(device, displays, i, ctx.swapchains, pipelineLayout, vertexShader, fragmentShader);
        var dr := displays[i];
        var descriptor := LegacyPrepareRenderPipeline(device, dr.display, ctx.swapchains[dr.display.swapchain].format,
                                                      pipelineLayout, vertexShader, fragmentShader);
        var _ := ctx.Update(dr.renderPipeline.raw, RenderPipelineDesc(descriptor));
        i := i + 1;
      }
      assert displays[..i] == displays;
    }

    /**
      The older per-device `update_resources`: in this order, the bind-group
      layout for the current surface count, the pipeline layout, the bind
      group over the pool's views in stack order, every display's pipeline,
      and the command buffer.  Nothing but the context changes: in
      particular, no image index is rewritten.
    */
    method UpdateResources(ctx: UpdateContext)
      requires Valid() && ctx.Valid() && LegacySwapchainsKnown(displays, ctx.swapchains)
      modifies ctx
      ensures ctx.Valid()
      ensures ctx.requests == old(ctx.requests)
                + LayoutRequests(device, |surfaceManager.stack|, bindGroupLayout, pipelineLayout)
                + [Updated(bindGroup.raw, BindGroupDesc(PrepareBindGroup(device, surfaceManager.RectangleViews(), bindGroupLayout, sampler)))]
                + PipelineUpdates(device, displays, ctx.swapchains, pipelineLayout, vertexShader, fragmentShader)
                + [Updated(commandBuffer.raw, CommandBufferDesc(CommandBufferFor()))]
    {
      UpdateLayouts(ctx);
      ghost var log1 := ctx.requests;
      UpdateRenderPipelines(ctx);
      ghost var log2 := ctx.requests;
      UpdateCommandBuffer(ctx);
      assert ctx.requests == log2 + [Updated(commandBuffer.raw, CommandBufferDesc(CommandBufferFor()))];
    }

    /** The first three steps of the older cascade: bind-group layout, pipeline layout, then bind group. */
    method UpdateLayouts(ctx: UpdateContext)
      requires Valid() && ctx.Valid()
      modifies ctx
      ensures ctx.Valid()
      ensures ctx.requests == old(ctx.requests)
                + LayoutRequests(device, |surfaceManager.stack|, bindGroupLayout, pipelineLayout)
                + [Updated(bindGroup.raw, BindGroupDesc(PrepareBindGroup(device, surfaceManager.RectangleViews(), bindGroupLayout, sampler)))]
    {
      var layoutDescriptor := PrepareBindGroupLayout(device, surfaceManager.Len());
      var _ := ctx.Update(bindGroupLayout.raw, BindGroupLayoutDesc(layoutDescriptor));
      var pipelineLayoutDescriptor := PreparePipelineLayout(device, bindGroupLayout);
      var _ := ctx.Update(pipelineLayout.raw, PipelineLayoutDesc(pipelineLayoutDescriptor));
      var bindGroupDescriptor := PrepareBindGroup(device, surfaceManager.RectangleViews(), bindGroupLayout, sampler);
      var _ := ctx.Update(bindGroup.raw, BindGroupDesc(bindGroupDescriptor));
    }

    /**
      The upload step of the older `elaborate_events`: the pool's queued
      writes are committed, and when there were any the data-copy command
      buffer is re-described with the upload commands and becomes due.  The
      flag is never cleared.
    */
    method UploadData(ctx: UpdateContext)
      requires Valid() && ctx.Valid()
      modifies this`dataCopyCommandBufferUpdated, surfaceManager, ctx
      ensures Valid() && ctx.Valid()
      ensures surfaceManager.stack == old(surfaceManager.stack) && surfaceManager.idCounter == old(surfaceManager.idCounter)
      ensures surfaceManager.dataBuffer == Flush(old(surfaceManager.dataBuffer)).0
      ensures dataCopyCommandBufferUpdated == (old(dataCopyCommandBufferUpdated) || old(surfaceManager.dataBuffer.pending) != [])
      ensures ctx.requests == old(ctx.requests)
                + if old(surfaceManager.dataBuffer.pending) == [] then []
                  else [Updated(dataCopyCommandBuffer.raw, CommandBufferDesc(CommandBufferDescriptor(device,
                          TASK_NAME + " data copy command buffer", Flush(old(surfaceManager.dataBuffer)).1)))]
    {
      var commands := surfaceManager.Update();
      if commands != [] {
        var _ := ctx.Update(dataCopyCommandBuffer.raw,
                            CommandBufferDesc(CommandBufferDescriptor(device, TASK_NAME + " data copy command buffer", commands)));
        dataCopyCommandBufferUpdated := true;
      }
    }
  }
}
