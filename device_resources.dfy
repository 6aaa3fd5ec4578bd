/**
  The rendering resources of one device (`DeviceResources`) in the current
  tree, and the rebuild steps of `src/screen_task/update_descriptors/`: the
  command buffer, the readiness-gated render pipelines, and the cascade that
  rebuilds everything that depends on the number and order of surfaces.
*/
module Devices {
  import opened Wrappers
  import opened Engine
  import opened Surfaces
  import opened Buffers
  import opened SurfacePool
  import opened Displays
  import opened Descriptors

  /** `DEPTH_STENCIL_FORMAT` of the current tree. */
  const DEPTH_STENCIL_FORMAT: TextureFormat := Depth32Float

  /**
    `DisplayResources::new`: registers the display's render pipeline, ready
    exactly when the pool has surfaces; the display is stored as given.
  */
  method NewDisplayResources(ctx: UpdateContext, display: Display, pipelineLayout: PipelineLayoutId,
                             vertexShader: ShaderModuleId, fragmentShader: ShaderModuleId, surfaceManager: SurfaceManager)
    returns (dr: DisplayResources)
    requires ctx.Valid() && display.swapchain in ctx.swapchains
    modifies ctx
    ensures ctx.Valid()
    ensures dr.display == display && dr.renderPipelineReady == (|surfaceManager.stack| > 0)
    ensures dr.renderPipeline.raw !in old(ctx.descriptors)
    ensures var p := PrepareRenderPipeline(display.device, display, ctx.swapchains[display.swapchain].format, pipelineLayout,
                                           vertexShader, fragmentShader, |surfaceManager.stack|).0;
            && ctx.descriptors == old(ctx.descriptors)[dr.renderPipeline.raw := RenderPipelineDesc(p)]
            && ctx.requests == old(ctx.requests) + [Added(dr.renderPipeline.raw, RenderPipelineDesc(p))]
  {
    var (descriptor, ready) := PrepareRenderPipeline(display.device, display, ctx.swapchains[display.swapchain].format,
                                                     pipelineLayout, vertexShader, fragmentShader, surfaceManager.Len());
    var id := ctx.Add(RenderPipelineDesc(descriptor));
    dr := DisplayResources(display, ready, RenderPipelineId(id));
  }

  /** The pipeline `prepare_render_pipeline` builds for `dr` with the device's shared objects. */
  function PipelineFor(device: DeviceId, dr: DisplayResources, swapchains: map<SwapchainId, SwapchainDescriptor>,
                       pipelineLayout: PipelineLayoutId, vs: ShaderModuleId, fs: ShaderModuleId, len: nat)
    : (RenderPipelineDescriptor, bool)
    requires dr.display.swapchain in swapchains
  {
    PrepareRenderPipeline(device, dr.display, swapchains[dr.display.swapchain].format, pipelineLayout, vs, fs, len)
  }

  /** Every display's swapchain is known to the context. */
  predicate SwapchainsKnown(ds: seq<DisplayResources>, swapchains: map<SwapchainId, SwapchainDescriptor>)
  {
    forall i :: 0 <= i < |ds| ==> ds[i].display.swapchain in swapchains
  }

  /**
    The pipeline updates `update_render_pipeline` issues for `ds`, in display
    order: one for each display whose stored readiness differs from the
    readiness for `len` surfaces, and none for the others.
  */
  function Rebuilds(device: DeviceId, ds: seq<DisplayResources>, swapchains: map<SwapchainId, SwapchainDescriptor>,
                    pipelineLayout: PipelineLayoutId, vs: ShaderModuleId, fs: ShaderModuleId, len: nat): seq<Request>
    requires SwapchainsKnown(ds, swapchains)
    decreases |ds|
  {
    if ds == [] then []
    else
      var last := ds[|ds| - 1];
      var (p, ready) := PipelineFor(device, last, swapchains, pipelineLayout, vs, fs, len);
      Rebuilds(device, ds[..|ds| - 1], swapchains, pipelineLayout, vs, fs, len)
      + (if last.renderPipelineReady != ready then [Updated(last.renderPipeline.raw, RenderPipelineDesc(p))] else [])
  }

  /** The displays with their readiness brought up to date for `len` surfaces. */
  function Refreshed(ds: seq<DisplayResources>, len: nat): (r: seq<DisplayResources>)
    ensures |r| == |ds|
    ensures forall i :: 0 <= i < |ds| ==> r[i] == ds[i].(renderPipelineReady := len > 0)
  {
    seq(|ds|, i requires 0 <= i < |ds| => ds[i].(renderPipelineReady := len > 0))
  }

  /** When every stored readiness is already current, no pipeline is rebuilt. */
  lemma {:induction false} NoRebuildsWhenCurrent(device: DeviceId, ds: seq<DisplayResources>,
                                                 swapchains: map<SwapchainId, SwapchainDescriptor>,
                                                 pipelineLayout: PipelineLayoutId, vs: ShaderModuleId, fs: ShaderModuleId, len: nat)
    requires SwapchainsKnown(ds, swapchains)
    requires forall i :: 0 <= i < |ds| ==> ds[i].renderPipelineReady == (len > 0)
    ensures Rebuilds(device, ds, swapchains, pipelineLayout, vs, fs, len) == []
    decreases |ds|
  {
    if ds != [] {
      NoRebuildsWhenCurrent(device, ds[..|ds| - 1], swapchains, pipelineLayout, vs, fs, len);
    }
  }

  /** A second refresh with the same surface count rebuilds nothing and changes nothing. */
  lemma SecondRefreshIsQuiet(device: DeviceId, ds: seq<DisplayResources>, swapchains: map<SwapchainId, SwapchainDescriptor>,
                             pipelineLayout: PipelineLayoutId, vs: ShaderModuleId, fs: ShaderModuleId, len: nat)
    requires SwapchainsKnown(ds, swapchains)
    ensures SwapchainsKnown(Refreshed(ds, len), swapchains)
    ensures Rebuilds(device, Refreshed(ds, len), swapchains, pipelineLayout, vs, fs, len) == []
    ensures Refreshed(Refreshed(ds, len), len) == Refreshed(ds, len)
  {
    NoRebuildsWhenCurrent(device, Refreshed(ds, len), swapchains, pipelineLayout, vs, fs, len);
  }

  /** Rebuilds happen exactly for the displays whose readiness flips. */
  lemma {:induction false} RebuildCount(device: DeviceId, ds: seq<DisplayResources>, swapchains: map<SwapchainId, SwapchainDescriptor>,
                                        pipelineLayout: PipelineLayoutId, vs: ShaderModuleId, fs: ShaderModuleId, len: nat)
    requires SwapchainsKnown(ds, swapchains)
    ensures |Rebuilds(device, ds, swapchains, pipelineLayout, vs, fs, len)|
            == |set i | 0 <= i < |ds| && ds[i].renderPipelineReady != (len > 0)|
    decreases |ds|
  {
    if ds != [] {
      var init := ds[..|ds| - 1];
      RebuildCount(device, init, swapchains, pipelineLayout, vs, fs, len);
      var before := set i | 0 <= i < |init| && init[i].renderPipelineReady != (len > 0);
      var after := set i | 0 <= i < |ds| && ds[i].renderPipelineReady != (len > 0);
      if ds[|ds| - 1].renderPipelineReady != (len > 0) {
        assert after == before + {|ds| - 1};
      } else {
        assert after == before;
      }
    }
  }

  /**
    The first two requests of the cascade, in order: the bind-group layout
    for `len` surfaces and the pipeline layout built on that layout.
  */
  function LayoutRequests(device: DeviceId, len: nat, bindGroupLayout: BindGroupLayoutId, pipelineLayout: PipelineLayoutId)
    : seq<Request>
  {
    [Updated(bindGroupLayout.raw, BindGroupLayoutDesc(PrepareBindGroupLayout(device, len))),
     Updated(pipelineLayout.raw, PipelineLayoutDesc(PreparePipelineLayout(device, bindGroupLayout)))]
  }

  /** One more display considered: its rebuild, if any, goes last. */
  lemma RebuildsStep(device: DeviceId, start: seq<DisplayResources>, i: nat, swapchains: map<SwapchainId, SwapchainDescriptor>,
                     pipelineLayout: PipelineLayoutId, vs: ShaderModuleId, fs: ShaderModuleId, len: nat)
    requires i < |start| && SwapchainsKnown(start, swapchains)
    ensures SwapchainsKnown(start[..i], swapchains) && SwapchainsKnown(start[..i + 1], swapchains)
    ensures var (p, ready) := PipelineFor(device, start[i], swapchains, pipelineLayout, vs, fs, len);
            Rebuilds(device, start[..i + 1], swapchains, pipelineLayout, vs, fs, len)
            == Rebuilds(device, start[..i], swapchains, pipelineLayout, vs, fs, len)
               + (if start[i].renderPipelineReady != ready then [Updated(start[i].renderPipeline.raw, RenderPipelineDesc(p))] else [])
  {
    assert start[..i + 1][..i] == start[..i];
    assert start[..i + 1][i] == start[i];
    assert forall k :: 0 <= k < i ==> start[..i][k] == start[..i + 1][k];
  }

  /**
    What registering a display records: its depth texture and depth view
    (the view named "DepthStencil view"), then its render pipeline for `len`
    surfaces.
  */
  function DisplayRequests(device: DeviceId, swapchains: map<SwapchainId, SwapchainDescriptor>, dr: DisplayResources,
                           pipelineLayout: PipelineLayoutId, vs: ShaderModuleId, fs: ShaderModuleId, len: nat): seq<Request>
    requires dr.display.swapchain in swapchains
  {
    var (t, v) := DepthDescriptors(device, swapchains[dr.display.swapchain], dr.display.depthStencil, "DepthStencil view", DEPTH_STENCIL_FORMAT);
    [Added(dr.display.depthStencil.raw, t), Added(dr.display.depthStencilView.raw, v),
     Added(dr.renderPipeline.raw, RenderPipelineDesc(PipelineFor(device, dr, swapchains, pipelineLayout, vs, fs, len).0))]
  }

  /**
    The shared objects `init_device_resources` registers after the pool, in
    order: the two shader modules, the sampler, the bind-group layout for
    `len` surfaces, the bind group over `views`, and the pipeline layout.
  */
  function SharedRequests(device: DeviceId, len: nat, views: seq<TextureViewId>, vs: ShaderModuleId, fs: ShaderModuleId,
                          sampler: SamplerId, bgl: BindGroupLayoutId, bg: BindGroupId, pl: PipelineLayoutId): seq<Request>
  {
    [Added(vs.raw, ShaderModuleDesc(ShaderModuleDescriptor(device, "ScreenTask VS"))),
     Added(fs.raw, ShaderModuleDesc(ShaderModuleDescriptor(device, "ScreenTask FS"))),
     Added(sampler.raw, SamplerDesc(SamplerDescriptor(device, TASK_NAME + " sampler"))),
     Added(bgl.raw, BindGroupLayoutDesc(PrepareBindGroupLayout(device, len))),
     Added(bg.raw, BindGroupDesc(PrepareBindGroup(device, views, bgl, sampler))),
     Added(pl.raw, PipelineLayoutDesc(PreparePipelineLayout(device, bgl)))]
  }

  /** Registers the shared objects of a device for the pool `sm` as it is now. */
  method RegisterShared(ctx: UpdateContext, device: DeviceId, sm: SurfaceManager)
    returns (vs: ShaderModuleId, fs: ShaderModuleId, sampler: SamplerId, bgl: BindGroupLayoutId, bg: BindGroupId, pl: PipelineLayoutId)
    requires ctx.Valid() && sm.Valid()
    modifies ctx
    ensures ctx.Valid()
    ensures ctx.requests == old(ctx.requests) + SharedRequests(device, |sm.stack|, sm.RectangleViews(), vs, fs, sampler, bgl, bg, pl)
    ensures old(ctx.descriptors).Keys <= ctx.descriptors.Keys
  {
    ghost var log0 := ctx.requests;
    var v := ctx.Add(ShaderModuleDesc(ShaderModuleDescriptor(device, "ScreenTask VS")));
    var f := ctx.Add(ShaderModuleDesc(ShaderModuleDescriptor(device, "ScreenTask FS")));
    var s := ctx.Add(SamplerDesc(SamplerDescriptor(device, TASK_NAME + " sampler")));
    ghost var log1 := ctx.requests;
    var l := ctx.Add(BindGroupLayoutDesc(PrepareBindGroupLayout(device, sm.Len())));
    var g := ctx.Add(BindGroupDesc(PrepareBindGroup(device, sm.RectangleViews(), BindGroupLayoutId(l), SamplerId(s))));
    var p := ctx.Add(PipelineLayoutDesc(PreparePipelineLayout(device, BindGroupLayoutId(l))));
    vs, fs, sampler, bgl, bg, pl := ShaderModuleId(v), ShaderModuleId(f), SamplerId(s), BindGroupLayoutId(l), BindGroupId(g), PipelineLayoutId(p);
    assert log1 == log0 + SharedRequests(device, |sm.stack|, sm.RectangleViews(), vs, fs, sampler, bgl, bg, pl)[..3];
    assert ctx.requests == log1 + SharedRequests(device, |sm.stack|, sm.RectangleViews(), vs, fs, sampler, bgl, bg, pl)[3..];
  }

  /** The position of the first display on `swapchain` (`iter().position`), if any. */
  function FirstOn(ds: seq<DisplayResources>, swapchain: SwapchainId): (r: Option<nat>)
    ensures r.Some? ==> r.value < |ds| && ds[r.value].display.swapchain == swapchain
    ensures r.Some? ==> forall j :: 0 <= j < r.value ==> ds[j].display.swapchain != swapchain
    ensures r.None? ==> forall j :: 0 <= j < |ds| ==> ds[j].display.swapchain != swapchain
    decreases |ds|
  {
    if ds == [] then None
    else if ds[0].display.swapchain == swapchain then Some(0)
    else match FirstOn(ds[1..], swapchain)
      case None => None
      case Some(i) => Some(i + 1)
  }

  /** The displays without the first one on `swapchain` (`Vec::remove` at its position). */
  function WithoutDisplayOn(ds: seq<DisplayResources>, swapchain: SwapchainId): seq<DisplayResources>
  {
    match FirstOn(ds, swapchain)
    case None => ds
    case Some(i) => ds[..i] + ds[i + 1..]
  }

  /** The displays with the first one on `swapchain` resized to the swapchain's current size. */
  function ResizedOn(ds: seq<DisplayResources>, swapchain: SwapchainId, swapchains: map<SwapchainId, SwapchainDescriptor>)
    : seq<DisplayResources>
    requires swapchain in swapchains
  {
    match FirstOn(ds, swapchain)
    case None => ds
    case Some(i) =>
      var sc := swapchains[swapchain];
      ds[i := ds[i].(display := ds[i].display.(size := Size(sc.width, sc.height)))]
  }

  /** The re-descriptions `Display::update` records for `d`: its depth texture, then its view, named "DepthStencil". */
  function DepthUpdates(d: Display, swapchains: map<SwapchainId, SwapchainDescriptor>): seq<Request>
    requires d.swapchain in swapchains
  {
    var (t, v) := DepthDescriptors(d.device, swapchains[d.swapchain], d.depthStencil, "DepthStencil", DEPTH_STENCIL_FORMAT);
    [Updated(d.depthStencil.raw, t), Updated(d.depthStencilView.raw, v)]
  }

  /** Every display's depth texture and view are still registered with the engine. */
  predicate DepthRegistered(ds: seq<DisplayResources>, descriptors: map<nat, Descriptor>)
  {
    forall i :: 0 <= i < |ds| ==>
      ds[i].display.depthStencil.raw in descriptors && ds[i].display.depthStencilView.raw in descriptors
  }

  /** The swapchains the displays are on, in display order. */
  function SwapchainsOf(ds: seq<DisplayResources>): (r: seq<SwapchainId>)
    ensures |r| == |ds| && forall i :: 0 <= i < |ds| ==> r[i] == ds[i].display.swapchain
  {
    seq(|ds|, i requires 0 <= i < |ds| => ds[i].display.swapchain)
  }

  /**
    Dropping the first display on a swapchain removes exactly one display
    when there is one on it, keeps the others in order, and keeps every
    remaining display known and registered.
  */
  lemma WithoutDisplayOnProperties(ds: seq<DisplayResources>, swapchain: SwapchainId,
                                   swapchains: map<SwapchainId, SwapchainDescriptor>, descriptors: map<nat, Descriptor>)
    ensures |WithoutDisplayOn(ds, swapchain)| == if FirstOn(ds, swapchain).Some? then |ds| - 1 else |ds|
    ensures SwapchainsKnown(ds, swapchains) ==> SwapchainsKnown(WithoutDisplayOn(ds, swapchain), swapchains)
    ensures DepthRegistered(ds, descriptors) ==> DepthRegistered(WithoutDisplayOn(ds, swapchain), descriptors)
    ensures forall x :: x in WithoutDisplayOn(ds, swapchain) ==> x in ds
  {
    match FirstOn(ds, swapchain)
    case None =>
    case Some(i) =>
      var r := ds[..i] + ds[i + 1..];
      assert forall j :: 0 <= j < |r| ==> r[j] == if j < i then ds[j] else ds[j + 1];
  }

  /**
    A display attached on a swapchain no other display is on is the one a
    later detach on that swapchain drops: the displays are as before.
  */
  lemma DetachAttached(ds: seq<DisplayResources>, d: DisplayResources)
    requires FirstOn(ds, d.display.swapchain).None?
    ensures WithoutDisplayOn(ds + [d], d.display.swapchain) == ds
  {
    var r := ds + [d];
    assert FirstOn(r, d.display.swapchain) == Some(|ds|) by {
      assert r[|ds|] == d;
      assert forall j :: 0 <= j < |ds| ==> r[j] == ds[j];
    }
    assert r[..|ds|] == ds;
    assert r[|ds| + 1..] == [];
  }

  /**
    Resizing the first display on a swapchain changes only that display's
    size: the number of displays, every display's swapchain and depth ids,
    and so knownness and registration, are kept.
  */
  lemma ResizedOnProperties(ds: seq<DisplayResources>, swapchain: SwapchainId,
                            swapchains: map<SwapchainId, SwapchainDescriptor>, descriptors: map<nat, Descriptor>)
    requires swapchain in swapchains
    ensures |ResizedOn(ds, swapchain, swapchains)| == |ds|
    ensures SwapchainsOf(ResizedOn(ds, swapchain, swapchains)) == SwapchainsOf(ds)
    ensures SwapchainsKnown(ds, swapchains) ==> SwapchainsKnown(ResizedOn(ds, swapchain, swapchains), swapchains)
    ensures DepthRegistered(ds, descriptors) ==> DepthRegistered(ResizedOn(ds, swapchain, swapchains), descriptors)
    ensures forall j :: 0 <= j < |ds| && FirstOn(ds, swapchain) != Some(j) ==> ResizedOn(ds, swapchain, swapchains)[j] == ds[j]
  {
  }

  /**
    `Display::new` followed by `DisplayResources::new`: a display on
    `swapchain` at `position`, with its depth texture and view and its
    render pipeline for the pool as it is now.
  */
  method RegisterDisplay(ctx: UpdateContext, device: DeviceId, swapchain: SwapchainId, position: Point,
                         pipelineLayout: PipelineLayoutId, vs: ShaderModuleId, fs: ShaderModuleId, sm: SurfaceManager)
    returns (dr: DisplayResources)
    requires ctx.Valid() && swapchain in ctx.swapchains
    modifies ctx
    ensures ctx.Valid()
    ensures dr.display.device == device && dr.display.swapchain == swapchain && dr.display.position == position
    ensures dr.display.size == Size(ctx.swapchains[swapchain].width, ctx.swapchains[swapchain].height)
    ensures dr.renderPipelineReady == (|sm.stack| > 0)
    ensures old(ctx.descriptors).Keys <= ctx.descriptors.Keys && DepthRegistered([dr], ctx.descriptors)
    ensures ctx.requests == old(ctx.requests) + DisplayRequests(device, ctx.swapchains, dr, pipelineLayout, vs, fs, |sm.stack|)
  {
    var display := NewDisplay(ctx, device, swapchain, position, DEPTH_STENCIL_FORMAT);
    dr := NewDisplayResources(ctx, display, pipelineLayout, vs, fs, sm);
  }

  class DeviceResources {
    const device: DeviceId
    const surfaceManager: SurfaceManager
    const fragmentShader: ShaderModuleId
    const vertexShader: ShaderModuleId
    const sampler: SamplerId
    const bindGroupLayout: BindGroupLayoutId
    const bindGroup: BindGroupId
    const pipelineLayout: PipelineLayoutId
    const commandBuffer: CommandBufferId
    const dataCopyCommandBuffer: CommandBufferId
    var displays: seq<DisplayResources>
    var dataCopyCommandBufferUpdated: bool

    ghost predicate Valid()
      reads this, surfaceManager
    {
      surfaceManager.Valid() && surfaceManager.device == device
    }

    /** The command buffer `prepare_command_buffer` builds from the current displays, bind group and pool. */
    function CommandBufferFor(): (r: CommandBufferDescriptor)
      reads this, surfaceManager
      ensures |r.commands| == |displays|
      ensures forall i :: 0 <= i < |displays| ==>
                r.commands[i].RenderPass? && r.commands[i].commands == DrawCommands(displays[i], bindGroup, surfaceManager.buffer, |surfaceManager.stack|)
    {
      PrepareCommandBuffer(device, displays, bindGroup, surfaceManager.buffer, surfaceManager.Len())
    }

    /**
      `init_device_resources`: a fresh, empty pool; the shaders and sampler;
      the bind-group layout and bind group for no surfaces; the pipeline
      layout; one display on `swapchain` with its (not ready) pipeline; the
      command buffer; and an empty data-copy command buffer, not yet due.
    */
    constructor Init(ctx: UpdateContext, device: DeviceId, swapchain: SwapchainId, position: Point)
      requires ctx.Valid() && swapchain in ctx.swapchains
      modifies ctx
      ensures ctx.Valid() && Valid() && fresh(surfaceManager)
      ensures this.device == device
      ensures surfaceManager.stack == [] && surfaceManager.idCounter == 0
      ensures |displays| == 1 && displays[0].display.swapchain == swapchain && displays[0].display.position == position
      ensures displays[0].display.device == device && !displays[0].renderPipelineReady
      ensures !dataCopyCommandBufferUpdated
      ensures old(ctx.descriptors).Keys <= ctx.descriptors.Keys && DepthRegistered(displays, ctx.descriptors)
      ensures ctx.requests == old(ctx.requests)
                + [Added(surfaceManager.buffer.raw, BufferDesc(BufferDescriptor(device, "SurfaceManager buffer", 32, true)))]
                + SharedRequests(device, 0, [], vertexShader, fragmentShader, sampler, bindGroupLayout, bindGroup, pipelineLayout)
                + DisplayRequests(device, ctx.swapchains, displays[0], pipelineLayout, vertexShader, fragmentShader, 0)
                + [Added(commandBuffer.raw, CommandBufferDesc(PrepareCommandBuffer(device, displays, bindGroup, surfaceManager.buffer, 0))),
                   Added(dataCopyCommandBuffer.raw, CommandBufferDesc(CommandBufferDescriptor(device, TASK_NAME + " data copy command buffer", [])))]
    {
      ghost var log0 := ctx.requests;
      var sm := new SurfaceManager(ctx, device);
      ghost var log1 := ctx.requests;
      var vs, fs, s, bgl, bg, pl := RegisterShared(ctx, device, sm);
      ghost var log2 := ctx.requests;
      var dr := RegisterDisplay(ctx, device, swapchain, position, pl, vs, fs, sm);
      var ds := [dr];
      var cb := ctx.Add(CommandBufferDesc(PrepareCommandBuffer(device, ds, bg, sm.buffer, sm.Len())));
      var dcb := ctx.Add(CommandBufferDesc(CommandBufferDescriptor(device, TASK_NAME + " data copy command buffer", [])));
      this.device := device;
      surfaceManager := sm;
      vertexShader := vs;
      fragmentShader := fs;
      sampler := s;
      bindGroupLayout := bgl;
      bindGroup := bg;
      pipelineLayout := pl;
      commandBuffer := CommandBufferId(cb);
      dataCopyCommandBuffer := CommandBufferId(dcb);
      displays := ds;
      dataCopyCommandBufferUpdated := false;
    }

    /**
      `update_command_buffer`: re-describes the command buffer from the
      displays and bind group as they are now.  Nothing else changes.
    */
    method UpdateCommandBuffer(ctx: UpdateContext)
      requires ctx.Valid()
      modifies ctx
      ensures ctx.Valid()
      ensures ctx.descriptors == if commandBuffer.raw in old(ctx.descriptors)
                                 then old(ctx.descriptors)[commandBuffer.raw := CommandBufferDesc(CommandBufferFor())]
                                 else old(ctx.descriptors)
      ensures ctx.requests == old(ctx.requests) + [Updated(commandBuffer.raw, CommandBufferDesc(CommandBufferFor()))]
    {
      var descriptor := PrepareCommandBuffer(device, displays, bindGroup, surfaceManager.buffer, surfaceManager.Len());
      var _ := ctx.Update(commandBuffer.raw, CommandBufferDesc(descriptor));
    }

    /**
      The occupied arm of `SwapchainCreated`: a display on `swapchain` at the
      origin, with its pipeline, is appended after the existing displays, and
      the command buffer is re-described to draw it too.  The pool is
      untouched.
    */
    method AttachDisplay(ctx: UpdateContext, swapchain: SwapchainId)
      requires ctx.Valid() && swapchain in ctx.swapchains
      modifies this`displays, ctx
      ensures ctx.Valid()
      ensures |displays| == |old(displays)| + 1 && displays[..|old(displays)|] == old(displays)
      ensures var d := displays[|old(displays)|];
              && d.display.device == device && d.display.swapchain == swapchain && d.display.position == Point(0, 0)
              && d.display.size == Size(ctx.swapchains[swapchain].width, ctx.swapchains[swapchain].height)
              && d.renderPipelineReady == (|surfaceManager.stack| > 0)
              && ctx.requests == old(ctx.requests)
                   + DisplayRequests(device, ctx.swapchains, d, pipelineLayout, vertexShader, fragmentShader, |surfaceManager.stack|)
                   + [Updated(commandBuffer.raw, CommandBufferDesc(CommandBufferFor()))]
      ensures old(ctx.descriptors).Keys <= ctx.descriptors.Keys
      ensures DepthRegistered(old(displays), old(ctx.descriptors)) ==> DepthRegistered(displays, ctx.descriptors)
    {
      var dr := RegisterDisplay(ctx, device, swapchain, Point(0, 0), pipelineLayout, vertexShader, fragmentShader, surfaceManager);
      ghost var log := ctx.requests;
      displays := displays + [dr];
      UpdateCommandBuffer(ctx);
      assert ctx.requests == log + [Updated(commandBuffer.raw, CommandBufferDesc(CommandBufferFor()))];
    }

    /**
      One device's step of the `retain` in `SwapchainDestroyed`: the first
      display on `swapchain`, if any, is dropped.  The result says whether
      the device stays, which it does unless that was its last display; a
      device that stays after losing a display gets its command buffer
      re-described.
    */
    method DetachDisplay(ctx: UpdateContext, swapchain: SwapchainId) returns (keep: bool)
      requires ctx.Valid()
      modifies this`displays, ctx
      ensures ctx.Valid()
      ensures displays == WithoutDisplayOn(old(displays), swapchain)
      ensures keep == (FirstOn(old(displays), swapchain).None? || |old(displays)| > 1)
      ensures ctx.descriptors.Keys == old(ctx.descriptors).Keys
      ensures ctx.requests == old(ctx.requests)
                + if FirstOn(old(displays), swapchain).Some? && |old(displays)| > 1
                  then [Updated(commandBuffer.raw, CommandBufferDesc(CommandBufferFor()))] else []
    {
      match FirstOn(displays, swapchain)
      case None =>
        keep := true;
      case Some(index) =>
        displays := displays[..index] + displays[index + 1..];
        if displays != [] {
          UpdateCommandBuffer(ctx);
          keep := true;
        } else {
          keep := false;
        }
    }

    /**
      One device's step of the `find_map` in `SwapchainUpdated`: first the
      command buffer is re-described from the displays as they are, then the
      first display on `swapchain`, if any, takes the swapchain's current
      size and its depth texture and view are re-described.  The result says
      whether there was such a display.
    */
    method ResizeDisplay(ctx: UpdateContext, swapchain: SwapchainId) returns (found: bool)
      requires ctx.Valid() && swapchain in ctx.swapchains
      requires DepthRegistered(displays, ctx.descriptors)
      modifies this`displays, ctx
      ensures ctx.Valid()
      ensures found == FirstOn(old(displays), swapchain).Some?
      ensures displays == ResizedOn(old(displays), swapchain, ctx.swapchains)
      ensures ctx.descriptors.Keys == old(ctx.descriptors).Keys
      ensures ctx.requests == old(ctx.requests) + [Updated(commandBuffer.raw, CommandBufferDesc(old(CommandBufferFor())))]
                + if found then DepthUpdates(old(displays)[FirstOn(old(displays), swapchain).value].display, ctx.swapchains) else []
    {
      UpdateCommandBuffer(ctx);
      match FirstOn(displays, swapchain)
      case None =>
        found := false;
      case Some(index) =>
        var display := UpdateDisplay(ctx, displays[index].display, DEPTH_STENCIL_FORMAT);
        displays := displays[index := displays[index].(display := display)];
        found := true;
    }

    /**
      One step of `update_render_pipeline`: the pipeline of display `i` is
      rebuilt exactly when its stored readiness differs from the current one,
      and the current readiness is recorded.
    */
    method RefreshDisplay(ctx: UpdateContext, i: nat)
      requires Valid() && ctx.Valid() && i < |displays| && displays[i].display.swapchain in ctx.swapchains
      modifies this`displays, ctx
      ensures Valid() && ctx.Valid() && ctx.descriptors.Keys == old(ctx.descriptors).Keys
      ensures displays == old(displays)[i := old(displays)[i].(renderPipelineReady := |surfaceManager.stack| > 0)]
      ensures var (p, ready) := PipelineFor(device, old(displays)[i], ctx.swapchains, pipelineLayout, vertexShader, fragmentShader,
                                            |surfaceManager.stack|);
              ctx.requests == old(ctx.requests)
                + (if old(displays)[i].renderPipelineReady != ready then [Updated(old(displays)[i].renderPipeline.raw, RenderPipelineDesc(p))] else [])
    {
      var dr := displays[i];
      var (descriptor, ready) := PrepareRenderPipeline(device, dr.display, ctx.swapchains[dr.display.swapchain].format,
                                                       pipelineLayout, vertexShader, fragmentShader, surfaceManager.Len());
      if dr.renderPipelineReady != ready {
        var _ := ctx.Update(dr.renderPipeline.raw, RenderPipelineDesc(descriptor));
        displays := displays[i := dr.(renderPipelineReady := ready)];
      } else {
        assert displays == displays[i := dr];
      }
    }

    /**
      `update_render_pipeline`: for each display in order, rebuilds its
      pipeline only when its stored readiness differs from the current one,
      and records the current readiness.  The display list keeps its length
      and order, and each display keeps its display and pipeline id.
    */
    method UpdateRenderPipeline(ctx: UpdateContext)
      requires Valid() && ctx.Valid() && SwapchainsKnown(displays, ctx.swapchains)
      modifies this`displays, ctx
      ensures Valid() && ctx.Valid()
      ensures displays == Refreshed(old(displays), |surfaceManager.stack|)
      ensures forall i :: 0 <= i < |displays| ==> displays[i].renderPipelineReady == (|surfaceManager.stack| > 0)
      ensures ctx.requests == old(ctx.requests)
                + Rebuilds(device, old(displays), ctx.swapchains, pipelineLayout, vertexShader, fragmentShader, |surfaceManager.stack|)
      ensures ctx.descriptors.Keys == old(ctx.descriptors).Keys
    {
      var len := surfaceManager.Len();
      ghost var start := displays;
      ghost var log := ctx.requests;
      var i := 0;
      while i < |displays|
        invariant 0 <= i <= |displays| == |start|
        invariant forall k :: 0 <= k < i ==> displays[k] == start[k].(renderPipelineReady := len > 0)
        invariant forall k :: i <= k < |start| ==> displays[k] == start[k]
        invariant ctx.Valid() && ctx.descriptors.Keys == old(ctx.descriptors).Keys
        invariant SwapchainsKnown(start[..i], ctx.swapchains)
        invariant ctx.requests == log + Rebuilds(device, start[..i], ctx.swapchains, pipelineLayout, vertexShader, fragmentShader, len)
      {
        RebuildsStep(device, start, i, ctx.swapchains, pipelineLayout, vertexShader, fragmentShader, len);
        RefreshDisplay(ctx, i);
        i := i + 1;
      }
      assert start[..i] == start;
    }

    /** The first steps of the cascade: the bind-group layout for the current surface count, then the pipeline layout. */
    method UpdateLayouts(ctx: UpdateContext)
      requires Valid() && ctx.Valid()
      modifies ctx
      ensures ctx.Valid()
      ensures ctx.requests == old(ctx.requests) + LayoutRequests(device, |surfaceManager.stack|, bindGroupLayout, pipelineLayout)
    {
      var layoutDescriptor := PrepareBindGroupLayout(device, surfaceManager.Len());
      var _ := ctx.Update(bindGroupLayout.raw, BindGroupLayoutDesc(layoutDescriptor));
      var pipelineLayoutDescriptor := PreparePipelineLayout(device, bindGroupLayout);
      var _ := ctx.Update(pipelineLayout.raw, PipelineLayoutDesc(pipelineLayoutDescriptor));
    }

    /** The bind group re-described over the pool's views in stack order. */
    method UpdateBindGroup(ctx: UpdateContext)
      requires Valid() && ctx.Valid()
      modifies ctx
      ensures ctx.Valid()
      ensures ctx.requests == old(ctx.requests) + [Updated(bindGroup.raw, BindGroupDesc(
                PrepareBindGroup(device, surfaceManager.RectangleViews(), bindGroupLayout, sampler)))]
    {
      var bindGroupDescriptor := PrepareBindGroup(device, surfaceManager.RectangleViews(), bindGroupLayout, sampler);
      var _ := ctx.Update(bindGroup.raw, BindGroupDesc(bindGroupDescriptor));
    }

    /**
      `update_layout_and_bind_groups`: in this order, re-describes the
      bind-group layout for the current surface count, the pipeline layout
      from that layout, reindexes the pool, re-describes the bind group from
      the reindexed pool's views, refreshes the pipelines and re-describes the
      command buffer.  The stack is unchanged, and afterwards each surface's
      image index selects its own view in the bind group's texture array.
    */
    method UpdateLayoutAndBindGroups(ctx: UpdateContext)
      requires Valid() && ctx.Valid() && SwapchainsKnown(displays, ctx.swapchains)
      modifies this`displays, surfaceManager, ctx
      ensures Valid() && ctx.Valid()
      ensures surfaceManager.stack == old(surfaceManager.stack) && surfaceManager.idCounter == old(surfaceManager.idCounter)
      ensures surfaceManager.dataBuffer == Reindexed(old(surfaceManager.dataBuffer), surfaceManager.stack)
      ensures IndexConsistent(surfaceManager.stack, surfaceManager.dataBuffer)
      ensures ViewsSelected(surfaceManager.stack, surfaceManager.dataBuffer)
      ensures displays == Refreshed(old(displays), |surfaceManager.stack|)
      ensures ctx.requests == old(ctx.requests)
                + LayoutRequests(device, |surfaceManager.stack|, bindGroupLayout, pipelineLayout)
                + [Updated(bindGroup.raw, BindGroupDesc(PrepareBindGroup(device, surfaceManager.RectangleViews(), bindGroupLayout, sampler)))]
                + Rebuilds(device, old(displays), ctx.swapchains, pipelineLayout, vertexShader, fragmentShader, |surfaceManager.stack|)
                + [Updated(commandBuffer.raw, CommandBufferDesc(CommandBufferFor()))]
    {
      var len := surfaceManager.Len();
      UpdateLayouts(ctx);
      ghost var log1 := ctx.requests;
      surfaceManager.UpdateImageIndexes();
      assert ctx.requests == log1;
      var views := surfaceManager.RectangleViews();
      UpdateBindGroup(ctx);
      ghost var log := ctx.requests;
      assert log1 == old(ctx.requests) + LayoutRequests(device, len, bindGroupLayout, pipelineLayout);
      assert log == log1 + [Updated(bindGroup.raw, BindGroupDesc(PrepareBindGroup(device, views, bindGroupLayout, sampler)))];
      UpdateRenderPipeline(ctx);
      ghost var log2 := ctx.requests;
      UpdateCommandBuffer(ctx);
      assert ctx.requests == log2 + [Updated(commandBuffer.raw, CommandBufferDesc(CommandBufferFor()))];
    }

    /**
      The upload half of a tick: the pool's queued writes are committed, and
      when there were any the data-copy command buffer is re-described with
      the upload commands and becomes due.
    */
    method UploadData(ctx: UpdateContext)
      requires Valid() && ctx.Valid()
      modifies this`dataCopyCommandBufferUpdated, surfaceManager, ctx
      ensures Valid() && ctx.Valid()
      ensures surfaceManager.stack == old(surfaceManager.stack) && surfaceManager.idCounter == old(surfaceManager.idCounter)
      ensures surfaceManager.dataBuffer == Flush(old(surfaceManager.dataBuffer)).0
      ensures dataCopyCommandBufferUpdated == (old(dataCopyCommandBufferUpdated) || old(surfaceManager.dataBuffer.pending) != [])
      ensures ctx.requests == old(ctx.requests)
                + if old(surfaceManager.dataBuffer.pending) == [] then []
                  else [Updated(dataCopyCommandBuffer.raw, CommandBufferDesc(CommandBufferDescriptor(device,
                          TASK_NAME + " data copy command buffer", Flush(old(surfaceManager.dataBuffer)).1)))]
    {
      var commands := surfaceManager.Update();
      if commands != [] {
        var _ := ctx.Update(dataCopyCommandBuffer.raw,
                            CommandBufferDesc(CommandBufferDescriptor(device, TASK_NAME + " data copy command buffer", commands)));
        dataCopyCommandBufferUpdated := true;
      }
    }

    /**
      The end of a tick for this device (`elaborate_events`, per device):
      the cascade when the batch was structural, then the upload of the
      pool's queued writes; when there were any, the data-copy command buffer
      is re-described with the upload commands and becomes due.  Otherwise
      the due flag is left as it was.
    */
    method FinishTick(ctx: UpdateContext, structural: bool)
      requires Valid() && ctx.Valid() && SwapchainsKnown(displays, ctx.swapchains)
      modifies this`displays, this`dataCopyCommandBufferUpdated, surfaceManager, ctx
      ensures Valid() && ctx.Valid()
      ensures surfaceManager.stack == old(surfaceManager.stack) && surfaceManager.idCounter == old(surfaceManager.idCounter)
      ensures surfaceManager.dataBuffer.pending == []
      ensures structural ==> IndexConsistent(surfaceManager.stack, surfaceManager.dataBuffer)
      ensures !structural ==> displays == old(displays)
                                && forall id :: id in surfaceManager.stack ==>
                                     Instance(surfaceManager.dataBuffer, id) == Instance(old(surfaceManager.dataBuffer), id)
      ensures structural ==> displays == Refreshed(old(displays), |surfaceManager.stack|)
      ensures dataCopyCommandBufferUpdated ==
                (old(dataCopyCommandBufferUpdated) || old(surfaceManager.dataBuffer.pending) != []
                 || (structural && surfaceManager.stack != []))
    {
      if structural {
        UpdateLayoutAndBindGroups(ctx);
      }
      UploadData(ctx);
    }
  }
}
