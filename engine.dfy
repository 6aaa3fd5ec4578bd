/**
  The rendering-engine collaborator (`wgpu_engine`), seen only through the
  interface the compositor uses: opaque handles, the descriptor records the
  compositor builds, and an `UpdateContext` that registers, replaces and
  removes descriptors.  The context records every request it receives, in
  order, so that the order in which the compositor talks to the engine can be
  stated.  What the engine later does with a descriptor (compiling it into a
  live GPU object, submitting command buffers) is not part of this model.
*/
module Engine {
  import opened Wrappers

  // ---------------------------------------------------------------------
  // Opaque handles.  The engine allocates them; the compositor only stores,
  // compares and passes them on.

  datatype DeviceId = DeviceId(raw: nat)
  datatype SwapchainId = SwapchainId(raw: nat)
  datatype TextureId = TextureId(raw: nat)
  datatype TextureViewId = TextureViewId(raw: nat)
  datatype BufferId = BufferId(raw: nat)
  datatype SamplerId = SamplerId(raw: nat)
  datatype ShaderModuleId = ShaderModuleId(raw: nat)
  datatype BindGroupLayoutId = BindGroupLayoutId(raw: nat)
  datatype BindGroupId = BindGroupId(raw: nat)
  datatype PipelineLayoutId = PipelineLayoutId(raw: nat)
  datatype RenderPipelineId = RenderPipelineId(raw: nat)
  datatype CommandBufferId = CommandBufferId(raw: nat)

  type byte = x: int | 0 <= x < 256

  /** Values of Rust's `u32` lie below this bound; `u32` products wrap modulo it. */
  const U32_MODULUS: int := 0x1_0000_0000

  /** `std::num::NonZeroU32::new`: `None` for zero. */
  function NonZero(x: nat): (r: Option<nat>)
    ensures r.None? <==> x == 0
    ensures r.Some? ==> r.value == x
  {
    if x == 0 then None else Some(x)
  }

  // ---------------------------------------------------------------------
  // Textures and views.

  datatype TextureFormat =
    | Rgba8UnormSrgb
    | Bgra8UnormSrgb
    | Depth32Float
    | Depth24Plus
    | OtherFormat(code: nat, blockBytes: nat)

  /** Bytes per texel, `format.describe().block_size` in the engine. */
  function BlockSize(format: TextureFormat): nat
  {
    match format
    case OtherFormat(_, b) => b
    case _ => 4
  }

  datatype Extent3d = Extent3d(width: nat, height: nat, depthOrArrayLayers: nat)

  datatype Origin3d = Origin3d(x: nat, y: nat, z: nat)

  const ORIGIN_ZERO: Origin3d := Origin3d(0, 0, 0)

  datatype TextureDimension = D1 | D2 | D3

  datatype TextureViewDimension = ViewD1 | ViewD2 | ViewD2Array | ViewD3

  datatype TextureAspect = All | StencilOnly | DepthOnly

  /** The texture usage bit set, one flag per bit the compositor uses. */
  datatype TextureUsage = TextureUsage(sampled: bool, copyDst: bool, renderAttachment: bool)

  const SAMPLED_COPY_DST: TextureUsage := TextureUsage(true, true, false)
  const RENDER_ATTACHMENT: TextureUsage := TextureUsage(false, false, true)

  /** One plane of an imported DMA buffer; `slice` is `sliceStart..sliceEnd`. */
  datatype PlaneLayout = PlaneLayout(sliceStart: nat, sliceEnd: nat, rowPitch: nat, arrayPitch: nat, depthPitch: nat)

  datatype DrmFormatImageProperties = DrmFormatImageProperties(drmModifier: nat, planeLayouts: seq<PlaneLayout>)

  /** Where the texture memory comes from: allocated by the engine, or imported. */
  datatype TextureSource =
    | Local
    | DmaBuf(fd: int, drmProperties: Option<DrmFormatImageProperties>, offset: nat)

  datatype TextureDescriptor = TextureDescriptor(
    device: DeviceId,
    name: string,
    source: TextureSource,
    size: Extent3d,
    mipLevelCount: nat,
    sampleCount: nat,
    dimension: TextureDimension,
    format: TextureFormat,
    usage: TextureUsage)

  datatype TextureViewDescriptor = TextureViewDescriptor(
    device: DeviceId,
    name: string,
    texture: TextureId,
    format: TextureFormat,
    dimension: TextureViewDimension,
    aspect: TextureAspect,
    baseMipLevel: nat,
    mipLevelCount: Option<nat>,
    baseArrayLayer: nat,
    arrayLayerCount: Option<nat>)

  datatype ImageDataLayout = ImageDataLayout(offset: nat, bytesPerRow: Option<nat>, rowsPerImage: Option<nat>)

  datatype TextureWrite = TextureWrite(
    texture: TextureId,
    mipLevel: nat,
    origin: Origin3d,
    data: seq<byte>,
    layout: ImageDataLayout,
    size: Extent3d)

  /** A raw data upload scheduled with the engine. */
  datatype ResourceWrite = TextureUpload(write: TextureWrite)

  // ---------------------------------------------------------------------
  // Bind groups, layouts and pipelines.

  /** A shader stage bit set. */
  datatype ShaderStage = ShaderStage(vertex: bool, fragment: bool)

  const VERTEX: ShaderStage := ShaderStage(true, false)
  const FRAGMENT: ShaderStage := ShaderStage(false, true)

  datatype BindingType =
    | SamplerBinding(comparison: bool, filtering: bool)
    | TextureBinding(filterableFloat: bool, viewDimension: TextureViewDimension, multisampled: bool)

  datatype BindGroupLayoutEntry = BindGroupLayoutEntry(binding: nat, visibility: ShaderStage, ty: BindingType, count: Option<nat>)

  datatype BindGroupLayoutDescriptor = BindGroupLayoutDescriptor(device: DeviceId, name: string, entries: seq<BindGroupLayoutEntry>)

  datatype BindingResource =
    | SamplerResource(sampler: SamplerId)
    | TextureViewArray(views: seq<TextureViewId>)

  datatype BindGroupEntry = BindGroupEntry(binding: nat, resource: BindingResource)

  datatype BindGroupDescriptor = BindGroupDescriptor(device: DeviceId, name: string, entries: seq<BindGroupEntry>, layout: BindGroupLayoutId)

  /** A push-constant range `start..end` visible to `stages`. */
  datatype PushConstantRange = PushConstantRange(stages: ShaderStage, start: nat, end: nat)

  datatype PipelineLayoutDescriptor = PipelineLayoutDescriptor(
    device: DeviceId,
    name: string,
    bindGroupLayouts: seq<BindGroupLayoutId>,
    pushConstantRanges: seq<PushConstantRange>)

  datatype VertexFormat = Float32x3 | Float32x2 | Uint32

  datatype VertexAttribute = VertexAttribute(format: VertexFormat, offset: nat, shaderLocation: nat)

  datatype InputStepMode = PerVertex | PerInstance

  datatype VertexBufferLayout = VertexBufferLayout(arrayStride: nat, stepMode: InputStepMode, attributes: seq<VertexAttribute>)

  datatype VertexState = VertexState(shaderModule: ShaderModuleId, entryPoint: string, buffers: seq<VertexBufferLayout>)

  datatype PrimitiveTopology = TriangleList | TriangleStrip

  datatype CompareFunction = Less | LessEqual | Always

  datatype DepthStencilState = DepthStencilState(view: TextureViewId, depthWriteEnabled: bool, depthCompare: CompareFunction)

  /** A colour target: no blending, every channel written, as the compositor always asks. */
  datatype ColorTargetState = ColorTargetState(format: TextureFormat, blending: bool, writeAll: bool)

  datatype FragmentState = FragmentState(shaderModule: ShaderModuleId, entryPoint: string, targets: seq<ColorTargetState>)

  datatype RenderPipelineDescriptor = RenderPipelineDescriptor(
    device: DeviceId,
    name: string,
    layout: Option<PipelineLayoutId>,
    vertex: VertexState,
    topology: PrimitiveTopology,
    depthStencil: Option<DepthStencilState>,
    fragment: Option<FragmentState>)

  // ---------------------------------------------------------------------
  // Command buffers.

  datatype Range = Range(start: nat, end: nat)

  /**
    The push-constant payload of a draw: the orthographic projection for a
    display of the given size, with depth scaled by `maxSurfaceCount`.  The
    matrix itself (floating point) is kept symbolic.
  */
  datatype PushConstants = Projection(targetWidth: nat, targetHeight: nat, maxSurfaceCount: nat)

  datatype RenderCommand =
    | SetPipeline(pipeline: RenderPipelineId)
    | SetPushConstants(stages: ShaderStage, offset: nat, data: PushConstants)
    | SetBindGroup(index: nat, bindGroup: BindGroupId, offsets: seq<nat>)
    | SetVertexBuffer(slot: nat, buffer: BufferId)
    | Draw(vertices: Range, instances: Range)

  datatype ColorView = SwapchainView(swapchain: SwapchainId)

  datatype LoadOp = Load | Clear

  datatype RenderPassColorAttachment = RenderPassColorAttachment(
    view: ColorView,
    resolveTarget: Option<TextureViewId>,
    load: LoadOp,
    store: bool)

  datatype Command =
    | RenderPass(
        name: string,
        depthStencil: Option<TextureViewId>,
        colorAttachments: seq<RenderPassColorAttachment>,
        commands: seq<RenderCommand>)
    | BufferUpload(buffer: BufferId, writeCount: nat)

  datatype CommandBufferDescriptor = CommandBufferDescriptor(device: DeviceId, name: string, commands: seq<Command>)

  // ---------------------------------------------------------------------
  // Other descriptors; their contents (shader code, sampler constants) are
  // kept abstract.

  datatype ShaderModuleDescriptor = ShaderModuleDescriptor(device: DeviceId, name: string)

  datatype SamplerDescriptor = SamplerDescriptor(device: DeviceId, name: string)

  datatype BufferDescriptor = BufferDescriptor(device: DeviceId, name: string, initialCapacity: nat, vertexUsage: bool)

  datatype SwapchainDescriptor = SwapchainDescriptor(width: nat, height: nat, format: TextureFormat)

  /** Everything the compositor registers with the engine. */
  datatype Descriptor =
    | TextureDesc(texture: TextureDescriptor)
    | TextureViewDesc(view: TextureViewDescriptor)
    | BindGroupLayoutDesc(bindGroupLayout: BindGroupLayoutDescriptor)
    | BindGroupDesc(bindGroup: BindGroupDescriptor)
    | PipelineLayoutDesc(pipelineLayout: PipelineLayoutDescriptor)
    | RenderPipelineDesc(renderPipeline: RenderPipelineDescriptor)
    | CommandBufferDesc(commandBuffer: CommandBufferDescriptor)
    | ShaderModuleDesc(shaderModule: ShaderModuleDescriptor)
    | SamplerDesc(sampler: SamplerDescriptor)
    | BufferDesc(buffer: BufferDescriptor)

  /** One call the compositor made on the context. */
  datatype Request =
    | Added(id: nat, descriptor: Descriptor)
    | Updated(id: nat, descriptor: Descriptor)
    | Removed(id: nat)
    | Written(write: ResourceWrite)

  /** Display notifications the windowing layer reports through the context. */
  datatype ResourceEvent =
    | SwapchainCreated(externalId: nat, swapchain: SwapchainId)
    | SwapchainDestroyed(swapchain: SwapchainId)
    | SwapchainUpdated(swapchain: SwapchainId)

  /**
    The engine's update context during one tick.  The swapchain table, the
    swapchain-to-device association and the event list are what the windowing
    layer reported for this tick and do not change during it.
  */
  class UpdateContext {
    var descriptors: map<nat, Descriptor>
    var nextId: nat
    var requests: seq<Request>
    const swapchains: map<SwapchainId, SwapchainDescriptor>
    const swapchainDevices: map<SwapchainId, DeviceId>
    const events: seq<ResourceEvent>

    /** Every registered id was issued before `nextId`, so new ids are fresh. */
    ghost predicate Valid()
      reads this
    {
      forall id :: id in descriptors ==> id < nextId
    }

    constructor (swapchains: map<SwapchainId, SwapchainDescriptor>,
                 swapchainDevices: map<SwapchainId, DeviceId>,
                 events: seq<ResourceEvent>)
      ensures Valid()
      ensures descriptors == map[] && requests == []
      ensures this.swapchains == swapchains && this.swapchainDevices == swapchainDevices
      ensures this.events == events
    {
      this.descriptors := map[];
      this.nextId := 0;
      this.requests := [];
      this.swapchains := swapchains;
      this.swapchainDevices := swapchainDevices;
      this.events := events;
    }

    /** `add_*_descriptor`: registers `d` under a fresh id. */
    method Add(d: Descriptor) returns (id: nat)
      requires Valid()
      modifies this
      ensures Valid()
      ensures id !in old(descriptors) && descriptors == old(descriptors)[id := d]
      ensures requests == old(requests) + [Added(id, d)]
    {
      id := nextId;
      nextId := nextId + 1;
      descriptors := descriptors[id := d];
      requests := requests + [Added(id, d)];
    }

    /** `update_*_descriptor`: replaces the descriptor of a registered id; false if unknown. */
    method Update(id: nat, d: Descriptor) returns (ok: bool)
      requires Valid()
      modifies this
      ensures Valid()
      ensures ok == (id in old(descriptors))
      ensures descriptors == if ok then old(descriptors)[id := d] else old(descriptors)
      ensures requests == old(requests) + [Updated(id, d)]
    {
      ok := id in descriptors;
      if ok {
        descriptors := descriptors[id := d];
      }
      requests := requests + [Updated(id, d)];
    }

    /** `remove_*`: forgets a registered id; false if unknown. */
    method Remove(id: nat) returns (ok: bool)
      requires Valid()
      modifies this
      ensures Valid()
      ensures ok == (id in old(descriptors))
      ensures descriptors == old(descriptors) - {id}
      ensures requests == old(requests) + [Removed(id)]
    {
      ok := id in descriptors;
      descriptors := descriptors - {id};
      requests := requests + [Removed(id)];
    }

    /** `write_resource`: schedules a raw upload. */
    method WriteResource(w: ResourceWrite)
      requires Valid()
      modifies this
      ensures Valid()
      ensures descriptors == old(descriptors)
      ensures requests == old(requests) + [Written(w)]
    {
      requests := requests + [Written(w)];
    }

    /** `texture_descriptor_ref`. */
    function TextureDescriptorOf(id: TextureId): (r: Option<TextureDescriptor>)
      reads this
      ensures r.Some? <==> id.raw in descriptors && descriptors[id.raw].TextureDesc?
      ensures r.Some? ==> descriptors[id.raw] == TextureDesc(r.value)
    {
      if id.raw in descriptors && descriptors[id.raw].TextureDesc? then Some(descriptors[id.raw].texture) else None
    }
  }
}
