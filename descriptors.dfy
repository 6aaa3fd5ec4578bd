/**
  The descriptor-shape functions of the current tree
  (`src/screen_task/prepare_descriptors/`): pure maps from the surface count,
  the texture views, the displays and the ids of already registered objects
  to the descriptors the compositor registers.  Where the source reads a
  surface pool, these take what they read from it (its length, its views,
  its buffer id).
*/
module Descriptors {
  import opened Wrappers
  import opened Engine
  import opened Surfaces
  import opened Displays

  const TASK_NAME: string := "ScreenTask"

  /** `size_of::<PushConstants>()`: one 4 x 4 matrix of `f32`. */
  const PUSH_CONSTANTS_SIZE: nat := 64

  /** `size_of::<Surface>()`: three `f32` of position, two of size, one `u32` image index. */
  const SURFACE_STRIDE: nat := 24

  /** The number of surfaces the depth range of the projection is divided into. */
  const MAX_SURFACE_COUNT: nat := 1024

  /** `vertex_attr_array![0 => Float32x3, 1 => Float32x2, 2 => Uint32]`, packed one after the other. */
  const SURFACE_ATTRIBUTES: seq<VertexAttribute> :=
    [VertexAttribute(Float32x3, 0, 0), VertexAttribute(Float32x2, 12, 1), VertexAttribute(Uint32, 20, 2)]

  function FormatSize(f: VertexFormat): nat
  {
    match f
    case Float32x3 => 12
    case Float32x2 => 8
    case Uint32 => 4
  }

  /**
    The per-instance vertex layout agrees with the `Surface` record: the
    attributes are consecutive, at shader locations 0, 1, 2, and together
    exactly fill one stride.
  */
  lemma SurfaceLayoutPacked()
    ensures SURFACE_ATTRIBUTES[0].offset == 0
    ensures forall i :: 0 <= i < |SURFACE_ATTRIBUTES| ==> SURFACE_ATTRIBUTES[i].shaderLocation == i
    ensures forall i :: 0 < i < |SURFACE_ATTRIBUTES| ==>
              SURFACE_ATTRIBUTES[i].offset == SURFACE_ATTRIBUTES[i - 1].offset + FormatSize(SURFACE_ATTRIBUTES[i - 1].format)
    ensures SURFACE_ATTRIBUTES[2].offset + FormatSize(SURFACE_ATTRIBUTES[2].format) == SURFACE_STRIDE
  {
  }

  /** The push-constant size rounded up to a multiple of 4 bytes. */
  function AlignedSize(s: nat): (r: nat)
    ensures r % 4 == 0 && s <= r < s + 4
    ensures s % 4 == 0 ==> r == s
  {
    ((s + 4 - 1) / 4) * 4
  }

  /** The sampler entry at binding 0 of the layout. */
  const SAMPLER_LAYOUT_ENTRY: BindGroupLayoutEntry :=
    BindGroupLayoutEntry(0, FRAGMENT, SamplerBinding(true, true), None)

  /** The texture-array entry at binding 1 for `len` surfaces; `len as u32` is truncated. */
  function TextureLayoutEntry(len: nat): BindGroupLayoutEntry
  {
    BindGroupLayoutEntry(1, FRAGMENT, TextureBinding(true, ViewD2, false), NonZero(len % U32_MODULUS))
  }

  /**
    `prepare_bind_group_layout`: a fragment-visible sampler at binding 0,
    and, only when there are surfaces, an array of `len` textures at
    binding 1, so that no empty array is ever declared.
  */
  function PrepareBindGroupLayout(device: DeviceId, len: nat): (r: BindGroupLayoutDescriptor)
    ensures r.device == device && r.name == TASK_NAME + " bind group layout"
    ensures |r.entries| == if len > 0 then 2 else 1
    ensures r.entries[0] == BindGroupLayoutEntry(0, FRAGMENT, SamplerBinding(true, true), None)
    ensures len > 0 ==> r.entries[1].binding == 1 && r.entries[1].visibility == FRAGMENT
                        && r.entries[1].ty == TextureBinding(true, ViewD2, false)
    ensures 0 < len < U32_MODULUS ==> r.entries[1].count == Some(len)
    ensures forall e :: e in r.entries ==> e.count != Some(0)
  {
    var entries := [SAMPLER_LAYOUT_ENTRY] + (if len > 0 then [TextureLayoutEntry(len)] else []);
    BindGroupLayoutDescriptor(device, TASK_NAME + " bind group layout", entries)
  }

  /**
    `prepare_bind_group`: the sampler at binding 0 and, only when there are
    views, the views in the order given at binding 1.
  */
  function PrepareBindGroup(device: DeviceId, views: seq<TextureViewId>, layout: BindGroupLayoutId, sampler: SamplerId)
    : (r: BindGroupDescriptor)
    ensures r.device == device && r.name == TASK_NAME + " bind group" && r.layout == layout
    ensures |r.entries| == if |views| > 0 then 2 else 1
    ensures r.entries[0] == BindGroupEntry(0, SamplerResource(sampler))
    ensures |views| > 0 ==> r.entries[1] == BindGroupEntry(1, TextureViewArray(views))
  {
    var entries := [BindGroupEntry(0, SamplerResource(sampler))]
                   + (if |views| > 0 then [BindGroupEntry(1, TextureViewArray(views))] else []);
    BindGroupDescriptor(device, TASK_NAME + " bind group", entries, layout)
  }

  /**
    The bind group built from a pool's views fits the layout built from the
    same pool's length: the same bindings in the same order, and as many
    views as the layout's texture-array count.
  */
  lemma BindGroupFitsLayout(device: DeviceId, views: seq<TextureViewId>, layout: BindGroupLayoutId, sampler: SamplerId)
    requires |views| < U32_MODULUS
    ensures var g := PrepareBindGroup(device, views, layout, sampler);
            var l := PrepareBindGroupLayout(device, |views|);
            && |g.entries| == |l.entries|
            && (forall i :: 0 <= i < |g.entries| ==> g.entries[i].binding == l.entries[i].binding)
            && (|views| > 0 ==> l.entries[1].count == Some(|g.entries[1].resource.views|))
  {
  }

  /**
    `prepare_pipeline_layout`: exactly the given bind-group layout and one
    vertex-stage push-constant range covering the aligned push constants.
  */
  function PreparePipelineLayout(device: DeviceId, bindGroupLayout: BindGroupLayoutId): (r: PipelineLayoutDescriptor)
    ensures r.device == device && r.name == TASK_NAME + " pipeline layout"
    ensures r.bindGroupLayouts == [bindGroupLayout]
    ensures |r.pushConstantRanges| == 1 && r.pushConstantRanges[0].stages == VERTEX
    ensures r.pushConstantRanges[0].start == 0
    ensures r.pushConstantRanges[0].end == AlignedSize(PUSH_CONSTANTS_SIZE) == PUSH_CONSTANTS_SIZE
  {
    PipelineLayoutDescriptor(device, TASK_NAME + " pipeline layout", [bindGroupLayout],
                             [PushConstantRange(VERTEX, 0, AlignedSize(PUSH_CONSTANTS_SIZE))])
  }

  /** The single per-instance vertex buffer of `Surface` records. */
  const SURFACE_BUFFER_LAYOUT: VertexBufferLayout := VertexBufferLayout(SURFACE_STRIDE, PerInstance, SURFACE_ATTRIBUTES)

  /**
    `prepare_render_pipeline`: the pipeline drawing onto a display whose
    swapchain has `format`.  It is ready exactly when there are surfaces,
    and only a ready pipeline has a fragment stage.
  */
  function PrepareRenderPipeline(device: DeviceId, display: Display, format: TextureFormat, layout: PipelineLayoutId,
                                 vertexShader: ShaderModuleId, fragmentShader: ShaderModuleId, len: nat)
    : (r: (RenderPipelineDescriptor, bool))
    ensures r.1 == (len > 0)
    ensures r.0.fragment.Some? <==> r.1
    ensures r.0.fragment.Some? ==> r.0.fragment.value == FragmentState(fragmentShader, "main", [ColorTargetState(format, false, true)])
    ensures r.0.device == device && r.0.name == TASK_NAME + " render pipeline" && r.0.layout == Some(layout)
    ensures r.0.vertex == VertexState(vertexShader, "main", [SURFACE_BUFFER_LAYOUT])
    ensures r.0.topology == TriangleStrip
    ensures r.0.depthStencil == Some(DepthStencilState(display.depthStencilView, true, Less))
  {
    var ready := len > 0;
    var fragment := if ready then Some(FragmentState(fragmentShader, "main", [ColorTargetState(format, false, true)])) else None;
    var descriptor := RenderPipelineDescriptor(device, TASK_NAME + " render pipeline", Some(layout),
                                               VertexState(vertexShader, "main", [SURFACE_BUFFER_LAYOUT]), TriangleStrip,
                                               Some(DepthStencilState(display.depthStencilView, true, Less)), fragment);
    (descriptor, ready)
  }

  /**
    The draw commands of one display's pass: none without surfaces,
    otherwise its own pipeline, its projection, the shared bind group and
    instance buffer, and one quad per surface (`len as u32` is truncated).
  */
  function DrawCommands(dr: DisplayResources, bindGroup: BindGroupId, buffer: BufferId, len: nat): (r: seq<RenderCommand>)
    ensures len == 0 ==> r == []
    ensures len > 0 ==> && |r| == 5
                        && r[0] == SetPipeline(dr.renderPipeline)
                        && r[1] == SetPushConstants(VERTEX, 0, Projection(dr.display.size.width, dr.display.size.height, MAX_SURFACE_COUNT))
                        && r[2] == SetBindGroup(0, bindGroup, [])
                        && r[3] == SetVertexBuffer(0, buffer)
                        && r[4] == Draw(Range(0, 4), Range(0, len % U32_MODULUS))
  {
    if len > 0 then
      [SetPipeline(dr.renderPipeline),
       SetPushConstants(VERTEX, 0, Projection(dr.display.size.width, dr.display.size.height, MAX_SURFACE_COUNT)),
       SetBindGroup(0, bindGroup, []),
       SetVertexBuffer(0, buffer),
       Draw(Range(0, 4), Range(0, len % U32_MODULUS))]
    else []
  }

  /** The pass of one display: its depth view, loading and storing its swapchain image. */
  function DisplayPass(dr: DisplayResources, commands: seq<RenderCommand>): Command
  {
    RenderPass(TASK_NAME, Some(dr.display.depthStencilView),
               [RenderPassColorAttachment(SwapchainView(dr.display.swapchain), None, Load, true)], commands)
  }

  /** The render passes of `displays`, one per display, in display order. */
  function RenderPasses(displays: seq<DisplayResources>, bindGroup: BindGroupId, buffer: BufferId, len: nat)
    : (r: seq<Command>)
    ensures |r| == |displays|
    ensures forall i :: 0 <= i < |displays| ==>
              r[i] == DisplayPass(displays[i], DrawCommands(displays[i], bindGroup, buffer, len))
  {
    if displays == [] then []
    else [DisplayPass(displays[0], DrawCommands(displays[0], bindGroup, buffer, len))]
         + RenderPasses(displays[1..], bindGroup, buffer, len)
  }

  /** `prepare_command_buffer`: one pass per display, drawing every surface when there are any. */
  function PrepareCommandBuffer(device: DeviceId, displays: seq<DisplayResources>, bindGroup: BindGroupId,
                                buffer: BufferId, len: nat): (r: CommandBufferDescriptor)
    ensures r.device == device && r.name == TASK_NAME + " command buffer"
    ensures |r.commands| == |displays|
    ensures forall i :: 0 <= i < |displays| ==>
              && r.commands[i].RenderPass?
              && r.commands[i].name == TASK_NAME
              && r.commands[i].depthStencil == Some(displays[i].display.depthStencilView)
              && r.commands[i].colorAttachments
                   == [RenderPassColorAttachment(SwapchainView(displays[i].display.swapchain), None, Load, true)]
              && r.commands[i].commands == DrawCommands(displays[i], bindGroup, buffer, len)
  {
    CommandBufferDescriptor(device, TASK_NAME + " command buffer", RenderPasses(displays, bindGroup, buffer, len))
  }

  /**
    The three descriptors agree on whether there is anything to draw: the
    pipeline is ready exactly when the layout declares a texture array and
    exactly when the command buffer issues draw commands.
  */
  lemma ReadinessAgrees(device: DeviceId, dr: DisplayResources, format: TextureFormat, layout: PipelineLayoutId,
                        vs: ShaderModuleId, fs: ShaderModuleId, bindGroup: BindGroupId, buffer: BufferId, len: nat)
    ensures PrepareRenderPipeline(device, dr.display, format, layout, vs, fs, len).1
            <==> |PrepareBindGroupLayout(device, len).entries| == 2
    ensures PrepareRenderPipeline(device, dr.display, format, layout, vs, fs, len).1
            <==> DrawCommands(dr, bindGroup, buffer, len) != []
  {
  }
}
