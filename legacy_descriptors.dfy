/**
  The descriptor-shape functions of the older tree (`src/prepare_descriptors/`).
  The pipeline layout is the same function as the current tree's
  (`Descriptors.PreparePipelineLayout`, see `LegacyPipelineLayoutIsCurrent`);
  the render pipeline always has a fragment stage and tests depth with
  `LessEqual` without writing it; the command buffer always issues the five
  draw commands, whatever the surface count.
*/
module LegacyDescriptors {
  import opened Wrappers
  import opened Engine
  import opened Surfaces
  import opened Displays
  import opened Descriptors

  /** The older `DisplayResources`: a display and its render pipeline, without a readiness flag. */
  datatype LegacyDisplayResources = LegacyDisplayResources(display: Display, renderPipeline: RenderPipelineId)

  /** The current tree's view of an older display: the same display and pipeline, with the given readiness. */
  function AsCurrent(dr: LegacyDisplayResources, ready: bool): DisplayResources
  {
    DisplayResources(dr.display, ready, dr.renderPipeline)
  }

  /**
    The older `prepare_pipeline_layout` (`src/prepare_descriptors/pipeline_layout.rs`)
    computes the same descriptor as the current one: one bind-group layout
    and one vertex-stage range `0..aligned_size`, with the aligned size a
    multiple of 4 within 3 bytes above the push-constant size.
  */
  lemma LegacyPipelineLayoutIsCurrent(device: DeviceId, bindGroupLayout: BindGroupLayoutId)
    ensures var r := PreparePipelineLayout(device, bindGroupLayout);
            && r == PipelineLayoutDescriptor(device, TASK_NAME + " pipeline layout", [bindGroupLayout],
                                             [PushConstantRange(VERTEX, 0, AlignedSize(PUSH_CONSTANTS_SIZE))])
            && r.pushConstantRanges[0].end % 4 == 0
            && PUSH_CONSTANTS_SIZE <= r.pushConstantRanges[0].end < PUSH_CONSTANTS_SIZE + 4
  {
  }

  /**
    The older `prepare_render_pipeline`: drawn onto a display whose
    swapchain has `format`, always with a fragment stage, and with depth
    tested `LessEqual` against the display's depth view but not written.
  */
  function LegacyPrepareRenderPipeline(device: DeviceId, display: Display, format: TextureFormat, layout: PipelineLayoutId,
                                       vertexShader: ShaderModuleId, fragmentShader: ShaderModuleId)
    : (r: RenderPipelineDescriptor)
    ensures r.device == device && r.name == TASK_NAME + " render pipeline" && r.layout == Some(layout)
    ensures r.vertex == VertexState(vertexShader, "main", [SURFACE_BUFFER_LAYOUT]) && r.topology == TriangleStrip
    ensures r.depthStencil == Some(DepthStencilState(display.depthStencilView, false, LessEqual))
    ensures r.fragment == Some(FragmentState(fragmentShader, "main", [ColorTargetState(format, false, true)]))
  {
    RenderPipelineDescriptor(device, TASK_NAME + " render pipeline", Some(layout),
                             VertexState(vertexShader, "main", [SURFACE_BUFFER_LAYOUT]), TriangleStrip,
                             Some(DepthStencilState(display.depthStencilView, false, LessEqual)),
                             Some(FragmentState(fragmentShader, "main", [ColorTargetState(format, false, true)])))
  }

  /**
    The two trees' pipelines differ in exactly two places: the current one
    writes depth and tests `Less`, and drops the fragment stage when there is
    nothing to draw.  With surfaces, that is the only difference.
  */
  lemma RenderPipelinesCompared(device: DeviceId, display: Display, format: TextureFormat, layout: PipelineLayoutId,
                                vs: ShaderModuleId, fs: ShaderModuleId, len: nat)
    ensures var older := LegacyPrepareRenderPipeline(device, display, format, layout, vs, fs);
            var current := PrepareRenderPipeline(device, display, format, layout, vs, fs, len).0;
            current == older.(depthStencil := Some(DepthStencilState(display.depthStencilView, true, Less)),
                              fragment := if len > 0 then older.fragment else None)
  {
  }

  /**
    The older draw commands of one display's pass: always its own pipeline,
    its projection, the shared bind group and instance buffer, and a draw of
    one quad per surface (`len as u32` is truncated), even with no surfaces.
  */
  function LegacyDrawCommands(dr: LegacyDisplayResources, bindGroup: BindGroupId, buffer: BufferId, len: nat)
    : (r: seq<RenderCommand>)
    ensures |r| == 5
    ensures r[0] == SetPipeline(dr.renderPipeline)
    ensures r[1] == SetPushConstants(VERTEX, 0, Projection(dr.display.size.width, dr.display.size.height, MAX_SURFACE_COUNT))
    ensures r[2] == SetBindGroup(0, bindGroup, []) && r[3] == SetVertexBuffer(0, buffer)
    ensures r[4] == Draw(Range(0, 4), Range(0, len % U32_MODULUS))
  {
    [SetPipeline(dr.renderPipeline),
     SetPushConstants(VERTEX, 0, Projection(dr.display.size.width, dr.display.size.height, MAX_SURFACE_COUNT)),
     SetBindGroup(0, bindGroup, []),
     SetVertexBuffer(0, buffer),
     Draw(Range(0, 4), Range(0, len % U32_MODULUS))]
  }

  /**
    With surfaces the two trees issue the same commands; without, the older
    one still issues all five, ending in a draw of no instances, where the
    current one issues none.
  */
  lemma DrawCommandsCompared(dr: LegacyDisplayResources, ready: bool, bindGroup: BindGroupId, buffer: BufferId, len: nat)
    ensures len > 0 ==> LegacyDrawCommands(dr, bindGroup, buffer, len) == DrawCommands(AsCurrent(dr, ready), bindGroup, buffer, len)
    ensures len == 0 ==> DrawCommands(AsCurrent(dr, ready), bindGroup, buffer, len) == []
                         && LegacyDrawCommands(dr, bindGroup, buffer, len)[4] == Draw(Range(0, 4), Range(0, 0))
  {
  }

  /** The older render passes, one per display, in display order. */
  function LegacyRenderPasses(displays: seq<LegacyDisplayResources>, bindGroup: BindGroupId, buffer: BufferId, len: nat)
    : (r: seq<Command>)
    ensures |r| == |displays|
    ensures forall i :: 0 <= i < |displays| ==>
              r[i] == DisplayPass(AsCurrent(displays[i], true), LegacyDrawCommands(displays[i], bindGroup, buffer, len))
  {
    if displays == [] then []
    else [DisplayPass(AsCurrent(displays[0], true), LegacyDrawCommands(displays[0], bindGroup, buffer, len))]
         + LegacyRenderPasses(displays[1..], bindGroup, buffer, len)
  }

  /**
    The older `prepare_command_buffer`: one pass per display, on the
    display's depth view and swapchain image (loaded and stored), each with
    the five draw commands.
  */
  function LegacyPrepareCommandBuffer(device: DeviceId, displays: seq<LegacyDisplayResources>, bindGroup: BindGroupId,
                                      buffer: BufferId, len: nat): (r: CommandBufferDescriptor)
    ensures r.device == device && r.name == TASK_NAME + " command buffer"
    ensures |r.commands| == |displays|
    ensures forall i :: 0 <= i < |displays| ==>
              && r.commands[i].RenderPass?
              && r.commands[i].name == TASK_NAME
              && r.commands[i].depthStencil == Some(displays[i].display.depthStencilView)
              && r.commands[i].colorAttachments
                   == [RenderPassColorAttachment(SwapchainView(displays[i].display.swapchain), None, Load, true)]
              && r.commands[i].commands == LegacyDrawCommands(displays[i], bindGroup, buffer, len)
  {
    CommandBufferDescriptor(device, TASK_NAME + " command buffer", LegacyRenderPasses(displays, bindGroup, buffer, len))
  }

  /** The current tree's view of older displays, all with the given readiness. */
  function AllAsCurrent(displays: seq<LegacyDisplayResources>, ready: bool): (r: seq<DisplayResources>)
    ensures |r| == |displays| && forall i :: 0 <= i < |displays| ==> r[i] == AsCurrent(displays[i], ready)
  {
    seq(|displays|, i requires 0 <= i < |displays| => AsCurrent(displays[i], ready))
  }

  /** With surfaces, the two trees record the same command buffer for the same displays. */
  lemma CommandBuffersCompared(device: DeviceId, displays: seq<LegacyDisplayResources>, bindGroup: BindGroupId,
                               buffer: BufferId, len: nat)
    requires len > 0
    ensures LegacyPrepareCommandBuffer(device, displays, bindGroup, buffer, len)
            == PrepareCommandBuffer(device, AllAsCurrent(displays, true), bindGroup, buffer, len)
  {
    var older := LegacyPrepareCommandBuffer(device, displays, bindGroup, buffer, len);
    var current := PrepareCommandBuffer(device, AllAsCurrent(displays, true), bindGroup, buffer, len);
    forall i | 0 <= i < |displays| ensures older.commands[i] == current.commands[i] {
      DrawCommandsCompared(displays[i], true, bindGroup, buffer, len);
    }
  }
}
