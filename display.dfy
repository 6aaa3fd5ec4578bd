/**
  A display (`Display`): one swapchain of a device, with the depth texture and
  depth view the compositor renders it with, and the last known size of the
  swapchain.  The depth format is the crate-wide `DEPTH_STENCIL_FORMAT`, which
  the two trees of the repository define differently; it is a parameter here.
*/
module Displays {
  import opened Wrappers
  import opened Engine
  import opened Surfaces

  /** `[u32; 2]`: where a display sits on the output. */
  datatype Point = Point(x: nat, y: nat)

  datatype Display = Display(
    device: DeviceId,
    swapchain: SwapchainId,
    depthStencil: TextureId,
    depthStencilView: TextureViewId,
    position: Point,
    size: Size)

  /** The depth texture of a `width` x `height` swapchain: one layer, one mip, render attachment. */
  function DepthTexture(device: DeviceId, width: nat, height: nat, format: TextureFormat): (r: TextureDescriptor)
    ensures r.device == device && r.name == "DepthStencil" && r.source == Local
    ensures r.size == Extent3d(width, height, 1) && r.format == format
    ensures r.mipLevelCount == 1 && r.sampleCount == 1 && r.dimension == D2 && r.usage == RENDER_ATTACHMENT
  {
    TextureDescriptor(device, "DepthStencil", Local, Extent3d(width, height, 1), 1, 1, D2, format, RENDER_ATTACHMENT)
  }

  /** The depth view: the depth aspect of exactly one mip level and one layer. */
  function DepthView(device: DeviceId, name: string, texture: TextureId, format: TextureFormat): (r: TextureViewDescriptor)
    ensures r.device == device && r.name == name && r.texture == texture && r.format == format
    ensures r.dimension == ViewD2 && r.aspect == DepthOnly
    ensures r.baseMipLevel == 0 && r.mipLevelCount == Some(1) && r.baseArrayLayer == 0 && r.arrayLayerCount == Some(1)
  {
    TextureViewDescriptor(device, name, texture, format, ViewD2, DepthOnly, 0, Some(1), 0, Some(1))
  }

  /** The depth texture and view a swapchain of the given size needs, as registry entries. */
  function DepthDescriptors(device: DeviceId, sc: SwapchainDescriptor, texture: TextureId, viewName: string,
                            format: TextureFormat): (Descriptor, Descriptor)
  {
    (TextureDesc(DepthTexture(device, sc.width, sc.height, format)),
     TextureViewDesc(DepthView(device, viewName, texture, format)))
  }

  /**
    `Display::new`: registers a depth texture as large as the swapchain and
    a view of it, and remembers the swapchain's current size.  The swapchain
    must be known to the context (the source unwraps its descriptor).
  */
  method NewDisplay(ctx: UpdateContext, device: DeviceId, swapchain: SwapchainId, position: Point,
                    depthFormat: TextureFormat) returns (d: Display)
    requires ctx.Valid() && swapchain in ctx.swapchains
    modifies ctx
    ensures ctx.Valid()
    ensures d.device == device && d.swapchain == swapchain && d.position == position
    ensures d.size == Size(ctx.swapchains[swapchain].width, ctx.swapchains[swapchain].height)
    ensures d.depthStencil.raw !in old(ctx.descriptors) && d.depthStencilView.raw !in old(ctx.descriptors)
    ensures d.depthStencil.raw != d.depthStencilView.raw
    ensures var (t, v) := DepthDescriptors(device, ctx.swapchains[swapchain], d.depthStencil, "DepthStencil view", depthFormat);
            && ctx.descriptors == old(ctx.descriptors)[d.depthStencil.raw := t][d.depthStencilView.raw := v]
            && ctx.requests == old(ctx.requests) + [Added(d.depthStencil.raw, t), Added(d.depthStencilView.raw, v)]
  {
    var sc := ctx.swapchains[swapchain];
    var t := ctx.Add(TextureDesc(DepthTexture(device, sc.width, sc.height, depthFormat)));
    var v := ctx.Add(TextureViewDesc(DepthView(device, "DepthStencil view", TextureId(t), depthFormat)));
    d := Display(device, swapchain, TextureId(t), TextureViewId(v), position, Size(sc.width, sc.height));
  }

  /**
    `Display::update`: takes the swapchain's current size and re-describes
    the depth texture and view to match (the view is re-described under the
    name "DepthStencil").  Both the texture and the view must still be
    registered: the source asserts that both updates succeed.  The position,
    swapchain and ids are kept.
  */
  method UpdateDisplay(ctx: UpdateContext, d: Display, depthFormat: TextureFormat) returns (r: Display)
    requires ctx.Valid() && d.swapchain in ctx.swapchains
    requires d.depthStencil.raw in ctx.descriptors && d.depthStencilView.raw in ctx.descriptors
    modifies ctx
    ensures ctx.Valid()
    ensures r == d.(size := Size(ctx.swapchains[d.swapchain].width, ctx.swapchains[d.swapchain].height))
    ensures var (t, v) := DepthDescriptors(d.device, ctx.swapchains[d.swapchain], d.depthStencil, "DepthStencil", depthFormat);
            && ctx.descriptors == old(ctx.descriptors)[d.depthStencil.raw := t][d.depthStencilView.raw := v]
            && ctx.requests == old(ctx.requests) + [Updated(d.depthStencil.raw, t), Updated(d.depthStencilView.raw, v)]
  {
    var sc := ctx.swapchains[d.swapchain];
    r := d.(size := Size(sc.width, sc.height));
    var textureUpdated := ctx.Update(d.depthStencil.raw, TextureDesc(DepthTexture(d.device, sc.width, sc.height, depthFormat)));
    assert textureUpdated;
    var viewUpdated := ctx.Update(d.depthStencilView.raw, TextureViewDesc(DepthView(d.device, "DepthStencil", d.depthStencil, depthFormat)));
    assert viewUpdated;
  }

  /**
    `DisplayResources`: a display with the render pipeline that draws it and
    whether that pipeline has a fragment stage (it has one exactly when
    there were surfaces to draw when it was prepared).
  */
  datatype DisplayResources = DisplayResources(display: Display, renderPipelineReady: bool, renderPipeline: RenderPipelineId)
}
