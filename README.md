# screen_task: a Dafny model of the surface compositor's core

`screen_task` is a rendering-engine task that composites rectangular bitmap
*surfaces* onto one or more *displays* (swapchains) per GPU device. Each
surface is drawn as one instanced textured quad. A device's surfaces share
one instance buffer, one bindless texture-view array (bind group and
bind-group layout) and one pipeline layout. Each display keeps its own
depth target, projection and render pipeline. Requests from its
users (create, update source, update data, resize, move, remove) are
queued and applied once per tick. The engine's swapchain notifications
(created, destroyed, updated) attach and detach displays, and create and
drop device resources.

This project models two generations of the same code:

- **The current tree** (`src/surface_manager/`, `src/screen_task/`,
  `src/display.rs`, `src/surface.rs`):
  - the surface pool (`SurfacePool.SurfaceManager`), with its
    index-consistency protocol: after every removal each surface's
    `image_index` is its position in the view array;
  - the descriptor functions (`Descriptors`);
  - the per-device rebuild cascade (`Devices.DeviceResources`);
  - the request queue and its batch semantics (`TaskEvents`);
  - the swapchain layout (`DisplayLayout`);
  - the tick driver (`Screen.ScreenTask`).
- **The older tree** (`src/surface_manager.rs`, `src/screen_task.rs`,
  `src/prepare_descriptors/`), in the modules `LegacyPool`,
  `LegacyDescriptors`, `LegacyDevices` and `LegacyScreen`.
  - Lemmas compare the older tree with the current one wherever they agree
    or differ.
  - `LegacyPool` also documents the swap-remove defect listed under
    Findings.

The rendering engine is modelled as the `Engine.UpdateContext` class. It
holds a registry of descriptors and a log of every add, update, remove
and write request, in order, so contracts can state exactly which GPU
objects a step re-describes and in what order. The instance-buffer
collaborator is an assumed interface (`Buffers`). Its header comment
lists what is assumed of it.

Classes model the objects the source updates in place:
- the pool;
- a device's resources;
- the compositor itself (`ScreenTask`);
- the engine context.

The descriptor builders, surface records and displays are values.

## Model

| member | source | states |
|---|---|---|
| Engine.NonZero | src/surface_manager/mod.rs:137-141 | absent exactly for zero, otherwise the value itself |
| Engine.UpdateContext.Add | src/surface_manager/mod.rs:72-80 | registers the descriptor under an id not registered before, leaves every other registration alone, and records the request |
| Engine.UpdateContext.Update | src/surface_manager/mod.rs:110-111 | succeeds exactly for a registered id, whose descriptor is replaced; the request is recorded either way |
| Engine.UpdateContext.Remove | src/surface_manager/mod.rs:180-185 | succeeds exactly for a registered id, which is forgotten; the request is recorded either way |
| Engine.UpdateContext.WriteResource | src/surface_manager/mod.rs:84 | schedules the upload and leaves the registrations unchanged |
| Engine.UpdateContext.TextureDescriptorOf | src/surface_manager/mod.rs:104-105 | present exactly when the id is registered as a texture, and then its descriptor |
| Buffers.WithoutId | src/surface_manager/mod.rs:173 | the writes kept are exactly those of other ids |
| Buffers.ApplyWritesConcat | src/surface_manager/mod.rs:213-217 | queuing two batches of field writes in turn has the effect of queuing them together |
| Buffers.ApplyWritesUnrelated | src/surface_manager/mod.rs:90 | queued writes for other ids leave a record as it is |
| Buffers.ApplyWritesWithout | src/surface_manager/mod.rs:173 | dropping the queued writes of one id leaves every other id's pending record unchanged |
| Buffers.NewBuffer | src/surface_manager/mod.rs:23-29 | the buffer is registered under a fresh id with the given name, device and capacity, and starts with no records and no queued writes |
| Buffers.NextSlot | src/surface_manager/mod.rs:88 | the number of instances held |
| Buffers.Request | src/surface_manager/mod.rs:90 | a fresh id gets its record and exactly the given instance data; every other id's pending instance is unchanged |
| Buffers.PendingWriteField | src/surface_manager/mod.rs:159 | true exactly for a known id, and then only that id's pending instance changes, by exactly that field write; otherwise nothing changes |
| Buffers.ReleasePending | src/surface_manager/mod.rs:173 | a known id's record is returned and removed, and every remaining id's pending instance is unchanged; an unknown id yields nothing |
| Buffers.Flush | src/surface_manager/mod.rs:222 | every pending instance is committed unchanged, no writes stay queued, and there are upload commands exactly when writes were queued |
| Surfaces.SourceInfo | src/surface.rs:77-84 | the description keeps the source's variant: a dmabuf source gives its dmabuf description, a host source its host description without the pixels |
| Surfaces.SourceInfoForgetsPixels | src/surface.rs:77-84 | two host sources that differ only in their pixels have the same description |
| Surfaces.FromDmabufInfo | src/surface.rs:62-66 | converting a dmabuf description agrees with converting the corresponding source |
| Surfaces.FromHostAllocationInfo | src/surface.rs:67-71 | converting a host description agrees with converting a host source holding any pixels |
| Surfaces.NewSurfaceInfo | src/surface.rs:113-129 | the record keeps the texture, the view, the description, the position and the size it was given |
| Surfaces.GenerateData | src/surface.rs:131-137 | the instance record carries the surface's position and size and the image index asked for |
| TexturePrep.U32Mul | src/surface_manager/prepare_texture.rs:75 | the `u32` product is below 2^32 and equals the true product when that fits |
| TexturePrep.U32MulNoOverflow | src/surface_manager/prepare_texture.rs:75 | when `stride * width * height` fits in `u32`, the wrapped product is the true one |
| TexturePrep.PrepareTexture | src/surface_manager/prepare_texture.rs:7-127 | the texture is a 2-D, single-mip, single-sample, sampled-and-copy-target texture of the source's size, named after the surface; a host source uploads its pixels locally in its own format with its stride; a DMA buffer uploads nothing, is imported from its descriptor with its modifier and one plane, in `Rgba8UnormSrgb`, with the plane stride as row pitch |
| TexturePrep.PrepareTextureAgreesWithInfo | src/surface_manager/prepare_texture.rs:47-90 | the texture's size is the one the stored description declares, and pixels are uploaded exactly for host sources |
| TexturePrep.DmabufPlaneEnd | src/surface_manager/prepare_texture.rs:73-79 | the plane's slice runs from the plane offset to `stride * width * height` when that product fits in `u32` |
| TexturePrep.PrepareTextureView | src/surface_manager/prepare_texture_view.rs:5-23 | a 2-D view of every aspect, all mips and layers from 0, with the pool's device and the given name, texture and format |
| TexturePrep.PrepareTextureWrite | src/surface_manager/prepare_texture_write.rs:5-19 | an upload of the data into mip level 0 of the texture from the origin, with the given layout and size |
| SurfacePool.SlotCount | src/surface_manager/mod.rs:88 | in a valid pool the next slot the instance buffer hands out equals the number of surfaces on the stack |
| SurfacePool.ViewsOf | src/surface_manager/mod.rs:195-205 | one view per stack entry, in stack order, each the view recorded for that surface |
| SurfacePool.ReindexPrefix | src/surface_manager/mod.rs:208-218 | of the reindexing writes queued so far, only the one at a surface's own position touches it, and it sets its image index to that position |
| SurfacePool.ReindexedInstances | src/surface_manager/mod.rs:208-218 | reindexing keeps the pool valid and the records, and sets every surface's pending image index to its stack position while leaving the rest of its instance record as it was |
| SurfacePool.ReindexEstablishesConsistency | src/surface_manager/mod.rs:208-218 | after reindexing, every surface's image index is its position on the stack |
| SurfacePool.ReindexIdempotent | src/surface_manager/mod.rs:208-218 | reindexing a second time leaves every surface's pending record as after the first |
| SurfacePool.ViewAtImageIndex | src/surface_manager/mod.rs:195-218 | when image indexes match stack positions, each surface's image index selects its own texture view in the array `rectangle_views` lists |
| SurfacePool.RemoveIdProperties | src/surface_manager/mod.rs:174-179 | removing the found position from a duplicate-free stack drops exactly that id, keeps the entries before it in place, moves the later ones up by one, and leaves no duplicate |
| SurfacePool.IndexOf | src/surface_manager/mod.rs:174-178 | the position found holds the id and no earlier position does (the first match) |
| SurfacePool.RegisterImage | src/surface_manager/mod.rs:66-85 | the texture and then its view are registered under fresh ids from `prepare_texture`/`prepare_texture_view`, followed by the pixel upload exactly for host sources |
| SurfacePool.DataLayoutMatchesCreation | src/surface_manager/mod.rs:135-142 | for a host bitmap with tightly packed rows, the layout `update_data` uploads with is the one creation used |
| SurfacePool.SurfaceManager.constructor | src/surface_manager/mod.rs:20-36 | an empty pool with counter 0 whose 32-slot vertex buffer "SurfaceManager buffer" is the one new registration |
| SurfacePool.SurfaceManager.BookId | src/surface_manager/mod.rs:44-48 | returns the counter and moves it one past, so no id is booked twice; nothing else changes and the pool stays valid |
| SurfacePool.SurfaceManager.Len | src/surface_manager/mod.rs:51-53 | the number of surfaces on the stack |
| SurfacePool.SurfaceManager.RectangleViews | src/surface_manager/mod.rs:195-205 | the texture view of every live surface, in stack order |
| SurfacePool.SurfaceManager.CreateSurface | src/surface_manager/mod.rs:56-92 | the id is appended to the stack with a record of the source's description, position and size, and an instance record whose image index is the previous stack length; texture, view and upload are registered; earlier surfaces keep their records; the pool stays valid |
| SurfacePool.SurfaceManager.UpdateSource | src/surface_manager/mod.rs:95-126 | for a known surface with a registered texture, the texture is re-described from the new source under its registered name and host pixels are uploaded; otherwise the registry is unchanged |
| SurfacePool.SurfaceManager.UpdateData | src/surface_manager/mod.rs:129-152 | for a known surface with a registered texture, the data is uploaded with the texture's size and a tightly packed layout; otherwise nothing is uploaded; no descriptor changes |
| SurfacePool.SurfaceManager.ResizeSurface | src/surface_manager/mod.rs:155-160 | true exactly for a live surface, whose pending size becomes the new one; every other instance record and the stack are unchanged |
| SurfacePool.SurfaceManager.MoveSurface | src/surface_manager/mod.rs:163-168 | true exactly for a live surface, whose pending position becomes the new one; every other instance record and the stack are unchanged |
| SurfacePool.SurfaceManager.RemoveSurface | src/surface_manager/mod.rs:171-192 | true exactly for a live surface, which leaves the stack in order and loses its record, and whose view and then texture are removed; an unknown id changes nothing and yields false |
| SurfacePool.SurfaceManager.UpdateImageIndexes | src/surface_manager/mod.rs:208-218 | queues one image-index write per stack position; afterwards every surface's image index is its position and selects its own view |
| SurfacePool.SurfaceManager.Update | src/surface_manager/mod.rs:221-223 | the instance buffer is flushed: no commands exactly when nothing was queued |
| SurfacePool.RemoveThenCreate | src/surface_manager/mod.rs:171-218 | removing `b` from `[a, b, c]` and creating `d` gives `[a, c, d]`, and reindexing gives `d` image index 2 |
| Displays.DepthTexture | src/display.rs:24-38 | the depth texture of a display is a single-layer, single-mip, single-sample 2D render attachment exactly as large as its swapchain, in the depth format |
| Displays.DepthView | src/display.rs:43-54 | the depth view covers the depth aspect of exactly mip level 0 and array layer 0 of its texture |
| Displays.NewDisplay | src/display.rs:16-67 | registers a depth texture and then its view under two distinct fresh ids, sized from the swapchain, and the display remembers the swapchain's current size, its position and both ids |
| Displays.UpdateDisplay | src/display.rs:69-107 | re-describes the registered depth texture and then its view at the swapchain's current size (both updates succeed), and the display's size becomes that size with everything else kept |
| Descriptors.SurfaceLayoutPacked | src/screen_task/prepare_descriptors/render_pipeline.rs:32-41 | the per-instance attributes sit at shader locations 0, 1, 2, follow one another without gaps from offset 0, and exactly fill the 24-byte `Surface` stride |
| Descriptors.AlignedSize | src/screen_task/prepare_descriptors/pipeline_layout.rs:13 | the smallest multiple of 4 not below the size: a multiple of 4, at most 3 above, and the size itself when already aligned |
| Descriptors.PrepareBindGroupLayout | src/screen_task/prepare_descriptors/bind_group_layout.rs:7-43 | a fragment-visible comparison sampler at binding 0, and a texture array at binding 1 exactly when there are surfaces, counting them; no entry ever declares a count of zero |
| Descriptors.PrepareBindGroup | src/screen_task/prepare_descriptors/bind_group.rs:7-35 | the sampler at binding 0 and, exactly when there are views, all the views in the given order at binding 1 |
| Descriptors.BindGroupFitsLayout | src/screen_task/prepare_descriptors/bind_group.rs:14-27 | the bind group built from a pool's views matches the layout built from the same pool's length: the same bindings, and as many views as the layout's array count |
| Descriptors.PreparePipelineLayout | src/screen_task/prepare_descriptors/pipeline_layout.rs:7-23 | exactly the given bind-group layout and one vertex-stage push-constant range from 0 to the aligned push-constant size, which is the 64 bytes of the projection matrix |
| Descriptors.PrepareRenderPipeline | src/screen_task/prepare_descriptors/render_pipeline.rs:9-71 | ready exactly when there are surfaces, and a fragment stage writing the swapchain's format exactly when ready; the instance layout, triangle strip and depth test `Less` with writes against the display's depth view |
| Descriptors.DrawCommands | src/screen_task/prepare_descriptors/command_buffer.rs:20-52 | no commands without surfaces; otherwise the display's pipeline, its projection for a 1024-surface depth range, the bind group, the instance buffer, and a draw of 4 vertices for each surface (the count truncated to `u32`) |
| Descriptors.RenderPasses | src/screen_task/prepare_descriptors/command_buffer.rs:17-68 | one pass per display, in display order, each with that display's draw commands |
| Descriptors.PrepareCommandBuffer | src/screen_task/prepare_descriptors/command_buffer.rs:9-77 | one render pass per display, on the display's depth view, loading and storing its swapchain image, with that display's draw commands |
| Descriptors.ReadinessAgrees | src/screen_task/prepare_descriptors/render_pipeline.rs:23 | the pipeline is ready exactly when the bind-group layout declares the texture array, and exactly when the pass issues draw commands |
| Devices.NewDisplayResources | src/display.rs:133-161 | registers the display's render pipeline under a fresh id, ready exactly when the pool has surfaces, and keeps the display as given |
| Devices.Refreshed | src/screen_task/update_descriptors/render_pipeline.rs:12-29 | every display keeps its place, display and pipeline id, and its readiness becomes whether there are surfaces |
| Devices.NoRebuildsWhenCurrent | src/screen_task/update_descriptors/render_pipeline.rs:22-28 | when every stored readiness is already current, no pipeline is re-described |
| Devices.SecondRefreshIsQuiet | src/screen_task/update_descriptors/render_pipeline.rs:12-29 | refreshing twice with the same surface count re-describes nothing the second time and leaves the displays as after the first |
| Devices.RebuildCount | src/screen_task/update_descriptors/render_pipeline.rs:22-28 | as many pipelines are re-described as there are displays whose readiness flips |
| Devices.RebuildsStep | src/screen_task/update_descriptors/render_pipeline.rs:12-29 | the re-descriptions of the first i+1 displays are those of the first i followed by display i's, if its readiness flips |
| Devices.RegisterShared | src/prepare_descriptors/mod.rs:27-88 | registers, in this order, the vertex and fragment shaders, the sampler, the bind-group layout and bind group for the pool as it is, and the pipeline layout on that bind-group layout |
| Devices.FirstOn | src/screen_task/task_impl.rs:55-61 | the first display on the swapchain: it is on it and no earlier one is; none when no display is on it |
| Devices.SwapchainsOf | src/screen_task/task_impl.rs:55-61 | the displays' swapchains, one per display, in display order |
| Devices.WithoutDisplayOnProperties | src/screen_task/task_impl.rs:55-63 | removing the first display on a swapchain drops exactly one display when there is one, keeps only displays that were there, and keeps them known and registered |
| Devices.DetachAttached | src/screen_task/task_impl.rs:34-63 | a display attached on a swapchain no other display uses is exactly the one a later destruction of that swapchain removes |
| Devices.ResizedOnProperties | src/screen_task/task_impl.rs:80-87 | updating the first display on a swapchain changes no other display, and keeps the number of displays, their swapchains, knownness and registration |
| Devices.RegisterDisplay | src/screen_task/task_impl.rs:36-45 | a display on the swapchain at the given position, sized from the swapchain, with its depth texture, depth view and then render pipeline registered, ready exactly when the pool has surfaces |
| Devices.DeviceResources.CommandBufferFor | src/screen_task/update_descriptors/command_buffer.rs:12-18 | one pass per display, each drawing the pool's surfaces with that display's pipeline |
| Devices.DeviceResources.Init | src/prepare_descriptors/mod.rs:19-149 | a fresh empty pool; the shaders, sampler, layouts and bind group for no surfaces; one display on the swapchain with a pipeline that is not ready; the command buffer; an empty data-copy command buffer that is not due; all registered in this order |
| Devices.DeviceResources.UpdateCommandBuffer | src/screen_task/update_descriptors/command_buffer.rs:7-23 | re-describes the command buffer from the displays, bind group and pool as they are now, and changes nothing else |
| Devices.DeviceResources.AttachDisplay | src/screen_task/task_impl.rs:34-50 | appends a display on the swapchain at the origin after the existing ones, registers its depth objects and pipeline, then re-describes the command buffer; the pool is untouched |
| Devices.DeviceResources.DetachDisplay | src/screen_task/task_impl.rs:54-73 | drops the first display on the swapchain; the device is kept unless that was its last display, and a kept device that lost a display has its command buffer re-described |
| Devices.DeviceResources.ResizeDisplay | src/screen_task/task_impl.rs:78-89 | re-describes the command buffer first, then resizes the first display on the swapchain, re-describing its depth texture and view; reports whether there was one |
| Devices.DeviceResources.RefreshDisplay | src/screen_task/update_descriptors/render_pipeline.rs:13-28 | display i's pipeline is re-described exactly when its readiness flips, and its readiness becomes current |
| Devices.DeviceResources.UpdateRenderPipeline | src/screen_task/update_descriptors/render_pipeline.rs:7-30 | every display's readiness becomes whether there are surfaces, pipelines are re-described only for displays whose readiness flips, in display order, and nothing is registered or removed |
| Devices.DeviceResources.UpdateLayouts | src/screen_task/update_descriptors/layout_and_bind_group.rs:12-30 | re-describes the bind-group layout for the current surface count, then the pipeline layout on it |
| Devices.DeviceResources.UpdateBindGroup | src/screen_task/update_descriptors/layout_and_bind_group.rs:33-41 | re-describes the bind group over the pool's views in stack order |
| Devices.DeviceResources.UpdateLayoutAndBindGroups | src/screen_task/update_descriptors/layout_and_bind_group.rs:7-45 | in order: bind-group layout, pipeline layout, reindexing, bind group, pipelines, command buffer; the stack is unchanged and afterwards each surface's image index selects its own view in the bind group |
| Devices.DeviceResources.UploadData | src/screen_task/events.rs:105-117 | commits the pool's queued writes; exactly when there were any, the data-copy command buffer is re-described with the upload commands and becomes due |
| Devices.DeviceResources.FinishTick | src/screen_task/events.rs:98-118 | runs the cascade exactly when the batch created or removed a surface, then the upload; afterwards no write is queued, the stack is unchanged, and the data-copy buffer is due when it was, when writes were queued, or when a cascade reindexed surfaces |
| TaskEvents.StepKeepsNoDup | src/screen_task/events.rs:40-94 | any event but the creation of a live id keeps the stack free of duplicates; afterwards the stack holds exactly the old ids plus a created one, or minus a removed one (a removal of an unknown id changes nothing) |
| TaskEvents.StackAfterAppend | src/screen_task/events.rs:38-96 | handling one more event of the batch is one more step on the stack the earlier events left |
| TaskEvents.BatchKeepsNoDup | src/screen_task/events.rs:38-96 | a batch whose every event the pool can take keeps its stack free of duplicates |
| TaskEvents.NonStructuralKeepsStack | src/screen_task/events.rs:59-86 | a batch of source, data, size and position updates leaves the order of surfaces unchanged |
| TaskEvents.AnyStructuralAppend | src/screen_task/events.rs:57-93 | the rebuild flag after one more event is set exactly when it was already set or that event creates or removes a surface |
| TaskEvents.AnyStructuralCons | src/screen_task/events.rs:57-93 | a batch sets the rebuild flag exactly when its first event creates or removes a surface or the rest of it sets the flag |
| TaskEvents.CreateThenRemove | src/screen_task/events.rs:40-94 | creating a surface and removing it again in one batch restores the stack |
| TaskEvents.RemoveAppended | src/surface_manager/mod.rs:171-192 | removing the surface that was just pushed on top gives back the stack as it was before the push |
| TaskEvents.RemoveIdAbsent | src/surface_manager/mod.rs:171-192 | removing an id the stack does not hold leaves the stack as it was |
| TaskEvents.RemoveIdSubset | src/surface_manager/mod.rs:174-179 | a removal never brings an id onto the stack |
| TaskEvents.LateDevicePanics | src/screen_task/events.rs:77-92 | as written, a batch panics on any pool lacking the id of a resize, move or removal that no earlier creation of the batch brings, such as the empty pool of a device added after the surface was created |
| TaskEvents.AssertedIsApplicable | src/screen_task/events.rs:38-96 | every batch that survives the source's asserts is taken by the model on the same stacks |
| TaskEvents.UnknownIdsNeverBlock | src/screen_task/events.rs:77-92 | with unknown ids ignored, every pool, a late device's empty one included, takes every batch without creations |
| DisplayLayout.RemoveFirstAbsent | src/screen_task/task_impl.rs:55-72 | destroying a swapchain a device does not draw on leaves its displays as they were |
| DisplayLayout.RemoveFirstAppended | src/screen_task/task_impl.rs:47-63 | removing the display just appended on a swapchain not otherwise used gives back the previous displays |
| DisplayLayout.RemoveFirstAt | src/screen_task/task_impl.rs:55-63 | removing the first display on a swapchain, found at position i, closes the gap at i |
| DisplayLayout.RemoveFirstLength | src/screen_task/task_impl.rs:55-63 | a device loses exactly one display when it draws on the destroyed swapchain, none otherwise |
| DisplayLayout.StepKeepsNoEmptyDevice | src/screen_task/task_impl.rs:19-91 | no display notification leaves a device with resources but without displays |
| DisplayLayout.CreateThenDestroy | src/screen_task/task_impl.rs:19-74 | creating a swapchain no device draws on and then destroying it restores the layout, including dropping a device that got resources only for it |
| DisplayLayout.DestroyUnknown | src/screen_task/task_impl.rs:53-74 | destroying a swapchain no device draws on changes nothing |
| Screen.ApplyToPool | src/screen_task/events.rs:40-94 | one event on one pool: the stack takes the event's step, every event but a removal keeps image indexes equal to positions, and a resize, move or removal of an unknown id changes neither the pool nor the engine |
| Screen.ScreenTask.constructor | src/screen_task/mod.rs:45-54 | no queued requests and no devices |
| Screen.ScreenTask.CreateSurface | src/screen_task/mod.rs:56-72 | the creation is queued after the earlier requests, and nothing else changes until the next tick |
| Screen.ScreenTask.UpdateSource | src/screen_task/mod.rs:74-79 | the source replacement is queued after the earlier requests |
| Screen.ScreenTask.UpdateData | src/screen_task/mod.rs:81-86 | the pixel update is queued after the earlier requests |
| Screen.ScreenTask.ResizeSurface | src/screen_task/mod.rs:88-93 | the resize is queued after the earlier requests |
| Screen.ScreenTask.MoveSurface | src/screen_task/mod.rs:95-100 | the move is queued after the earlier requests |
| Screen.ScreenTask.RemoveSurface | src/screen_task/mod.rs:102-105 | the removal is queued after the earlier requests |
| Screen.ScreenTask.CommandBuffers | src/screen_task/task_impl.rs:96-110 | every device's draw buffer is listed, its data-copy buffer exactly when due, nothing else, and one buffer per device plus one per due device |
| Screen.ScreenTask.UpdateResources | src/screen_task/task_impl.rs:12-95 | the queue is emptied, the devices follow the tick's swapchain notifications in order, and every device has taken the whole batch from its old stack, or from an empty one if new, with all writes uploaded and image indexes equal to positions |
| Screen.ScreenTask.Install | src/screen_task/task_impl.rs:94 | the devices become those the tick left and the queue is empty, and the compositor is valid again |
| Screen.ScreenTask.Ticked | src/screen_task/events.rs:98-118 | once every device has taken the batch and finished, every pool is index-consistent again |
| Screen.ScreenTask.ElaborateEvents | src/screen_task/events.rs:36-120 | the queue is drained and every device's stack becomes the batch's result, with all writes uploaded and image indexes equal to positions; devices and displays stay |
| Screen.ScreenTask.AllReady | src/screen_task/events.rs:36-120 | between ticks every device can take a batch that applies to its stack |
| Screen.ScreenTask.AllElaborated | src/screen_task/events.rs:98-118 | once every device has finished its tick, the compositor is valid and its displays are those recorded |
| Screen.Tick | src/screen_task/task_impl.rs:12-95 | the layout ends as the tick's notifications say, every device is an old one or a fresh one, and each has taken the whole batch from its starting stack and finished its tick |
| Screen.ShapedReady | src/screen_task/task_impl.rs:94 | after the notifications every device can take the batch |
| Screen.ElaboratedLayout | src/screen_task/events.rs:98-118 | finishing the tick leaves every device on the swapchains it had |
| Screen.ResetFlags | src/screen_task/task_impl.rs:13-15 | no device's data-copy buffer counts as due any more, and nothing else changes |
| Screen.EnumerationSize | src/screen_task/task_impl.rs:97-98 | iterating the device map visits as many devices as there are |
| Screen.FlattenLast | src/screen_task/task_impl.rs:99-109 | the listed buffers grow by the last device's draw buffer and, when due, its data-copy buffer |
| Screen.FlattenListsAll | src/screen_task/task_impl.rs:99-109 | every draw buffer and every due data-copy buffer is listed |
| Screen.FlattenListsOnly | src/screen_task/task_impl.rs:99-109 | nothing is listed that no device contributes |
| Screen.FlattenLength | src/screen_task/task_impl.rs:99-109 | one buffer per device plus one per due device |
| Screen.SubmissionsOf | src/screen_task/task_impl.rs:97-99 | one submission per device in iteration order, each made of that device's buffers and due flag |
| Screen.SubmittedAll | src/screen_task/task_impl.rs:96-110 | every device's draw buffer, and its data-copy buffer when due, is submitted |
| Screen.SubmittedOnly | src/screen_task/task_impl.rs:96-110 | every submitted buffer is a device's draw buffer or its due data-copy buffer |
| Screen.SubmittedCount | src/screen_task/task_impl.rs:96-110 | the number of submitted buffers is the number of devices plus the number of due devices |
| Screen.ElaborateDevices | src/screen_task/events.rs:98-118 | every device in the set takes the batch from its stack and finishes its tick |
| Screen.ElaborateOnDevice | src/screen_task/events.rs:38-118 | the device's stack becomes the batch's result with nothing left to upload and indexes consistent; displays are refreshed exactly when the batch created or removed a surface; a due data-copy buffer stays due |
| Screen.ApplyBatch | src/screen_task/events.rs:38-96 | the stack becomes the batch's result, the result says whether the batch created or removed a surface, and a batch that did neither keeps indexes consistent |
| Screen.NewDevice | src/screen_task/task_impl.rs:25-33 | a fresh device with an empty pool and one display, on the created swapchain |
| Screen.AttachTo | src/screen_task/task_impl.rs:34-50 | the device's swapchains grow by the created one at the end, and all its displays stay attached and registered |
| Screen.CreatedOnKnown | src/screen_task/task_impl.rs:34-50 | only the owning device's swapchains change, by the created one at the end |
| Screen.CreatedOnNew | src/screen_task/task_impl.rs:25-33 | the owning device is added fresh, with an empty pool, showing only the created swapchain; every other device is untouched |
| Screen.RegisteredMonotone | src/screen_task/task_impl.rs:19-52 | registrations only grow during a creation, so displays registered before stay registered |
| Screen.InsertDevice | src/screen_task/task_impl.rs:32 | entering a new device keeps the map in shape and adds its swapchains to the layout |
| Screen.HandleCreated | src/screen_task/task_impl.rs:19-52 | the layout takes the creation step: a first display for a device without resources, one more display otherwise; no pool changes |
| Screen.SwapchainsWithout | src/screen_task/task_impl.rs:55-63 | dropping the first display on a swapchain drops that swapchain's first occurrence, and there is such a display exactly when the device shows the swapchain |
| Screen.DetachFrom | src/screen_task/task_impl.rs:55-72 | the device is kept exactly when it did not show the swapchain or had another display, and a kept device shows its swapchains less that one |
| Screen.RetainDevices | src/screen_task/task_impl.rs:54-73 | exactly the devices that did not lose their last display are kept, each showing its swapchains less the destroyed one |
| Screen.HandleDestroyed | src/screen_task/task_impl.rs:53-74 | the layout takes the destruction step and kept devices are the same objects; no pool changes |
| Screen.AllSettled | src/screen_task/task_impl.rs:53-91 | between notifications every device is settled on its own swapchains |
| Screen.Retained | src/screen_task/task_impl.rs:54-73 | what the retain leaves is in shape and its layout is the destruction step's |
| Screen.NotOnOthers | src/screen_task/task_impl.rs:76-90 | a device does not show a swapchain of another device, so updating that swapchain leaves its displays alone |
| Screen.ResizeOn | src/screen_task/task_impl.rs:78-89 | reports whether the device shows the swapchain, and its first display on it takes the swapchain's size |
| Screen.ResizeDevices | src/screen_task/task_impl.rs:76-90 | every device ends with its first display on the swapchain resized, including those the search stopped before |
| Screen.HandleUpdated | src/screen_task/task_impl.rs:75-91 | the first display on the swapchain takes its new size, every other display stays, and no device comes or goes |
| Screen.Resized | src/screen_task/task_impl.rs:76-90 | after the search the map is in shape and the layout has not changed |
| Screen.HandleEvent | src/screen_task/task_impl.rs:18-91 | the layout takes one more notification's step, every device is an old one or fresh with an empty pool |
| Screen.LayoutAfterNext | src/screen_task/task_impl.rs:18 | the layout after one more notification is one more step |
| Screen.HandleEvents | src/screen_task/task_impl.rs:17-92 | the layout ends as the notifications say, every device is an old one or fresh, and each keeps the stack it starts the batch from |
| LegacyPool.ImageRequests | src/surface_manager.rs:78-131 | a decoded file registers an sRGB RGBA texture named "<label> texture", then a view of it named "<label> texture view", then uploads the pixels with rows of width x 4 bytes |
| LegacyPool.ImageMatchesHostBitmap | src/surface_manager.rs:78-131 | a decoded file is registered and uploaded exactly as the current pool registers a tightly packed RGBA host bitmap of the same pixels, except for the view's name |
| LegacyPool.LegacySlotCount | src/surface_manager.rs:134 | the next slot equals the number of surfaces on the stack |
| LegacyPool.LegacyViewsOf | src/surface_manager.rs:166-176 | one view per stack entry, in stack order, each the one recorded for that surface |
| LegacyPool.PositionOf | src/surface_manager.rs:155-159 | the first position holding the id |
| LegacyPool.SwapRemovedProperties | src/surface_manager.rs:160 | swap-removal drops exactly the entry at i, keeps every other position below the last in place, moves the last entry into i, and keeps the stack free of duplicates |
| LegacyPool.SwapRemoveReorders | src/surface_manager.rs:160 | swap-removing the first of [a, b, c] gives [c, b], unlike the order-preserving removal, which gives [b, c] |
| LegacyPool.SwapRemoveStalesIndex | src/surface_manager.rs:151-164 | after removing any surface but the last, the surface moved into its place keeps the old last image index, which is past the end of the listed views, so indexes no longer match positions |
| LegacyPool.SwapRemoveThenReindex | src/surface_manager/mod.rs:208-218 | after a swap-removal, rewriting every image index to its stack position makes each index select the surface's own view again |
| LegacyPool.LegacyReindexRestores | src/surface_manager/mod.rs:208-218 | reindexing a valid older pool makes image indexes equal positions, so each selects the surface's own view |
| LegacyPool.RegisterDecodedImage | src/surface_manager.rs:78-131 | registers the texture and view under two distinct fresh ids and uploads the pixels, in that order |
| LegacyPool.AppendKeepsConsistency | src/surface_manager.rs:133-136 | appending a fresh surface whose image index is the next slot keeps the pool valid, leaves earlier records unchanged, and keeps indexes equal to positions |
| LegacyPool.LegacySurfaceManager.constructor | src/surface_manager.rs:15-31 | an empty pool with counter 0 whose 32-slot vertex buffer "SurfaceManager buffer" is the one new registration |
| LegacyPool.LegacySurfaceManager.BookId | src/surface_manager.rs:37-41 | returns the counter and moves it one past, so no id is booked twice; the pool stays valid |
| LegacyPool.LegacySurfaceManager.Len | src/surface_manager.rs:43-45 | the number of surfaces, which is also the number of slots in use |
| LegacyPool.LegacySurfaceManager.RectangleViews | src/surface_manager.rs:166-176 | the texture view of every live surface, in stack order |
| LegacyPool.LegacySurfaceManager.CreateSurface | src/surface_manager.rs:47-137 | registers and uploads the decoded image, appends the id with the given position and size and the next slot as image index; earlier surfaces are unaffected |
| LegacyPool.LegacySurfaceManager.ResizeSurface | src/surface_manager.rs:139-143 | true exactly for a live surface, whose pending size becomes the new one; nothing else changes |
| LegacyPool.LegacySurfaceManager.MoveSurface | src/surface_manager.rs:145-149 | true exactly for a live surface, whose pending position becomes the new one; nothing else changes |
| LegacyPool.LegacySurfaceManager.RemoveSurface | src/surface_manager.rs:151-164 | true exactly for a live surface, which is released and swap-removed from the stack; an unknown id changes nothing |
| LegacyPool.LegacySurfaceManager.Update | src/surface_manager.rs:178-180 | the queued writes are committed, with no commands exactly when nothing was queued |
| LegacyDescriptors.LegacyPipelineLayoutIsCurrent | src/prepare_descriptors/pipeline_layout.rs:6-21 | the older pipeline layout is the current tree's: one bind-group layout and one vertex-stage push-constant range from 0 to the push-constant size rounded up to a multiple of 4, less than 4 bytes above it |
| LegacyDescriptors.LegacyPrepareRenderPipeline | src/prepare_descriptors/render_pipeline.rs:7-61 | the older pipeline draws onto the display's swapchain format with the surface instance layout as a triangle strip, always has a fragment stage, and tests depth LessEqual against the display's depth view without writing it |
| LegacyDescriptors.RenderPipelinesCompared | src/prepare_descriptors/render_pipeline.rs:44-59 | the older and current pipelines differ only in the depth test (current: write, Less) and in the current tree dropping the fragment stage when there are no surfaces |
| LegacyDescriptors.LegacyDrawCommands | src/prepare_descriptors/command_buffer.rs:28-55 | each pass always sets its display's pipeline, a projection for the display size and 1024 surfaces, the bind group and the instance buffer, then draws one quad per surface (count truncated to u32), even with no surfaces |
| LegacyDescriptors.DrawCommandsCompared | src/prepare_descriptors/command_buffer.rs:28-55 | with surfaces the older pass issues exactly the current tree's commands; with none the current tree issues nothing while the older one still ends in a draw of zero instances |
| LegacyDescriptors.LegacyRenderPasses | src/prepare_descriptors/command_buffer.rs:15-57 | one render pass per display, in display order, each carrying that display's draw commands |
| LegacyDescriptors.LegacyPrepareCommandBuffer | src/prepare_descriptors/command_buffer.rs:8-64 | the command buffer has one pass per display, on that display's depth view and its swapchain image (loaded, stored), with the five draw commands |
| LegacyDescriptors.AllAsCurrent | src/screen_task.rs:41-44 | the older displays seen as current ones: same length, each with the same display and pipeline |
| LegacyDescriptors.CommandBuffersCompared | src/prepare_descriptors/command_buffer.rs:8-64 | with surfaces, both trees record the same command buffer for the same displays |
| LegacyDevices.LegacySwapchainsOf | src/screen_task.rs:41-47 | the swapchains of a device's displays, one per display in order |
| LegacyDevices.LegacyFirstOn | src/screen_task.rs:299-305 | the first display on the swapchain when there is one, and none exactly when no display is on it |
| LegacyDevices.LegacyWithoutDisplayOnProperties | src/screen_task.rs:299-307 | removing the first display on a swapchain removes the first occurrence of that swapchain from the device's swapchains; such a display exists exactly when the swapchain is among them; the other displays stay on known swapchains |
| LegacyDevices.PipelineUpdates | src/screen_task.rs:141-154 | the older cascade updates every display's pipeline, in display order, one request per display |
| LegacyDevices.PipelineUpdatesCoverRebuilds | src/screen_task.rs:141-154 | the older loop re-describes at least as many pipelines as the current tree's readiness-driven rebuild, which rebuilds none when readiness already matches the surface count |
| LegacyDevices.RebuildsAtMost | src/screen_task.rs:141-154 | the current rebuild never touches more pipelines than there are displays |
| LegacyDevices.PipelineUpdatesStep | src/screen_task.rs:141-154 | each loop iteration appends exactly the next display's pipeline update |
| LegacyDevices.RegisterLegacyDisplay | src/screen_task.rs:263-281 | a new display on the swapchain at the position, sized to the swapchain, registers its Depth24Plus depth texture and view and then its older pipeline |
| LegacyDevices.RegisterEmptyShared | src/prepare_descriptors/mod.rs:27-88 | registers, in order, the two shaders, the sampler, the bind-group layout and bind group for no surfaces, and the pipeline layout |
| LegacyDevices.LegacyDeviceResources.CommandBufferFor | src/screen_task.rs:156-166 | one render pass per display, each carrying the older draw commands over the current bind group and the pool's surface count |
| LegacyDevices.LegacyDeviceResources.Init | src/prepare_descriptors/mod.rs:19-149 | a fresh empty pool, the shared resources, one display on the swapchain with its pipeline, the command buffer and an empty data-copy buffer not yet due, registered in that order |
| LegacyDevices.LegacyDeviceResources.UpdateCommandBuffer | src/screen_task.rs:156-166 | the command buffer is re-described from the displays, bind group and pool as they are now |
| LegacyDevices.LegacyDeviceResources.AttachDisplay | src/screen_task.rs:263-294 | the new display at the origin is appended after the existing ones, its depth resources and pipeline are registered, and the command buffer is re-described to draw it too |
| LegacyDevices.LegacyDeviceResources.DetachDisplay | src/screen_task.rs:298-327 | the first display on the swapchain is dropped; the device is kept unless that was its last display; only a device kept after losing a display re-describes its command buffer |
| LegacyDevices.LegacyDeviceResources.UpdateRenderPipelines | src/screen_task.rs:141-154 | every display's pipeline is re-described in display order; the displays themselves do not change |
| LegacyDevices.LegacyDeviceResources.UpdateResources | src/screen_task.rs:106-167 | the older cascade issues, in order, the bind-group layout for the current surface count, the pipeline layout, the bind group over the pool's views, every pipeline, then the command buffer |
| LegacyDevices.LegacyDeviceResources.UpdateLayouts | src/screen_task.rs:111-139 | the first three cascade steps: bind-group layout for the surface count, pipeline layout, and bind group over the views in stack order |
| LegacyDevices.LegacyDeviceResources.UploadData | src/screen_task.rs:202-215 | the pool's queued writes are committed; when there were any, the data-copy buffer is re-described with them and becomes due; the due flag is never cleared |
| LegacyScreen.Ids | src/screen_task.rs:31-39 | the ids the batch's creations bring, in batch order |
| LegacyScreen.CreatableMeansDistinct | src/surface_manager.rs:37-41 | a pool can take a batch of creations one by one, each with an id it does not hold yet, exactly when its live ids followed by the batch's ids are all different |
| LegacyScreen.CreatedOnKnown | src/screen_task.rs:263-294 | a swapchain created on a known device adds that swapchain to the end of that device's display list only; every pool stays ready |
| LegacyScreen.CreatedOnNew | src/screen_task.rs:254-262 | a swapchain on an unknown device adds a fresh entry with an empty pool and that one display; the other devices are untouched |
| LegacyScreen.HandleCreated | src/screen_task.rs:251-296 | the layout after a creation is the creation step's: a new device with one display, or one more display on a known device; no pool changes |
| LegacyScreen.DetachFrom | src/screen_task.rs:298-327 | a device loses the first display on the destroyed swapchain and is kept unless it had only that one |
| LegacyScreen.RetainDevices | src/screen_task.rs:298-327 | over all devices, the kept ones are exactly those that did not lose their last display, each with the destroyed swapchain's first occurrence removed |
| LegacyScreen.HandleDestroyed | src/screen_task.rs:297-328 | the device map after a destruction is a sub-map of the old one whose layout is the destruction step's |
| LegacyScreen.Retained | src/screen_task.rs:297-328 | what the retain leaves is well-shaped and has the destruction step's layout |
| LegacyScreen.HandleEvent | src/screen_task.rs:249-330 | one notification updates the layout as the reference layout step says, resizes and other events change nothing, and every device is old or new with an empty pool |
| LegacyScreen.HandleEvents | src/screen_task.rs:248-330 | after all the tick's notifications, in order, the layout is the reference layout after them |
| LegacyScreen.CreateOn | src/screen_task.rs:180-189 | one device's pool takes the batch's first creation: its stack gains that id |
| LegacyScreen.CreateOnDevices | src/screen_task.rs:180-189 | one creation reaches every device's pool, in no particular order, each stack gaining the id |
| LegacyScreen.CreateAll | src/screen_task.rs:171-194 | after the whole batch every pool's stack is its old stack followed by the batch's ids, in order |
| LegacyScreen.IdsShift | src/screen_task.rs:171-194 | taking the first creation onto a stack keeps the stack-then-batch-ids sequence unchanged |
| LegacyScreen.RebuildOn | src/screen_task.rs:199-216 | one device runs the older cascade and the upload: stack and displays unchanged, nothing left to upload, data-copy buffer due once anything was queued |
| LegacyScreen.RebuildDevices | src/screen_task.rs:196-218 | every device runs the cascade and upload, in no particular order, and none keeps queued writes |
| LegacyScreen.ElaborateAll | src/screen_task.rs:169-219 | every creation reaches every pool; when the batch was non-empty every device rebuilds and uploads, ending with its old stack plus the batch's ids and nothing queued |
| LegacyScreen.FlattenListsAll | src/screen_task.rs:334-347 | every due buffer of every device is in the flattened list |
| LegacyScreen.FlattenListsOnly | src/screen_task.rs:334-347 | the flattened list holds only buffers some device contributes |
| LegacyScreen.SubmissionsOf | src/screen_task.rs:337-344 | one submission per device in iteration order, the draw buffer due while the pool holds surfaces, the data-copy buffer due once re-recorded |
| LegacyScreen.SubmittedAll | src/screen_task.rs:334-347 | every non-empty device's draw buffer and every due data-copy buffer is submitted |
| LegacyScreen.SubmittedOnly | src/screen_task.rs:334-347 | nothing is submitted that is not a non-empty device's draw buffer or a due data-copy buffer |
| LegacyScreen.FlattenLast | src/screen_task.rs:337-345 | the flattened list grows by the last device's due buffers, draw buffer first |
| LegacyScreen.FlattenLength | src/screen_task.rs:337-345 | the flattened list has one entry per due draw buffer and one per due data-copy buffer |
| LegacyScreen.DrawPositionsLast | src/screen_task.rs:339 | one more device adds one due draw position exactly when its pool holds surfaces |
| LegacyScreen.CopyPositionsLast | src/screen_task.rs:340-342 | one more device adds one due data-copy position exactly when its buffer is due |
| LegacyScreen.SubmittedCount | src/screen_task.rs:334-347 | the number of submitted buffers is the number of non-empty devices plus the number of due data-copy buffers |
| LegacyScreen.Tick | src/screen_task.rs:247-333 | a whole tick over the device map: the layout ends as the notifications say, and each device ends with its starting stack (empty for a new one) followed by the batch's ids |
| LegacyScreen.ElaboratedPools | src/screen_task.rs:169-219 | devices that have finished their tick have valid, index-consistent pools |
| LegacyScreen.ShapedReady | src/screen_task.rs:247-333 | once the notifications are handled, every device is ready to take the batch |
| LegacyScreen.ElaboratedLayout | src/screen_task.rs:169-219 | elaborating the batch does not change which swapchains each device draws on |
| LegacyScreen.LegacyScreenTask.constructor | src/screen_task.rs:73-82 | a new task has no queued creations and no devices |
| LegacyScreen.LegacyScreenTask.CreateSurface | src/screen_task.rs:84-100 | the creation is queued at the end and the caller's id is handed back; nothing else changes until the next tick |
| LegacyScreen.LegacyScreenTask.CommandBuffers | src/screen_task.rs:334-347 | lists exactly the draw buffers of devices whose pool holds surfaces and the data-copy buffers that were ever re-recorded, each once: the length is the number of the former plus the number of the latter |
| LegacyScreen.LegacyScreenTask.Install | src/screen_task.rs:332-333 | the tick's devices become the compositor's and the queued creations are drained |
| LegacyScreen.LegacyScreenTask.UpdateResources | src/screen_task.rs:247-333 | a tick: the layout ends as the notifications say, no creation stays queued, and each device ends with its old stack (empty if new) followed by the batch's ids |

## Left out

- GPU execution is not modelled. Shaders, the engine's compilation of descriptors into live objects, queue submission and image decoding are external. Decoded images are values, and the shader modules are named descriptors.
- Floating point is not modelled. The projection matrix is kept symbolic as `Projection(width, height, max)`. The `f32` casts of positions and sizes in the instance records are kept as the integers they come from.
- `features_and_limits` (both trees) is not modelled. It only names engine feature flags and a push-constant size limit.
- `src/main.rs`, `src/lib.rs` and `src/screen_task/tests.rs` are not part of this model.
- The instance-buffer collaborator (`wgpu_engine::BufferManager`) is not part of this model. It is used through the interface stated in `Buffers`, and its physical slot layout is not modelled.
- Engine.UpdateContext.Update: the engine's `update_*_descriptor` takes the id by `&mut`, and the source reads that id back after the call (`surface_info.texture_id` at src/surface_manager/mod.rs:110-117, `bind_group_layout` at src/screen_task/update_descriptors/layout_and_bind_group.rs:17-28, `depth_stencil` at src/display.rs:90-97). The engine crate is not part of this model. The model assumes the engine keeps the id it is handed: `Update` takes the id by value and the id fields are `const`, so the ids read back are the ones passed in. Re-keying, as with a re-assigned id, is not modelled.
- HashMap iteration order is a parameter. The submitted command buffers take the order as an argument. Loops over the device map are recursion over the key set, which proves the result for every order.
- The interleaving of requests across devices is not modelled in the current tree. `Screen.ScreenTask.ElaborateEvents` applies the whole batch to one device, then the next, while the source walks events first and devices inside each event. Each device's own requests and final state are the same either way, because an event only touches each device's own pool.
- The interleaving of requests across devices is likewise not modelled in the older tree's `for_each`, which applies each creation to every device in no particular order.
- `SurfacePool.SurfaceManager.CreateSurface` requires an id that is not live. The source does not check this, and a duplicate would later break the `unwrap` in `rectangle_views`; a duplicate id is evidently meant to be refused, but the code does not refuse it. The older `LegacyScreen` functions state the same freshness as the `Creatable` precondition.
- SurfacePool.SurfaceManager.RemoveSurface: the `unwrap`s on the engine's `remove_texture_view` and `remove_texture` (src/surface_manager/mod.rs:180-185) are not modelled. The model ignores both removals' results and carries on where the source would panic on an unregistered view or texture.
- The `unwrap` of `entity_device_id` is not modelled. The model requires every created swapchain to have a device (`Notified`, `Resolvable`).
- Screen.ApplyToPool: the `assert!`s on the results of `resize_surface`, `move_surface` and `remove_surface` (src/screen_task/events.rs:79, 84, 89) are not modelled. A request for an id a pool lacks is ignored by that pool: an unknown id is evidently meant to be a recoverable error. `TaskEvents.Asserted` and `TaskEvents.LateDevicePanics` state where the code as written panics (see Findings). The same holds for Screen.ApplyBatch, Screen.ElaborateOnDevice, Screen.ElaborateDevices, Screen.ScreenTask.ElaborateEvents, Screen.ScreenTask.UpdateResources and Screen.Tick, which take any batch whose creations bring fresh ids.
- The current `src/screen_task/prepare_descriptors/command_buffer.rs:28-32` passes the display position as an extra argument to `PushConstants::new`. The definition at `src/screen_task/mod.rs:24` takes only the size and the maximum surface count. The model follows the definition: `Projection` of the display size and 1024.
- `src/screen_task/task_impl.rs:37` passes the external id to `Display::new`, which takes none (`src/display.rs:16`). The model follows `Display::new`.
- `src/screen_task/task_impl.rs:26` calls an `init_device_resources` that takes the external id. The only such function in the sources (`src/prepare_descriptors/mod.rs:19-149`) takes a display position. `Devices.DeviceResources.Init` puts the first display at the origin, as the occupied arm does.
- The older `resize_surface` (`src/screen_task.rs:102-104`) is `unimplemented!()` and has no model.
- The older pool decodes files itself and panics on a source that is not a file (`src/surface_manager.rs:61-76`). The model takes the decoded image as input, and the panic is not modelled.
- The older `SurfaceInfo`'s `Arc` around the source is not modelled.
- The older `src/prepare_descriptors/bind_group.rs` and `src/prepare_descriptors/bind_group_layout.rs` are not part of this model. The older cascade uses the current tree's bind-group and bind-group-layout functions.
- LegacyDevices.LegacyDeviceResources.UploadData: the older data-copy flag is never reset, as in the source (nothing there clears it), so once set the buffer is submitted on every later tick.

## Findings

| source | as written | input that shows it | evidently intended | confidence | as-written member | corrected member |
|---|---|---|---|---|---|---|
| src/surface_manager.rs:151-164 | `remove_surface` swap-removes the id from the stack and rewrites no image index | stack [a, b, c] with image indexes 0, 1, 2; removing a moves c to position 0 but c keeps index 2, which is past the two remaining views, so c samples the wrong texture or none | the moved surface's image index is rewritten to its new position, as the current tree's reindexing does | not executed | LegacyPool.SwapRemoveStalesIndex | LegacyPool.SwapRemoveThenReindex |
| src/screen_task/events.rs:77-92 | every device's pool must hold the id of a resize, move or removal (`assert!`), but a device whose first swapchain appears after a surface was created gets an empty pool (src/screen_task/task_impl.rs:25-33) and creations reach only the pools that exist then | tick 1: a swapchain on device A and `create_surface(7)`; tick 2: a swapchain on a new device B; tick 3: `resize_surface(7)`: B's pool returns false and the assert panics | an unknown id is a recoverable error: the pool reports it and the batch goes on | not executed | TaskEvents.LateDevicePanics | Screen.ApplyToPool, TaskEvents.UnknownIdsNeverBlock |
