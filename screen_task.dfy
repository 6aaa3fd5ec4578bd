/**
  The compositor task of the current tree (`ScreenTask`): the queue of
  client requests, the per-device resources, and the three entry points the
  engine calls each tick — `update_resources` (react to display changes,
  then apply the queued requests) and `command_buffers`.

  Between ticks every pool is index-consistent: each surface's image index
  is its position in the stack, so it selects the surface's own view in the
  bind group.  Creations keep this by themselves; removals break it, and the
  rebuild cascade a structural batch triggers restores it.
*/
module Screen {
  import opened Wrappers
  import opened Engine
  import opened Surfaces
  import opened Buffers
  import opened SurfacePool
  import opened Displays
  import opened Descriptors
  import opened Devices
  import opened TaskEvents
  import opened DisplayLayout

  /**
    One event applied to one device's pool (the body of the per-device loop
    in `elaborate_events`).  The stack takes the event's step, and every
    event except a removal keeps the image indexes consistent.  A resize,
    move or removal of an id the pool does not hold is reported and
    ignored: nothing in the pool or the engine changes.
  */
  method ApplyToPool(ctx: UpdateContext, sm: SurfaceManager, e: ScreenTaskEvent)
    requires sm.Valid() && ctx.Valid() && Applicable(sm.stack, e)
    modifies sm, ctx
    ensures sm.Valid() && ctx.Valid()
    ensures sm.stack == StackStep(old(sm.stack), e)
    ensures !e.RemoveSurface? && old(IndexConsistent(sm.stack, sm.dataBuffer)) ==> IndexConsistent(sm.stack, sm.dataBuffer)
    ensures !Asserted(old(sm.stack), e) ==>
              sm.dataBuffer == old(sm.dataBuffer) && ctx.requests == old(ctx.requests) && ctx.descriptors == old(ctx.descriptors)
  {
    match e
    case CreateSurface(id, name, source, position, size) =>
      sm.CreateSurface(ctx, name, id, source, position, size);
      forall i | 0 <= i < |sm.stack| - 1 ensures sm.stack[i] in old(sm.dataBuffer.records) {
        assert sm.stack[i] == old(sm.stack)[i];
      }
    case UpdateSource(id, source) =>
      sm.UpdateSource(ctx, id, source);
    case UpdateData(id, data) =>
      sm.UpdateData(ctx, id, data);
    case ResizeSurface(id, size) =>
      var _ := sm.ResizeSurface(id, size);
    case MoveSurface(id, position) =>
      var _ := sm.MoveSurface(id, position);
    case RemoveSurface(id) =>
      var ok := sm.RemoveSurface(ctx, id);
      if !ok {
        RemoveIdAbsent(old(sm.stack), id);
      }
  }

  class ScreenTask {
    var pendingEvents: seq<ScreenTaskEvent>
    var devices: map<DeviceId, DeviceResources>

    /** The per-device resource objects. */
    ghost function Owners(): set<DeviceResources>
      reads this
    {
      OwnersOf(devices, devices.Keys)
    }

    /** The per-device pools. */
    ghost function Pools(): set<SurfaceManager>
      reads this
    {
      PoolsOf(devices, devices.Keys)
    }

    /**
      Each device's resources belong to that device and are valid.  Since a
      device's resources and pool both carry its id, different devices never
      share either.
    */
    ghost predicate Wellformed()
      reads this, Owners(), Pools()
    {
      forall k :: k in devices ==> devices[k].device == k && devices[k].Valid()
    }

    /** Between ticks, moreover, every pool is index-consistent. */
    ghost predicate Valid()
      reads this, Owners(), Pools()
    {
      && Wellformed()
      && forall k :: k in devices ==>
           IndexConsistent(devices[k].surfaceManager.stack, devices[k].surfaceManager.dataBuffer)
    }

    /** Every display of every device is on a swapchain the context knows. */
    ghost predicate DisplaysKnown(swapchains: map<SwapchainId, SwapchainDescriptor>)
      reads this, Owners()
    {
      forall k :: k in devices ==> SwapchainsKnown(devices[k].displays, swapchains)
    }

    /** `ScreenTask::new`: no queued requests and no devices yet. */
    constructor ()
      ensures Valid() && pendingEvents == [] && devices == map[]
    {
      pendingEvents := [];
      devices := map[];
    }

    /** `create_surface`: queues the creation; nothing else happens until the next tick. */
    method CreateSurface(externalId: nat, name: string, source: SurfaceSource, position: Position, size: Size)
      modifies this`pendingEvents
      ensures pendingEvents == old(pendingEvents) + [TaskEvents.CreateSurface(externalId, name, source, position, size)]
    {
      pendingEvents := pendingEvents + [TaskEvents.CreateSurface(externalId, name, source, position, size)];
    }

    /** `update_source`: queues the replacement of a surface's backing image. */
    method UpdateSource(externalId: nat, source: SurfaceSource)
      modifies this`pendingEvents
      ensures pendingEvents == old(pendingEvents) + [TaskEvents.UpdateSource(externalId, source)]
    {
      pendingEvents := pendingEvents + [TaskEvents.UpdateSource(externalId, source)];
    }

    /** `update_data`: queues new pixels for a surface. */
    method UpdateData(externalId: nat, data: seq<byte>)
      modifies this`pendingEvents
      ensures pendingEvents == old(pendingEvents) + [TaskEvents.UpdateData(externalId, data)]
    {
      pendingEvents := pendingEvents + [TaskEvents.UpdateData(externalId, data)];
    }

    /** `resize_surface`: queues a resize. */
    method ResizeSurface(externalId: nat, size: Size)
      modifies this`pendingEvents
      ensures pendingEvents == old(pendingEvents) + [TaskEvents.ResizeSurface(externalId, size)]
    {
      pendingEvents := pendingEvents + [TaskEvents.ResizeSurface(externalId, size)];
    }

    /** `move_surface`: queues a move. */
    method MoveSurface(externalId: nat, position: Position)
      modifies this`pendingEvents
      ensures pendingEvents == old(pendingEvents) + [TaskEvents.MoveSurface(externalId, position)]
    {
      pendingEvents := pendingEvents + [TaskEvents.MoveSurface(externalId, position)];
    }

    /** `remove_surface`: queues a removal. */
    method RemoveSurface(externalId: nat)
      modifies this`pendingEvents
      ensures pendingEvents == old(pendingEvents) + [TaskEvents.RemoveSurface(externalId)]
    {
      pendingEvents := pendingEvents + [TaskEvents.RemoveSurface(externalId)];
    }

    /**
      `command_buffers`: for each device, in the map's iteration order
      `order`, its draw command buffer, followed by its data-copy command
      buffer when that was re-recorded this tick.  Every device's draw buffer
      is submitted, a data-copy buffer exactly when it is due, and nothing
      else: one buffer per device plus one per due device.
    */
    function CommandBuffers(order: seq<DeviceId>): (r: seq<CommandBufferId>)
      reads this, Owners()
      requires Enumerates(order, devices.Keys)
      ensures forall k :: k in devices ==> devices[k].commandBuffer in r
      ensures forall k :: k in devices && devices[k].dataCopyCommandBufferUpdated ==> devices[k].dataCopyCommandBuffer in r
      ensures forall b :: b in r ==>
                exists k :: k in devices && (b == devices[k].commandBuffer
                                             || (devices[k].dataCopyCommandBufferUpdated && b == devices[k].dataCopyCommandBuffer))
      ensures |r| == |devices| + |set i: nat | i < |order| && devices[order[i]].dataCopyCommandBufferUpdated|
    {
      SubmittedAll(devices, order);
      SubmittedOnly(devices, order);
      SubmittedCount(devices, order);
      EnumerationSize(order, devices.Keys);
      Flatten(SubmissionsOf(devices, order))
    }

    /**
      `update_resources`, once per tick: every device's data-copy buffer is
      marked as not re-recorded, the tick's swapchain notifications are
      handled in order, and then the queued requests are elaborated.  The
      layout ends as the notifications say; a device kept from before has
      taken the batch from its old stack, and a device new this tick from
      an empty one.
    */
    method UpdateResources(ctx: UpdateContext)
      requires Valid() && ctx.Valid() && Shaped(devices, ctx, pendingEvents)
      requires Notified(ctx, LayoutOf(devices), pendingEvents)
      modifies this`devices, this`pendingEvents, Owners(), Pools(), ctx
      ensures Valid() && ctx.Valid() && pendingEvents == []
      ensures LayoutOf(devices) == LayoutAfter(old(LayoutOf(devices)), ctx.swapchainDevices, ctx.events)
      ensures forall k :: k in devices ==>
                Elaborated(devices[k], StartOf(old(devices), old(StacksOf(devices)), k, devices[k]),
                           old(pendingEvents), ctx.swapchains, LayoutOf(devices)[k])
    {
      ghost var d0, s0 := devices, StacksOf(devices);
      var result := Tick(ctx, devices, pendingEvents);
      Install(result, d0, s0, pendingEvents, ctx.swapchains);
    }

    /** The end of a tick: the devices it left and an empty queue. */
    method Install(result: map<DeviceId, DeviceResources>, ghost devices0: map<DeviceId, DeviceResources>,
                   ghost stacks0: map<DeviceId, seq<nat>>, ghost events: seq<ScreenTaskEvent>,
                   ghost swapchains: map<SwapchainId, SwapchainDescriptor>)
      requires forall k :: k in result ==>
                 result[k].device == k
                 && Elaborated(result[k], StartOf(devices0, stacks0, k, result[k]), events, swapchains, LayoutOf(result)[k])
      modifies this`devices, this`pendingEvents
      ensures devices == result && pendingEvents == [] && Valid()
      ensures LayoutOf(devices) == old(LayoutOf(result))
      ensures forall k :: k in devices ==>
                Elaborated(devices[k], StartOf(devices0, stacks0, k, devices[k]), events, swapchains, LayoutOf(devices)[k])
    {
      devices := result;
      pendingEvents := [];
      Ticked(devices0, stacks0, events, swapchains);
    }

    /** Once every device has taken the batch, the task is valid again. */
    lemma Ticked(devices0: map<DeviceId, DeviceResources>, stacks0: map<DeviceId, seq<nat>>, events: seq<ScreenTaskEvent>,
                 swapchains: map<SwapchainId, SwapchainDescriptor>)
      requires forall k :: k in devices ==>
                 devices[k].device == k
                 && Elaborated(devices[k], StartOf(devices0, stacks0, k, devices[k]), events, swapchains, LayoutOf(devices)[k])
      ensures Valid()
    {
    }

    /**
      `elaborate_events`: drains the queue and lets every device's pool take
      the whole batch, then finishes each device's tick; the cascade runs
      when the batch held a creation or a removal.  Afterwards every pool's
      stack is the batch's result, all queued writes are uploaded, and every
      pool is index-consistent again.
    */
    method ElaborateEvents(ctx: UpdateContext)
      requires Valid() && ctx.Valid() && DisplaysKnown(ctx.swapchains)
      requires forall k :: k in devices ==> BatchApplicable(devices[k].surfaceManager.stack, pendingEvents)
      modifies this`pendingEvents, Owners(), Pools(), ctx
      ensures Valid() && ctx.Valid() && DisplaysKnown(ctx.swapchains)
      ensures pendingEvents == [] && devices == old(devices) && LayoutOf(devices) == old(LayoutOf(devices))
      ensures forall k :: k in devices ==>
                Elaborated(devices[k], old(StacksOf(devices))[k], old(pendingEvents), ctx.swapchains, old(LayoutOf(devices))[k])
    {
      var events := pendingEvents;
      ghost var m0 := LayoutOf(devices);
      ghost var s0 := StacksOf(devices);
      AllReady(events, ctx.swapchains);
      ElaborateDevices(ctx, devices, devices.Keys, events, s0, m0);
      pendingEvents := [];
      AllElaborated(s0, events, ctx.swapchains, m0);
    }

    /** Between ticks, every device is ready to take a batch that applies to its stack. */
    lemma AllReady(events: seq<ScreenTaskEvent>, swapchains: map<SwapchainId, SwapchainDescriptor>)
      requires Valid() && DisplaysKnown(swapchains)
      requires forall k :: k in devices ==> BatchApplicable(devices[k].surfaceManager.stack, events)
      ensures forall k :: k in devices ==> devices[k].device == k && devices[k].surfaceManager.device == k
      ensures forall k :: k in devices.Keys ==> Ready(devices[k], StacksOf(devices)[k], events, swapchains, LayoutOf(devices)[k])
    {
    }

    /** Once every device has finished its tick, the task is valid again and its layout is the one recorded. */
    lemma AllElaborated(stacks: map<DeviceId, seq<nat>>, events: seq<ScreenTaskEvent>,
                        swapchains: map<SwapchainId, SwapchainDescriptor>, layout: Layout)
      requires layout.Keys == devices.Keys && devices.Keys <= stacks.Keys
      requires forall k :: k in devices ==> devices[k].device == k
      requires forall k :: k in devices ==> Elaborated(devices[k], stacks[k], events, swapchains, layout[k])
      ensures Valid() && DisplaysKnown(swapchains) && LayoutOf(devices) == layout
    {
      assert LayoutOf(devices) == layout;
    }
  }

  /**
    The body of `update_resources` over the device map: the reset of the
    data-copy flags, the notifications, then the batch on every device.
  */
  method Tick(ctx: UpdateContext, devices: map<DeviceId, DeviceResources>, events: seq<ScreenTaskEvent>)
    returns (result: map<DeviceId, DeviceResources>)
    requires ctx.Valid() && Shaped(devices, ctx, events) && Notified(ctx, LayoutOf(devices), events)
    modifies ctx, OwnersOf(devices, devices.Keys), PoolsOf(devices, devices.Keys)
    ensures ctx.Valid() && Descended(devices, result)
    ensures LayoutOf(result) == LayoutAfter(old(LayoutOf(devices)), ctx.swapchainDevices, ctx.events)
    ensures forall k :: k in result ==>
              result[k].device == k
              && Elaborated(result[k], StartOf(devices, old(StacksOf(devices)), k, result[k]), events, ctx.swapchains, LayoutOf(result)[k])
  {
    ghost var m0 := LayoutOf(devices);
    ghost var s0 := StacksOf(devices);
    ResetFlags(ctx, devices, events);
    result := HandleEvents(ctx, devices, events, m0, s0);
    ghost var m1 := LayoutOf(result);
    ghost var s1 := StacksOf(result);
    ShapedReady(result, ctx, events);
    ElaborateDevices(ctx, result, result.Keys, events, s1, m1);
    ElaboratedLayout(result, s1, events, ctx.swapchains, m1);
  }

  /** In a shaped map every device is ready for the batch. */
  lemma ShapedReady(devices: map<DeviceId, DeviceResources>, ctx: UpdateContext, events: seq<ScreenTaskEvent>)
    requires Shaped(devices, ctx, events)
    ensures forall k :: k in devices.Keys ==> Ready(devices[k], StacksOf(devices)[k], events, ctx.swapchains, LayoutOf(devices)[k])
  {
  }

  /** Devices that have finished their tick keep the layout they started it with. */
  lemma ElaboratedLayout(devices: map<DeviceId, DeviceResources>, stacks: map<DeviceId, seq<nat>>, events: seq<ScreenTaskEvent>,
                         swapchains: map<SwapchainId, SwapchainDescriptor>, layout: Layout)
    requires layout.Keys == devices.Keys && devices.Keys <= stacks.Keys
    requires forall k :: k in devices.Keys ==> Elaborated(devices[k], stacks[k], events, swapchains, layout[k])
    ensures LayoutOf(devices) == layout
  {
    assert LayoutOf(devices) == layout;
  }

  /** The start of `update_resources`: no device's data-copy buffer counts as re-recorded this tick yet. */
  method ResetFlags(ctx: UpdateContext, devices: map<DeviceId, DeviceResources>, ghost events: seq<ScreenTaskEvent>)
    requires Shaped(devices, ctx, events)
    modifies OwnersOf(devices, devices.Keys)`dataCopyCommandBufferUpdated
    ensures Shaped(devices, ctx, events) && LayoutOf(devices) == old(LayoutOf(devices))
    ensures forall k :: k in devices ==> !devices[k].dataCopyCommandBufferUpdated
  {
    forall k | k in devices {
      devices[k].dataCopyCommandBufferUpdated := false;
    }
  }

  /** Each device's stack. */
  ghost function StacksOf(devices: map<DeviceId, DeviceResources>): map<DeviceId, seq<nat>>
    reads PoolsOf(devices, devices.Keys)
  {
    map k | k in devices :: devices[k].surfaceManager.stack
  }

  /** The stack device `k`, now `dr`, starts the tick's batch from: its old one if it was there before, else an empty one. */
  ghost function StartOf(devices0: map<DeviceId, DeviceResources>, stacks0: map<DeviceId, seq<nat>>, k: DeviceId,
                         dr: DeviceResources): seq<nat>
  {
    if k in devices0 && devices0[k] == dr && k in stacks0 then stacks0[k] else []
  }

  /** `order` lists every element of `keys` exactly once, as a map's iteration does. */
  ghost predicate Enumerates(order: seq<DeviceId>, keys: set<DeviceId>)
  {
    && (forall k :: k in keys <==> k in order)
    && (forall i, j :: 0 <= i < j < |order| ==> order[i] != order[j])
  }

  /** An enumeration is as long as the set it enumerates. */
  lemma {:induction false} EnumerationSize(order: seq<DeviceId>, keys: set<DeviceId>)
    requires Enumerates(order, keys)
    ensures |order| == |keys|
    decreases |order|
  {
    if order != [] {
      var rest := order[1..];
      assert forall i, j :: 0 <= i < j < |rest| ==> rest[i] == order[i + 1] && rest[j] == order[j + 1];
      assert forall k :: k in rest <==> k in order && k != order[0] by {
        forall k | k in order && k != order[0] ensures k in rest {
          var i :| 0 <= i < |order| && order[i] == k;
          assert rest[i - 1] == k;
        }
        forall k | k in rest ensures k != order[0] {
          var i :| 0 <= i < |rest| && rest[i] == k;
          assert order[i + 1] == k;
        }
      }
      EnumerationSize(rest, keys - {order[0]});
    }
  }

  /** What one device hands to `command_buffers`: its draw buffer, its data-copy buffer, and whether that is due. */
  datatype Submission = Submission(draw: CommandBufferId, dataCopy: CommandBufferId, due: bool)

  /** `b` is one of the buffers `sub` contributes: the draw buffer, or the data-copy buffer when due. */
  predicate Contributes(sub: Submission, b: CommandBufferId)
  {
    b == sub.draw || (sub.due && b == sub.dataCopy)
  }

  /** The positions of `subs` whose data-copy buffer is due. */
  function DuePositions(subs: seq<Submission>): set<nat>
  {
    set i: nat | i < |subs| && subs[i].due
  }

  /**
    The `map(..).flatten()` of `command_buffers`: each device's draw buffer
    followed, when due, by its data-copy buffer.
  */
  function Flatten(subs: seq<Submission>): seq<CommandBufferId>
    decreases |subs|
  {
    if subs == [] then []
    else
      var last := subs[|subs| - 1];
      Flatten(subs[..|subs| - 1]) + [last.draw] + (if last.due then [last.dataCopy] else [])
  }

  /** The list grows by the last device's buffers. */
  lemma FlattenLast(subs: seq<Submission>)
    requires subs != []
    ensures var last := subs[|subs| - 1];
            Flatten(subs) == Flatten(subs[..|subs| - 1]) + [last.draw] + (if last.due then [last.dataCopy] else [])
  {
  }

  /** Every draw buffer and every due data-copy buffer is listed. */
  lemma {:induction false} FlattenListsAll(subs: seq<Submission>)
    ensures forall i :: 0 <= i < |subs| ==> subs[i].draw in Flatten(subs)
    ensures forall i :: 0 <= i < |subs| && subs[i].due ==> subs[i].dataCopy in Flatten(subs)
    decreases |subs|
  {
    if subs != [] {
      var init := subs[..|subs| - 1];
      FlattenListsAll(init);
      FlattenLast(subs);
      forall i | 0 <= i < |subs|
        ensures subs[i].draw in Flatten(subs) && (subs[i].due ==> subs[i].dataCopy in Flatten(subs))
      {
        if i < |init| {
          assert init[i] == subs[i];
        }
      }
    }
  }

  /** Nothing is listed that no device contributes. */
  lemma {:induction false} FlattenListsOnly(subs: seq<Submission>)
    ensures forall b :: b in Flatten(subs) ==> exists i :: 0 <= i < |subs| && Contributes(subs[i], b)
    decreases |subs|
  {
    if subs != [] {
      var init := subs[..|subs| - 1];
      FlattenListsOnly(init);
      FlattenLast(subs);
      forall b | b in Flatten(subs) ensures exists i :: 0 <= i < |subs| && Contributes(subs[i], b) {
        if b in Flatten(init) {
          var i :| 0 <= i < |init| && Contributes(init[i], b);
          assert init[i] == subs[i];
        } else {
          assert Contributes(subs[|subs| - 1], b);
        }
      }
    }
  }

  /** One buffer per device plus one per due device. */
  lemma {:induction false} FlattenLength(subs: seq<Submission>)
    ensures |Flatten(subs)| == |subs| + |DuePositions(subs)|
    decreases |subs|
  {
    if subs != [] {
      var init := subs[..|subs| - 1];
      FlattenLength(init);
      FlattenLast(subs);
      assert DuePositions(subs) == DuePositions(init) + (if subs[|subs| - 1].due then {|subs| - 1} else {}) by {
        forall i: nat | i < |init| ensures init[i] == subs[i] { }
      }
    }
  }

  /** The submission of one device, as its fields are now. */
  function SubmissionOf(dr: DeviceResources): (r: Submission)
    reads dr
  {
    Submission(dr.commandBuffer, dr.dataCopyCommandBuffer, dr.dataCopyCommandBufferUpdated)
  }

  /** The submissions of the devices in `order`, in that order. */
  function SubmissionsOf(devices: map<DeviceId, DeviceResources>, order: seq<DeviceId>): (r: seq<Submission>)
    requires forall i :: 0 <= i < |order| ==> order[i] in devices
    reads OwnersOf(devices, devices.Keys)
    ensures |r| == |order| && forall i :: 0 <= i < |order| ==> r[i] == SubmissionOf(devices[order[i]])
  {
    seq(|order|, i requires 0 <= i < |order| && order[i] in devices reads OwnersOf(devices, devices.Keys) => SubmissionOf(devices[order[i]]))
  }

  /** `command_buffers` lists every device's draw buffer, and its data-copy buffer when due. */
  lemma SubmittedAll(devices: map<DeviceId, DeviceResources>, order: seq<DeviceId>)
    requires forall k :: k in devices <==> k in order
    ensures var r := Flatten(SubmissionsOf(devices, order));
            && (forall k :: k in devices ==> devices[k].commandBuffer in r)
            && (forall k :: k in devices && devices[k].dataCopyCommandBufferUpdated ==> devices[k].dataCopyCommandBuffer in r)
  {
    var subs := SubmissionsOf(devices, order);
    FlattenListsAll(subs);
    forall k | k in devices
      ensures devices[k].commandBuffer in Flatten(subs)
      ensures devices[k].dataCopyCommandBufferUpdated ==> devices[k].dataCopyCommandBuffer in Flatten(subs)
    {
      var i :| 0 <= i < |order| && order[i] == k;
      assert subs[i] == SubmissionOf(devices[k]);
    }
  }

  /** Every buffer `command_buffers` lists is a device's draw buffer or its due data-copy buffer. */
  lemma SubmittedOnly(devices: map<DeviceId, DeviceResources>, order: seq<DeviceId>)
    requires forall i :: 0 <= i < |order| ==> order[i] in devices
    ensures forall b :: b in Flatten(SubmissionsOf(devices, order)) ==>
              exists k :: k in devices && (b == devices[k].commandBuffer
                                           || (devices[k].dataCopyCommandBufferUpdated && b == devices[k].dataCopyCommandBuffer))
  {
    var subs := SubmissionsOf(devices, order);
    FlattenListsOnly(subs);
    forall b | b in Flatten(subs)
      ensures exists k :: k in devices && (b == devices[k].commandBuffer
                                           || (devices[k].dataCopyCommandBufferUpdated && b == devices[k].dataCopyCommandBuffer))
    {
      var i :| 0 <= i < |subs| && Contributes(subs[i], b);
      assert subs[i] == SubmissionOf(devices[order[i]]);
    }
  }

  /** How many buffers `command_buffers` lists: one per device plus one per due device. */
  lemma SubmittedCount(devices: map<DeviceId, DeviceResources>, order: seq<DeviceId>)
    requires forall i :: 0 <= i < |order| ==> order[i] in devices
    ensures |Flatten(SubmissionsOf(devices, order))|
            == |order| + |set i: nat | i < |order| && devices[order[i]].dataCopyCommandBufferUpdated|
  {
    var subs := SubmissionsOf(devices, order);
    FlattenLength(subs);
    assert DuePositions(subs) == set i: nat | i < |order| && devices[order[i]].dataCopyCommandBufferUpdated by {
      forall i: nat | i < |order| ensures subs[i].due == devices[order[i]].dataCopyCommandBufferUpdated {
        assert subs[i] == SubmissionOf(devices[order[i]]);
      }
    }
  }

  /** The resource objects of the devices in `keys`. */
  ghost function OwnersOf(ds: map<DeviceId, DeviceResources>, keys: set<DeviceId>): set<DeviceResources>
  {
    set k | k in ds && k in keys :: ds[k]
  }

  /** The pools of the devices in `keys`. */
  ghost function PoolsOf(ds: map<DeviceId, DeviceResources>, keys: set<DeviceId>): set<SurfaceManager>
  {
    set k | k in ds && k in keys :: ds[k].surfaceManager
  }

  /**
    The per-device loop of `elaborate_events` over the devices in `keys`, in
    no particular order: each takes the batch and finishes its tick.
  */
  method ElaborateDevices(ctx: UpdateContext, devices: map<DeviceId, DeviceResources>, keys: set<DeviceId>,
                          events: seq<ScreenTaskEvent>, ghost stacks: map<DeviceId, seq<nat>>, ghost layout: Layout)
    requires ctx.Valid() && keys <= devices.Keys && keys <= stacks.Keys && keys <= layout.Keys
    requires forall k :: k in devices ==> devices[k].device == k && devices[k].surfaceManager.device == k
    requires forall k :: k in keys ==> Ready(devices[k], stacks[k], events, ctx.swapchains, layout[k])
    modifies ctx, OwnersOf(devices, keys), PoolsOf(devices, keys)
    ensures ctx.Valid()
    ensures forall k :: k in keys ==> Elaborated(devices[k], stacks[k], events, ctx.swapchains, layout[k])
    decreases keys
  {
    if keys != {} {
      var k :| k in keys;
      var dr := devices[k];
      assert forall j :: j in devices && j != k ==> devices[j] != dr && devices[j].surfaceManager != dr.surfaceManager;
      ElaborateOnDevice(ctx, dr, events, stacks[k], layout[k]);
      assert dr !in OwnersOf(devices, keys - {k}) && dr.surfaceManager !in PoolsOf(devices, keys - {k});
      ElaborateDevices(ctx, devices, keys - {k}, events, stacks, layout);
    }
  }

  /**
    Device `dr` can take the batch `events` at the start of a tick: it is
    valid and index-consistent, its stack is `stack`, every event applies in
    turn, every display is on a known swapchain, and the displays are on
    the swapchains `shown`.
  */
  ghost predicate Ready(dr: DeviceResources, stack: seq<nat>, events: seq<ScreenTaskEvent>,
                        swapchains: map<SwapchainId, SwapchainDescriptor>, shown: seq<SwapchainId>)
    reads dr, dr.surfaceManager
  {
    && dr.Valid()
    && dr.surfaceManager.stack == stack
    && BatchApplicable(stack, events)
    && IndexConsistent(dr.surfaceManager.stack, dr.surfaceManager.dataBuffer)
    && SwapchainsKnown(dr.displays, swapchains)
    && SwapchainsOf(dr.displays) == shown
  }

  /**
    Device `dr` has taken the batch `events` from the stack `stack0` and
    finished its tick: its stack is the batch's result, nothing is left to
    upload, the pool is index-consistent, and every display is still known
    and on the same swapchain as before.
  */
  ghost predicate Elaborated(dr: DeviceResources, stack0: seq<nat>, events: seq<ScreenTaskEvent>,
                             swapchains: map<SwapchainId, SwapchainDescriptor>, shown: seq<SwapchainId>)
    reads dr, dr.surfaceManager
  {
    && dr.Valid()
    && dr.surfaceManager.stack == StackAfter(stack0, events)
    && dr.surfaceManager.dataBuffer.pending == []
    && IndexConsistent(dr.surfaceManager.stack, dr.surfaceManager.dataBuffer)
    && SwapchainsKnown(dr.displays, swapchains)
    && SwapchainsOf(dr.displays) == shown
  }

  /**
    One device's part of `elaborate_events`: every event of the batch, in
    order, applied to the device's pool, then the end of the tick.  The
    displays are refreshed exactly when the batch was structural, and the
    data-copy buffer once due stays due.
  */
  method ElaborateOnDevice(ctx: UpdateContext, dr: DeviceResources, events: seq<ScreenTaskEvent>, ghost stack: seq<nat>,
                           ghost shown: seq<SwapchainId>)
    requires ctx.Valid() && Ready(dr, stack, events, ctx.swapchains, shown)
    modifies dr`displays, dr`dataCopyCommandBufferUpdated, dr.surfaceManager, ctx
    ensures ctx.Valid() && Elaborated(dr, stack, events, ctx.swapchains, shown)
    ensures dr.displays == if AnyStructural(events) then Refreshed(old(dr.displays), |dr.surfaceManager.stack|) else old(dr.displays)
    ensures old(dr.dataCopyCommandBufferUpdated) ==> dr.dataCopyCommandBufferUpdated
    ensures AnyStructural(events) && dr.surfaceManager.stack != [] ==> dr.dataCopyCommandBufferUpdated
  {
    var structural := ApplyBatch(ctx, dr.surfaceManager, events);
    dr.FinishTick(ctx, structural);
    assert SwapchainsOf(dr.displays) == SwapchainsOf(old(dr.displays));
  }

  /**
    The event half of `elaborate_events` for one pool: every event of the
    batch in order.  The result says whether the batch was structural, and a
    batch that was not leaves the pool index-consistent.
  */
  method ApplyBatch(ctx: UpdateContext, sm: SurfaceManager, events: seq<ScreenTaskEvent>) returns (structural: bool)
    requires sm.Valid() && ctx.Valid() && BatchApplicable(sm.stack, events)
    modifies sm, ctx
    ensures sm.Valid() && ctx.Valid()
    ensures sm.stack == StackAfter(old(sm.stack), events)
    ensures structural == AnyStructural(events)
    ensures !structural && old(IndexConsistent(sm.stack, sm.dataBuffer)) ==> IndexConsistent(sm.stack, sm.dataBuffer)
    decreases |events|
  {
    if events == [] {
      structural := false;
    } else {
      var e := events[0];
      ApplyToPool(ctx, sm, e);
      var later := ApplyBatch(ctx, sm, events[1..]);
      AnyStructuralCons(events);
      structural := Structural(e) || later;
    }
  }

  /**
    The displays of device `k`: there is at least one, and each is on a
    swapchain the context knows and that belongs to `k`.
  */
  predicate Attached(ds: seq<DisplayResources>, k: DeviceId, swapchains: map<SwapchainId, SwapchainDescriptor>,
                     swapchainDevices: map<SwapchainId, DeviceId>)
  {
    && ds != []
    && SwapchainsKnown(ds, swapchains)
    && forall i :: 0 <= i < |ds| ==>
         ds[i].display.swapchain in swapchainDevices && swapchainDevices[ds[i].display.swapchain] == k
  }

  /** Each device's resources and pool carry its own id, so no two devices share either. */
  predicate Owned(devices: map<DeviceId, DeviceResources>)
  {
    forall k :: k in devices ==> devices[k].device == k && devices[k].surfaceManager.device == k
  }

  /** Device `k`'s pool while a tick's notifications are handled: valid, index-consistent, and able to take the batch. */
  ghost predicate PoolReady(sm: SurfaceManager, events: seq<ScreenTaskEvent>)
    reads sm
  {
    && sm.Valid()
    && IndexConsistent(sm.stack, sm.dataBuffer)
    && BatchApplicable(sm.stack, events)
  }

  /** Every pool is ready. */
  ghost predicate PoolsReady(devices: map<DeviceId, DeviceResources>, events: seq<ScreenTaskEvent>)
    reads PoolsOf(devices, devices.Keys)
  {
    forall k :: k in devices ==> PoolReady(devices[k].surfaceManager, events)
  }

  /** Every device is attached to its displays. */
  ghost predicate DisplaysReady(devices: map<DeviceId, DeviceResources>, ctx: UpdateContext)
    reads OwnersOf(devices, devices.Keys)
  {
    forall k :: k in devices ==> Attached(devices[k].displays, k, ctx.swapchains, ctx.swapchainDevices)
  }

  /** Every display's depth texture and view are registered in `descriptors`. */
  ghost predicate Registered(devices: map<DeviceId, DeviceResources>, descriptors: map<nat, Descriptor>)
    reads OwnersOf(devices, devices.Keys)
  {
    forall k :: k in devices ==> DepthRegistered(devices[k].displays, descriptors)
  }

  /** The device map between notifications: owned, every pool ready, every device attached and registered. */
  ghost predicate Shaped(devices: map<DeviceId, DeviceResources>, ctx: UpdateContext, events: seq<ScreenTaskEvent>)
    reads OwnersOf(devices, devices.Keys), PoolsOf(devices, devices.Keys), ctx
  {
    && Owned(devices)
    && PoolsReady(devices, events)
    && DisplaysReady(devices, ctx)
    && Registered(devices, ctx.descriptors)
  }

  /** The swapchains each device draws on. */
  ghost function LayoutOf(devices: map<DeviceId, DeviceResources>): Layout
    reads OwnersOf(devices, devices.Keys)
  {
    map k | k in devices :: SwapchainsOf(devices[k].displays)
  }

  /** The vacant arm of `SwapchainCreated`: the device's resources, with one display on `swapchain` at the origin. */
  method NewDevice(ctx: UpdateContext, device: DeviceId, swapchain: SwapchainId, ghost events: seq<ScreenTaskEvent>)
    returns (dr: DeviceResources)
    requires ctx.Valid() && swapchain in ctx.swapchains
    requires swapchain in ctx.swapchainDevices && ctx.swapchainDevices[swapchain] == device
    requires BatchApplicable([], events)
    modifies ctx
    ensures ctx.Valid() && fresh(dr) && fresh(dr.surfaceManager)
    ensures dr.device == device && dr.surfaceManager.device == device
    ensures PoolReady(dr.surfaceManager, events) && dr.surfaceManager.stack == []
    ensures Attached(dr.displays, device, ctx.swapchains, ctx.swapchainDevices)
    ensures SwapchainsOf(dr.displays) == [swapchain]
    ensures old(ctx.descriptors).Keys <= ctx.descriptors.Keys && DepthRegistered(dr.displays, ctx.descriptors)
  {
    dr := new DeviceResources.Init(ctx, device, swapchain, Point(0, 0));
    assert SwapchainsOf(dr.displays) == [swapchain];
  }

  /** The occupied arm of `SwapchainCreated`: one more display, on `swapchain`, after the others. */
  method AttachTo(ctx: UpdateContext, dr: DeviceResources, swapchain: SwapchainId)
    requires ctx.Valid() && swapchain in ctx.swapchains
    requires swapchain in ctx.swapchainDevices && ctx.swapchainDevices[swapchain] == dr.device
    requires Attached(dr.displays, dr.device, ctx.swapchains, ctx.swapchainDevices) && DepthRegistered(dr.displays, ctx.descriptors)
    modifies dr`displays, ctx
    ensures ctx.Valid()
    ensures Attached(dr.displays, dr.device, ctx.swapchains, ctx.swapchainDevices)
    ensures SwapchainsOf(dr.displays) == SwapchainsOf(old(dr.displays)) + [swapchain]
    ensures old(ctx.descriptors).Keys <= ctx.descriptors.Keys && DepthRegistered(dr.displays, ctx.descriptors)
  {
    ghost var before := dr.displays;
    dr.AttachDisplay(ctx, swapchain);
    assert dr.displays == before + [dr.displays[|before|]];
    assert SwapchainsOf(dr.displays) == SwapchainsOf(before) + [swapchain];
  }

  /** The occupied arm of `SwapchainCreated` over the whole map: only the owner's display list grows. */
  method CreatedOnKnown(ctx: UpdateContext, devices: map<DeviceId, DeviceResources>, ghost events: seq<ScreenTaskEvent>,
                        swapchain: SwapchainId)
    requires ctx.Valid() && Owned(devices) && PoolsReady(devices, events)
    requires DisplaysReady(devices, ctx) && Registered(devices, ctx.descriptors)
    requires swapchain in ctx.swapchains && swapchain in ctx.swapchainDevices
    requires ctx.swapchainDevices[swapchain] in devices
    modifies ctx, OwnersOf(devices, devices.Keys)
    ensures ctx.Valid() && PoolsReady(devices, events)
    ensures DisplaysReady(devices, ctx) && Registered(devices, ctx.descriptors)
    ensures LayoutOf(devices) == old(LayoutOf(devices))[ctx.swapchainDevices[swapchain] :=
              old(LayoutOf(devices))[ctx.swapchainDevices[swapchain]] + [swapchain]]
  {
    var device := ctx.swapchainDevices[swapchain];
    ghost var d0 := ctx.descriptors;
    ghost var m0 := LayoutOf(devices);
    var dr := devices[device];
    ghost var m1 := m0[device := m0[device] + [swapchain]];
    AttachTo(ctx, dr, swapchain);
    forall j | j in devices
      ensures DepthRegistered(devices[j].displays, ctx.descriptors) && SwapchainsOf(devices[j].displays) == m1[j]
    {
      if j != device {
        assert devices[j] != dr;
        assert DepthRegistered(devices[j].displays, d0);
      }
    }
    assert LayoutOf(devices) == m1;
  }

  /** The vacant arm of `SwapchainCreated` over the whole map: a new entry, the rest untouched. */
  method CreatedOnNew(ctx: UpdateContext, devices: map<DeviceId, DeviceResources>, ghost events: seq<ScreenTaskEvent>,
                      swapchain: SwapchainId) returns (result: map<DeviceId, DeviceResources>)
    requires ctx.Valid() && Owned(devices) && PoolsReady(devices, events)
    requires DisplaysReady(devices, ctx) && Registered(devices, ctx.descriptors)
    requires swapchain in ctx.swapchains && swapchain in ctx.swapchainDevices
    requires ctx.swapchainDevices[swapchain] !in devices && BatchApplicable([], events)
    modifies ctx
    ensures ctx.Valid() && Owned(result) && PoolsReady(result, events)
    ensures DisplaysReady(result, ctx) && Registered(result, ctx.descriptors)
    ensures result.Keys == devices.Keys + {ctx.swapchainDevices[swapchain]}
    ensures forall k :: k in devices ==> result[k] == devices[k]
    ensures result[ctx.swapchainDevices[swapchain]].surfaceManager.stack == []
    ensures fresh(result[ctx.swapchainDevices[swapchain]]) && fresh(result[ctx.swapchainDevices[swapchain]].surfaceManager)
    ensures LayoutOf(result) == old(LayoutOf(devices))[ctx.swapchainDevices[swapchain] := [swapchain]]
  {
    var device := ctx.swapchainDevices[swapchain];
    ghost var d0 := ctx.descriptors;
    ghost var m0 := LayoutOf(devices);
    var dr := NewDevice(ctx, device, swapchain, events);
    assert LayoutOf(devices) == m0;
    assert SwapchainsOf(dr.displays) == [swapchain];
    RegisteredMonotone(devices, d0, ctx.descriptors);
    result := devices[device := dr];
    InsertDevice(devices, device, dr, ctx, events);
  }

  /** Registration only grows, so displays registered before stay registered. */
  lemma RegisteredMonotone(devices: map<DeviceId, DeviceResources>, d0: map<nat, Descriptor>, d1: map<nat, Descriptor>)
    requires d0.Keys <= d1.Keys && Registered(devices, d0)
    ensures Registered(devices, d1)
  {
    forall k | k in devices ensures DepthRegistered(devices[k].displays, d1) {
      assert DepthRegistered(devices[k].displays, d0);
    }
  }

  /** Entering a ready, attached and registered device keeps the map in shape and extends the layout by its displays. */
  lemma InsertDevice(devices: map<DeviceId, DeviceResources>, k: DeviceId, dr: DeviceResources, ctx: UpdateContext,
                     events: seq<ScreenTaskEvent>)
    requires Owned(devices) && PoolsReady(devices, events)
    requires DisplaysReady(devices, ctx) && Registered(devices, ctx.descriptors)
    requires dr.device == k && dr.surfaceManager.device == k && PoolReady(dr.surfaceManager, events)
    requires Attached(dr.displays, k, ctx.swapchains, ctx.swapchainDevices) && DepthRegistered(dr.displays, ctx.descriptors)
    ensures Owned(devices[k := dr]) && PoolsReady(devices[k := dr], events)
    ensures DisplaysReady(devices[k := dr], ctx) && Registered(devices[k := dr], ctx.descriptors)
    ensures LayoutOf(devices[k := dr]) == LayoutOf(devices)[k := SwapchainsOf(dr.displays)]
  {
  }

  /**
    The `SwapchainCreated` arm of `update_resources`: the swapchain's device
    gets its resources with a first display on it if it had none, and
    otherwise one more display on it.  No pool changes.
  */
  method HandleCreated(ctx: UpdateContext, devices: map<DeviceId, DeviceResources>, ghost events: seq<ScreenTaskEvent>,
                       e: ResourceEvent) returns (result: map<DeviceId, DeviceResources>)
    requires ctx.Valid() && Shaped(devices, ctx, events)
    requires e.SwapchainCreated? && e.swapchain in ctx.swapchains && e.swapchain in ctx.swapchainDevices
    requires ctx.swapchainDevices[e.swapchain] !in devices ==> BatchApplicable([], events)
    modifies ctx, OwnersOf(devices, devices.Keys)
    ensures ctx.Valid() && Shaped(result, ctx, events) && Descended(devices, result)
    ensures forall k :: k in result && !(k in devices && result[k] == devices[k]) ==> result[k].surfaceManager.stack == []
    ensures LayoutOf(result) == LayoutStep(old(LayoutOf(devices)), ctx.swapchainDevices, e)
  {
    var device := ctx.swapchainDevices[e.swapchain];
    if device in devices {
      CreatedOnKnown(ctx, devices, events, e.swapchain);
      result := devices;
    } else {
      result := CreatedOnNew(ctx, devices, events, e.swapchain);
      assert [] + [e.swapchain] == [e.swapchain];
    }
  }

  /**
    Dropping the first display on a swapchain drops that swapchain's first
    occurrence from the device's swapchains, and there is such a display
    exactly when the swapchain is among them.
  */
  lemma SwapchainsWithout(ds: seq<DisplayResources>, sc: SwapchainId)
    ensures SwapchainsOf(WithoutDisplayOn(ds, sc)) == RemoveFirst(SwapchainsOf(ds), sc)
    ensures FirstOn(ds, sc).Some? <==> sc in SwapchainsOf(ds)
  {
    var s := SwapchainsOf(ds);
    match FirstOn(ds, sc)
    case None =>
      RemoveFirstAbsent(s, sc);
    case Some(i) =>
      assert s[i] == sc;
      assert sc !in s[..i] by {
        forall k | 0 <= k < i ensures s[..i][k] != sc {
          assert s[..i][k] == s[k];
        }
      }
      RemoveFirstAt(s, sc, i);
      var r := ds[..i] + ds[i + 1..];
      assert SwapchainsOf(r) == s[..i] + s[i + 1..];
  }

  /**
    The displays `ds` of device `k` after a notification: attached, with
    their depth resources among the keys of `descriptors`, and on the
    swapchains `s` in order.
  */
  predicate Settled(ds: seq<DisplayResources>, k: DeviceId, swapchains: map<SwapchainId, SwapchainDescriptor>,
                    swapchainDevices: map<SwapchainId, DeviceId>, descriptors: map<nat, Descriptor>, s: seq<SwapchainId>)
  {
    && SwapchainsOf(ds) == s
    && Attached(ds, k, swapchains, swapchainDevices)
    && DepthRegistered(ds, descriptors)
  }

  /**
    `kept` is what the `retain` of `SwapchainDestroyed` leaves of the devices
    in `keys`, whose swapchains were given by `m0`: those that did not lose
    their last display, each settled on its swapchains less the first
    occurrence of `swapchain`.
  */
  ghost predicate RetainedOn(devices: map<DeviceId, DeviceResources>, keys: set<DeviceId>, kept: map<DeviceId, DeviceResources>,
                             ctx: UpdateContext, swapchain: SwapchainId, m0: Layout, d0: map<nat, Descriptor>)
    reads OwnersOf(devices, keys)
  {
    && keys <= devices.Keys && keys <= m0.Keys && kept.Keys <= keys
    && (forall k :: k in keys ==> (k in kept <==> swapchain !in m0[k] || |m0[k]| > 1))
    && forall k :: k in kept ==>
         kept[k] == devices[k]
         && Settled(devices[k].displays, k, ctx.swapchains, ctx.swapchainDevices, d0, RemoveFirst(m0[k], swapchain))
  }

  /** One device's part of the `retain`: its first display on `swapchain` goes, and it is kept unless that was its last. */
  method DetachFrom(ctx: UpdateContext, dr: DeviceResources, k: DeviceId, swapchain: SwapchainId,
                    ghost s0: seq<SwapchainId>, ghost d0: map<nat, Descriptor>) returns (keep: bool)
    requires ctx.Valid() && ctx.descriptors.Keys == d0.Keys
    requires Settled(dr.displays, k, ctx.swapchains, ctx.swapchainDevices, d0, s0)
    modifies dr`displays, ctx
    ensures ctx.Valid() && ctx.descriptors.Keys == d0.Keys
    ensures keep == (swapchain !in s0 || |s0| > 1)
    ensures keep ==> Settled(dr.displays, k, ctx.swapchains, ctx.swapchainDevices, d0, RemoveFirst(s0, swapchain))
  {
    ghost var before := dr.displays;
    keep := dr.DetachDisplay(ctx, swapchain);
    SwapchainsWithout(before, swapchain);
    WithoutDisplayOnProperties(before, swapchain, ctx.swapchains, d0);
  }

  /**
    The `retain` of `SwapchainDestroyed` over the devices in `keys`, in no
    particular order: each drops its first display on `swapchain`, and the
    devices kept are those that did not just lose their last display.
    Registration is stated against `d0`, whose keys the context keeps.
  */
  method RetainDevices(ctx: UpdateContext, devices: map<DeviceId, DeviceResources>, keys: set<DeviceId>,
                       swapchain: SwapchainId, ghost m0: Layout, ghost d0: map<nat, Descriptor>)
    returns (kept: map<DeviceId, DeviceResources>)
    requires ctx.Valid() && keys <= devices.Keys && keys <= m0.Keys && Owned(devices)
    requires ctx.descriptors.Keys == d0.Keys
    requires forall k :: k in keys ==> Settled(devices[k].displays, k, ctx.swapchains, ctx.swapchainDevices, d0, m0[k])
    modifies ctx, OwnersOf(devices, keys)
    ensures ctx.Valid() && ctx.descriptors.Keys == d0.Keys
    ensures RetainedOn(devices, keys, kept, ctx, swapchain, m0, d0)
    decreases keys
  {
    if keys == {} {
      kept := map[];
    } else {
      var k :| k in keys;
      var dr := devices[k];
      assert forall j :: j in devices && j != k ==> devices[j] != dr;
      var keep := DetachFrom(ctx, dr, k, swapchain, m0[k], d0);
      assert dr !in OwnersOf(devices, keys - {k});
      var rest := RetainDevices(ctx, devices, keys - {k}, swapchain, m0, d0);
      kept := if keep then rest[k := dr] else rest;
    }
  }

  /**
    The `SwapchainDestroyed` arm of `update_resources`: the device showing
    the swapchain loses its first display on it and is dropped when that was
    its last; the others are unchanged.  No pool changes.
  */
  method HandleDestroyed(ctx: UpdateContext, devices: map<DeviceId, DeviceResources>, ghost events: seq<ScreenTaskEvent>,
                         e: ResourceEvent) returns (result: map<DeviceId, DeviceResources>)
    requires ctx.Valid() && Shaped(devices, ctx, events)
    requires e.SwapchainDestroyed?
    modifies ctx, OwnersOf(devices, devices.Keys)
    ensures ctx.Valid() && Shaped(result, ctx, events)
    ensures result.Keys <= devices.Keys
    ensures forall k :: k in result ==> result[k] == devices[k]
    ensures LayoutOf(result) == LayoutStep(old(LayoutOf(devices)), ctx.swapchainDevices, e)
  {
    ghost var m0 := LayoutOf(devices);
    ghost var d0 := ctx.descriptors;
    AllSettled(devices, ctx, events);
    result := RetainDevices(ctx, devices, devices.Keys, e.swapchain, m0, d0);
    Retained(ctx, devices, result, events, e.swapchain, m0, d0);
  }

  /** In a shaped map every device is settled on its own swapchains. */
  lemma AllSettled(devices: map<DeviceId, DeviceResources>, ctx: UpdateContext, events: seq<ScreenTaskEvent>)
    requires Shaped(devices, ctx, events)
    ensures forall k :: k in devices.Keys ==>
              Settled(devices[k].displays, k, ctx.swapchains, ctx.swapchainDevices, ctx.descriptors, LayoutOf(devices)[k])
  {
  }

  /** What `RetainDevices` leaves is a map in shape whose layout is the destroy step's. */
  lemma Retained(ctx: UpdateContext, devices: map<DeviceId, DeviceResources>, result: map<DeviceId, DeviceResources>,
                 events: seq<ScreenTaskEvent>, swapchain: SwapchainId, m0: Layout, d0: map<nat, Descriptor>)
    requires Owned(devices) && PoolsReady(devices, events) && m0.Keys == devices.Keys
    requires ctx.descriptors.Keys == d0.Keys && RetainedOn(devices, devices.Keys, result, ctx, swapchain, m0, d0)
    ensures Shaped(result, ctx, events)
    ensures result.Keys <= devices.Keys && forall k :: k in result ==> result[k] == devices[k]
    ensures LayoutOf(result) == LayoutStep(m0, ctx.swapchainDevices, SwapchainDestroyed(swapchain))
  {
    ghost var m1 := LayoutStep(m0, ctx.swapchainDevices, SwapchainDestroyed(swapchain));
    forall k | k in result
      ensures SwapchainsOf(result[k].displays) == m1[k] && DepthRegistered(result[k].displays, ctx.descriptors)
    {
      assert DepthRegistered(result[k].displays, d0);
    }
    assert LayoutOf(result) == m1;
  }

  /** A device settled on swapchains of its own has no display on a swapchain of another device. */
  lemma NotOnOthers(ds: seq<DisplayResources>, k: DeviceId, swapchains: map<SwapchainId, SwapchainDescriptor>,
                    swapchainDevices: map<SwapchainId, DeviceId>, d0: map<nat, Descriptor>, s: seq<SwapchainId>,
                    swapchain: SwapchainId)
    requires Settled(ds, k, swapchains, swapchainDevices, d0, s) && swapchain in swapchains
    requires swapchain in swapchainDevices && swapchainDevices[swapchain] != k
    ensures swapchain !in s && ResizedOn(ds, swapchain, swapchains) == ds
  {
    SwapchainsWithout(ds, swapchain);
  }

  /** One device's part of the `find_map`: its first display on `swapchain`, if any, takes the swapchain's size. */
  method ResizeOn(ctx: UpdateContext, dr: DeviceResources, k: DeviceId, swapchain: SwapchainId,
                  ghost s0: seq<SwapchainId>, ghost d0: map<nat, Descriptor>) returns (found: bool)
    requires ctx.Valid() && ctx.descriptors.Keys == d0.Keys && swapchain in ctx.swapchains
    requires Settled(dr.displays, k, ctx.swapchains, ctx.swapchainDevices, d0, s0)
    modifies dr`displays, ctx
    ensures ctx.Valid() && ctx.descriptors.Keys == d0.Keys
    ensures found == (swapchain in s0)
    ensures found ==> swapchain in ctx.swapchainDevices && ctx.swapchainDevices[swapchain] == k
    ensures dr.displays == ResizedOn(old(dr.displays), swapchain, ctx.swapchains)
    ensures Settled(dr.displays, k, ctx.swapchains, ctx.swapchainDevices, d0, s0)
  {
    ghost var before := dr.displays;
    assert DepthRegistered(before, ctx.descriptors) by {
      assert DepthRegistered(before, d0);
    }
    found := dr.ResizeDisplay(ctx, swapchain);
    SwapchainsWithout(before, swapchain);
    ResizedOnProperties(before, swapchain, ctx.swapchains, d0);
    if found {
      var i := FirstOn(before, swapchain).value;
      assert before[i].display.swapchain == swapchain;
    }
  }

  /**
    The `find_map` of `SwapchainUpdated` over the devices in `keys`, in no
    particular order, stopping at the first device that shows the
    swapchain.  Each device ends with its first display on `swapchain`
    resized; since a swapchain's displays are all on its own device, the
    devices never visited have none to resize.
  */
  method ResizeDevices(ctx: UpdateContext, devices: map<DeviceId, DeviceResources>, keys: set<DeviceId>,
                       swapchain: SwapchainId, ghost m0: Layout, ghost d0: map<nat, Descriptor>,
                       ghost before: map<DeviceId, seq<DisplayResources>>) returns (found: bool)
    requires ctx.Valid() && ctx.descriptors.Keys == d0.Keys && swapchain in ctx.swapchains
    requires keys <= devices.Keys && keys <= m0.Keys && keys <= before.Keys && Owned(devices)
    requires forall k :: k in keys ==>
               devices[k].displays == before[k]
               && Settled(before[k], k, ctx.swapchains, ctx.swapchainDevices, d0, m0[k])
    modifies ctx, OwnersOf(devices, keys)
    ensures ctx.Valid() && ctx.descriptors.Keys == d0.Keys
    ensures ResizedAcross(devices, keys, ctx, swapchain, m0, d0, before)
    decreases keys
  {
    if keys == {} {
      found := false;
    } else {
      var k :| k in keys;
      var dr := devices[k];
      assert forall j :: j in devices && j != k ==> devices[j] != dr;
      found := ResizeOn(ctx, dr, k, swapchain, m0[k], d0);
      assert dr !in OwnersOf(devices, keys - {k});
      if !found {
        found := ResizeDevices(ctx, devices, keys - {k}, swapchain, m0, d0, before);
      } else {
        forall j | j in keys && j != k
          ensures devices[j].displays == ResizedOn(before[j], swapchain, ctx.swapchains)
        {
          NotOnOthers(before[j], j, ctx.swapchains, ctx.swapchainDevices, d0, m0[j], swapchain);
        }
      }
    }
  }

  /**
    The `SwapchainUpdated` arm of `update_resources`: the first display on
    the swapchain, on whichever device shows it, takes the swapchain's new
    size; every other display stays as it was and no device or pool comes
    or goes.
  */
  method HandleUpdated(ctx: UpdateContext, devices: map<DeviceId, DeviceResources>, ghost events: seq<ScreenTaskEvent>,
                       e: ResourceEvent)
    requires ctx.Valid() && Shaped(devices, ctx, events)
    requires e.SwapchainUpdated? && e.swapchain in ctx.swapchains
    modifies ctx, OwnersOf(devices, devices.Keys)
    ensures ctx.Valid() && Shaped(devices, ctx, events)
    ensures forall k :: k in devices ==> devices[k].displays == ResizedOn(old(devices[k].displays), e.swapchain, ctx.swapchains)
    ensures LayoutOf(devices) == LayoutStep(old(LayoutOf(devices)), ctx.swapchainDevices, e)
  {
    ghost var m0 := LayoutOf(devices);
    ghost var d0 := ctx.descriptors;
    ghost var before := map k | k in devices :: devices[k].displays;
    AllSettled(devices, ctx, events);
    var _ := ResizeDevices(ctx, devices, devices.Keys, e.swapchain, m0, d0, before);
    Resized(ctx, devices, events, e.swapchain, m0, d0, before);
  }

  /**
    The devices in `keys` after the `find_map`: each has its first display on
    `swapchain` resized from `before`, and is still settled on the swapchains
    `m0` gives it.
  */
  ghost predicate ResizedAcross(devices: map<DeviceId, DeviceResources>, keys: set<DeviceId>, ctx: UpdateContext,
                                swapchain: SwapchainId, m0: Layout, d0: map<nat, Descriptor>,
                                before: map<DeviceId, seq<DisplayResources>>)
    reads OwnersOf(devices, keys)
  {
    && keys <= devices.Keys && keys <= m0.Keys && keys <= before.Keys && swapchain in ctx.swapchains
    && forall k :: k in keys ==>
         devices[k].displays == ResizedOn(before[k], swapchain, ctx.swapchains)
         && Settled(devices[k].displays, k, ctx.swapchains, ctx.swapchainDevices, d0, m0[k])
  }

  /** After the `find_map` the map is still in shape and its layout has not changed. */
  lemma Resized(ctx: UpdateContext, devices: map<DeviceId, DeviceResources>, events: seq<ScreenTaskEvent>,
                swapchain: SwapchainId, m0: Layout, d0: map<nat, Descriptor>, before: map<DeviceId, seq<DisplayResources>>)
    requires Owned(devices) && PoolsReady(devices, events) && m0.Keys == devices.Keys
    requires ctx.descriptors.Keys == d0.Keys && ResizedAcross(devices, devices.Keys, ctx, swapchain, m0, d0, before)
    ensures Shaped(devices, ctx, events) && LayoutOf(devices) == m0
    ensures forall k :: k in devices ==> devices[k].displays == ResizedOn(before[k], swapchain, ctx.swapchains)
  {
    forall k | k in devices
      ensures SwapchainsOf(devices[k].displays) == m0[k] && DepthRegistered(devices[k].displays, ctx.descriptors)
    {
      assert DepthRegistered(devices[k].displays, d0);
    }
    assert LayoutOf(devices) == m0;
  }

  /** Every device of `result` is one of `devices`, or new since the previous state. */
  twostate predicate Descended(devices: map<DeviceId, DeviceResources>, new result: map<DeviceId, DeviceResources>)
  {
    forall k :: k in result ==>
      (k in devices && result[k] == devices[k]) || (fresh(result[k]) && fresh(result[k].surfaceManager))
  }

  /** Each device's stack is the one it starts the tick's batch from, given the devices and stacks at the start of the tick. */
  ghost predicate StacksFrom(devices: map<DeviceId, DeviceResources>, devices0: map<DeviceId, DeviceResources>,
                             stacks0: map<DeviceId, seq<nat>>)
    reads PoolsOf(devices, devices.Keys)
  {
    forall k :: k in devices ==> devices[k].surfaceManager.stack == StartOf(devices0, stacks0, k, devices[k])
  }

  /** Notification `i` of the tick, by kind, once the ones before it are handled. */
  method HandleEvent(ctx: UpdateContext, devices: map<DeviceId, DeviceResources>, ghost events: seq<ScreenTaskEvent>,
                     ghost m0: Layout, i: nat) returns (result: map<DeviceId, DeviceResources>)
    requires ctx.Valid() && Shaped(devices, ctx, events) && Notified(ctx, m0, events) && i < |ctx.events|
    requires LayoutOf(devices) == LayoutAfter(m0, ctx.swapchainDevices, ctx.events[..i])
    modifies ctx, OwnersOf(devices, devices.Keys)
    ensures ctx.Valid() && Shaped(result, ctx, events) && Descended(devices, result)
    ensures forall k :: k in result && !(k in devices && result[k] == devices[k]) ==> result[k].surfaceManager.stack == []
    ensures Resolvable(ctx.swapchainDevices, ctx.events[..i + 1])
    ensures LayoutOf(result) == LayoutAfter(m0, ctx.swapchainDevices, ctx.events[..i + 1])
  {
    LayoutAfterNext(m0, ctx.swapchainDevices, ctx.events, i);
    var e := ctx.events[i];
    match e
    case SwapchainCreated(_, _) =>
      result := HandleCreated(ctx, devices, events, e);
    case SwapchainDestroyed(_) =>
      result := HandleDestroyed(ctx, devices, events, e);
    case SwapchainUpdated(_) =>
      HandleUpdated(ctx, devices, events, e);
      result := devices;
  }

  /**
    What `update_resources` relies on about the tick's notifications, from
    the layout `m0`: every created or updated swapchain is described by the
    context, every created one has a device, and when a creation brings a
    device that has no resources yet, its empty pool can take the batch
    `events` too: each of its creations brings an id not live at that point.
  */
  ghost predicate Notified(ctx: UpdateContext, m0: Layout, events: seq<ScreenTaskEvent>)
  {
    && Resolvable(ctx.swapchainDevices, ctx.events)
    && (forall i :: 0 <= i < |ctx.events| && !ctx.events[i].SwapchainDestroyed? ==> ctx.events[i].swapchain in ctx.swapchains)
    && forall i :: 0 <= i < |ctx.events| && ctx.events[i].SwapchainCreated? ==>
         Resolvable(ctx.swapchainDevices, ctx.events[..i])
         && (ctx.swapchainDevices[ctx.events[i].swapchain] !in LayoutAfter(m0, ctx.swapchainDevices, ctx.events[..i])
             ==> BatchApplicable([], events))
  }

  /** The layout after one more notification is one more step. */
  lemma LayoutAfterNext(m0: Layout, swapchainDevices: map<SwapchainId, DeviceId>, es: seq<ResourceEvent>, i: nat)
    requires i < |es| && Resolvable(swapchainDevices, es)
    ensures Resolvable(swapchainDevices, es[..i]) && Resolvable(swapchainDevices, es[..i + 1])
    ensures LayoutAfter(m0, swapchainDevices, es[..i + 1]) == LayoutStep(LayoutAfter(m0, swapchainDevices, es[..i]), swapchainDevices, es[i])
  {
    assert es[..i + 1][..i] == es[..i];
  }

  /**
    The swapchain half of `update_resources`: the tick's notifications, in
    order.  The layout ends as the notifications say, and every device is
    one from before or new with an empty pool.
  */
  method HandleEvents(ctx: UpdateContext, devices: map<DeviceId, DeviceResources>, ghost events: seq<ScreenTaskEvent>,
                      ghost m0: Layout, ghost s0: map<DeviceId, seq<nat>>) returns (result: map<DeviceId, DeviceResources>)
    requires ctx.Valid() && Shaped(devices, ctx, events) && LayoutOf(devices) == m0 && Notified(ctx, m0, events)
    requires StacksOf(devices) == s0
    modifies ctx, OwnersOf(devices, devices.Keys)
    ensures ctx.Valid() && Shaped(result, ctx, events) && Descended(devices, result) && StacksFrom(result, devices, s0)
    ensures LayoutOf(result) == LayoutAfter(m0, ctx.swapchainDevices, ctx.events)
  {
    result := devices;
    var i := 0;
    while i < |ctx.events|
      invariant i <= |ctx.events| && Resolvable(ctx.swapchainDevices, ctx.events[..i])
      invariant ctx.Valid() && Shaped(result, ctx, events) && Descended(devices, result) && StacksFrom(result, devices, s0)
      invariant LayoutOf(result) == LayoutAfter(m0, ctx.swapchainDevices, ctx.events[..i])
    {
      ghost var before := result;
      label Step:
      result := HandleEvent(ctx, result, events, m0, i);
      forall k | k in result
        ensures (k in devices && result[k] == devices[k]) || (fresh(result[k]) && fresh(result[k].surfaceManager))
        ensures result[k].surfaceManager.stack == StartOf(devices, s0, k, result[k])
      {
        if k in before && result[k] == before[k] {
          assert result[k].surfaceManager.stack == old@Step(result[k].surfaceManager.stack);
        }
      }
      i := i + 1;
    }
    assert ctx.events[..i] == ctx.events;
  }
}
