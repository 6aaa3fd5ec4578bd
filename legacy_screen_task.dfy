/**
  The compositor task of the older tree (`ScreenTask` in `src/screen_task.rs`):
  creation is the only client request; each tick the display notifications
  are handled, then every queued creation is applied to every device's pool,
  and, when there was one, every device runs the whole cascade and uploads
  its pool.  A device's draw buffer is submitted only while its pool holds
  surfaces.

  Since the older task never removes a surface, every pool stays
  index-consistent without the reindexing step the current tree needs.
*/
module LegacyScreen {
  import opened Wrappers
  import opened Engine
  import opened Surfaces
  import opened Buffers
  import opened SurfacePool
  import opened Displays
  import opened DisplayLayout
  import opened LegacyPool
  import opened LegacyDescriptors
  import opened LegacyDevices
  import Screen

  /** The older `TaskEvent`: a creation, with its image already decoded. */
  datatype TaskEvent = CreateSurface(id: nat, name: string, image: DecodedImage, position: Position, size: Size)

  /** The ids the creations of `events` bring, in order. */
  function Ids(events: seq<TaskEvent>): (r: seq<nat>)
    ensures |r| == |events| && forall i :: 0 <= i < |events| ==> r[i] == events[i].id
  {
    seq(|events|, i requires 0 <= i < |events| => events[i].id)
  }

  /**
    A pool whose stack is `stack` can take the creations `events` in turn:
    each brings an id that is not live at that point (the pool's `request`
    needs a fresh id), and the stack itself has no duplicate.
  */
  predicate Creatable(stack: seq<nat>, events: seq<TaskEvent>)
    decreases |events|
  {
    if events == [] then NoDup(stack)
    else events[0].id !in stack && Creatable(stack + [events[0].id], events[1..])
  }

  /**
    A batch can be taken exactly when the live ids followed by the batch's
    ids are all different.
  */
  lemma {:induction false} CreatableMeansDistinct(stack: seq<nat>, events: seq<TaskEvent>)
    ensures Creatable(stack, events) <==> NoDup(stack + Ids(events))
    decreases |events|
  {
    if events == [] {
      assert stack + Ids(events) == stack;
    } else {
      var id := events[0].id;
      CreatableMeansDistinct(stack + [id], events[1..]);
      var all := stack + Ids(events);
      assert (stack + [id]) + Ids(events[1..]) == all;
      assert all[|stack|] == id;
      assert forall j :: 0 <= j < |stack| ==> all[j] == stack[j];
      assert Creatable(stack, events) == (id !in stack && Creatable(stack + [id], events[1..]));
    }
  }

  /** The resource objects of the devices in `keys`. */
  ghost function OwnersOf(ds: map<DeviceId, LegacyDeviceResources>, keys: set<DeviceId>): set<LegacyDeviceResources>
  {
    set k | k in ds && k in keys :: ds[k]
  }

  /** The pools of the devices in `keys`. */
  ghost function PoolsOf(ds: map<DeviceId, LegacyDeviceResources>, keys: set<DeviceId>): set<LegacySurfaceManager>
  {
    set k | k in ds && k in keys :: ds[k].surfaceManager
  }

  /** Each device's resources and pool carry its own id, so no two devices share either. */
  predicate Owned(devices: map<DeviceId, LegacyDeviceResources>)
  {
    forall k :: k in devices ==> devices[k].device == k && devices[k].surfaceManager.device == k
  }

  /** A pool between ticks and while notifications are handled: valid and index-consistent. */
  ghost predicate PoolReady(sm: LegacySurfaceManager)
    reads sm
  {
    && sm.Valid()
    && LegacyIndexConsistent(sm.stack, sm.dataBuffer)
  }

  /** Every pool is ready. */
  ghost predicate PoolsReady(devices: map<DeviceId, LegacyDeviceResources>)
    reads PoolsOf(devices, devices.Keys)
  {
    forall k :: k in devices ==> PoolReady(devices[k].surfaceManager)
  }

  /** Every display of every device is on a swapchain the context knows. */
  ghost predicate DisplaysKnown(devices: map<DeviceId, LegacyDeviceResources>, swapchains: map<SwapchainId, SwapchainDescriptor>)
    reads OwnersOf(devices, devices.Keys)
  {
    forall k :: k in devices ==> LegacySwapchainsKnown(devices[k].displays, swapchains)
  }

  /** The device map while notifications are handled: owned, every pool ready, every display known. */
  ghost predicate Shaped(devices: map<DeviceId, LegacyDeviceResources>, swapchains: map<SwapchainId, SwapchainDescriptor>)
    reads OwnersOf(devices, devices.Keys), PoolsOf(devices, devices.Keys)
  {
    && Owned(devices)
    && PoolsReady(devices)
    && DisplaysKnown(devices, swapchains)
  }

  /** The swapchains each device draws on. */
  ghost function LayoutOf(devices: map<DeviceId, LegacyDeviceResources>): Layout
    reads OwnersOf(devices, devices.Keys)
  {
    map k | k in devices :: LegacySwapchainsOf(devices[k].displays)
  }

  /** Each device's stack. */
  ghost function StacksOf(devices: map<DeviceId, LegacyDeviceResources>): map<DeviceId, seq<nat>>
    reads PoolsOf(devices, devices.Keys)
  {
    map k | k in devices :: devices[k].surfaceManager.stack
  }

  /** The stack device `k`, now `dr`, starts the tick's batch from: its old one if it was there before, else an empty one. */
  ghost function StartOf(devices0: map<DeviceId, LegacyDeviceResources>, stacks0: map<DeviceId, seq<nat>>, k: DeviceId,
                         dr: LegacyDeviceResources): seq<nat>
  {
    if k in devices0 && devices0[k] == dr && k in stacks0 then stacks0[k] else []
  }

  /** Every device of `result` is one of `devices`, or new since the previous state. */
  twostate predicate Descended(devices: map<DeviceId, LegacyDeviceResources>, new result: map<DeviceId, LegacyDeviceResources>)
  {
    forall k :: k in result ==>
      (k in devices && result[k] == devices[k]) || (fresh(result[k]) && fresh(result[k].surfaceManager))
  }

  /** Each device's stack is the one it starts the tick's batch from, and it can take the batch `events`. */
  ghost predicate StacksFrom(devices: map<DeviceId, LegacyDeviceResources>, devices0: map<DeviceId, LegacyDeviceResources>,
                             stacks0: map<DeviceId, seq<nat>>, events: seq<TaskEvent>)
    reads PoolsOf(devices, devices.Keys)
  {
    forall k :: k in devices ==>
      devices[k].surfaceManager.stack == StartOf(devices0, stacks0, k, devices[k])
      && Creatable(StartOf(devices0, stacks0, k, devices[k]), events)
  }

  /** The occupied arm of `SwapchainCreated` over the whole map: only the owner's display list grows. */
  method CreatedOnKnown(ctx: UpdateContext, devices: map<DeviceId, LegacyDeviceResources>, swapchain: SwapchainId)
    requires ctx.Valid() && Shaped(devices, ctx.swapchains)
    requires swapchain in ctx.swapchains && swapchain in ctx.swapchainDevices && ctx.swapchainDevices[swapchain] in devices
    modifies ctx, OwnersOf(devices, devices.Keys)
    ensures ctx.Valid() && Shaped(devices, ctx.swapchains)
    ensures LayoutOf(devices) == old(LayoutOf(devices))[ctx.swapchainDevices[swapchain] :=
              old(LayoutOf(devices))[ctx.swapchainDevices[swapchain]] + [swapchain]]
  {
    var device := ctx.swapchainDevices[swapchain];
    ghost var m0 := LayoutOf(devices);
    var dr := devices[device];
    ghost var before := dr.displays;
    dr.AttachDisplay(ctx, swapchain);
    assert dr.displays == before + [dr.displays[|before|]];
    assert LegacySwapchainsOf(dr.displays) == LegacySwapchainsOf(before) + [swapchain];
    forall j | j in devices && j != device ensures devices[j].displays == old(devices[j].displays) {
      assert devices[j] != dr;
    }
    assert LayoutOf(devices) == m0[device := m0[device] + [swapchain]];
  }

  /** The vacant arm of `SwapchainCreated` over the whole map: a new entry with an empty pool, the rest untouched. */
  method CreatedOnNew(ctx: UpdateContext, devices: map<DeviceId, LegacyDeviceResources>, swapchain: SwapchainId)
    returns (result: map<DeviceId, LegacyDeviceResources>)
    requires ctx.Valid() && Shaped(devices, ctx.swapchains)
    requires swapchain in ctx.swapchains && swapchain in ctx.swapchainDevices
    requires ctx.swapchainDevices[swapchain] !in devices
    modifies ctx
    ensures ctx.Valid() && Shaped(result, ctx.swapchains)
    ensures result.Keys == devices.Keys + {ctx.swapchainDevices[swapchain]}
    ensures forall k :: k in devices ==> result[k] == devices[k]
    ensures result[ctx.swapchainDevices[swapchain]].surfaceManager.stack == []
    ensures fresh(result[ctx.swapchainDevices[swapchain]]) && fresh(result[ctx.swapchainDevices[swapchain]].surfaceManager)
    ensures LayoutOf(result) == old(LayoutOf(devices))[ctx.swapchainDevices[swapchain] := [swapchain]]
  {
    var device := ctx.swapchainDevices[swapchain];
    ghost var m0 := LayoutOf(devices);
    var dr := new LegacyDeviceResources.Init(ctx, device, swapchain, Point(0, 0));
    assert LegacySwapchainsOf(dr.displays) == [swapchain];
    assert LayoutOf(devices) == m0;
    result := devices[device := dr];
    assert LayoutOf(result) == m0[device := [swapchain]];
  }

  /**
    The `SwapchainCreated` arm of the older `update_resources`: the
    swapchain's device gets its resources with a first display on it if it
    had none, and otherwise one more display on it.  No pool changes.
  */
  method HandleCreated(ctx: UpdateContext, devices: map<DeviceId, LegacyDeviceResources>, e: ResourceEvent,
                       ghost events: seq<TaskEvent>, ghost devices0: map<DeviceId, LegacyDeviceResources>,
                       ghost s0: map<DeviceId, seq<nat>>) returns (result: map<DeviceId, LegacyDeviceResources>)
    requires ctx.Valid() && Shaped(devices, ctx.swapchains) && StacksFrom(devices, devices0, s0, events)
    requires e.SwapchainCreated? && e.swapchain in ctx.swapchains && e.swapchain in ctx.swapchainDevices
    requires ctx.swapchainDevices[e.swapchain] !in devices ==> Creatable([], events)
    modifies ctx, OwnersOf(devices, devices.Keys)
    ensures ctx.Valid() && Shaped(result, ctx.swapchains) && Descended(devices, result)
    ensures StacksFrom(result, devices0, s0, events)
    ensures LayoutOf(result) == LayoutStep(old(LayoutOf(devices)), ctx.swapchainDevices, e)
  {
    var device := ctx.swapchainDevices[e.swapchain];
    if device in devices {
      CreatedOnKnown(ctx, devices, e.swapchain);
      result := devices;
    } else {
      result := CreatedOnNew(ctx, devices, e.swapchain);
      assert [] + [e.swapchain] == [e.swapchain];
      forall k | k in result && !(k in devices && result[k] == devices[k])
        ensures result[k].surfaceManager.stack == [] && StartOf(devices0, s0, k, result[k]) == []
      {
      }
    }
  }

  /**
    `kept` is what the `retain` of `SwapchainDestroyed` leaves of the devices
    in `keys`, whose swapchains were given by `m0`: those that did not lose
    their last display, each on its swapchains less the first occurrence of
    `swapchain`, every display still known.
  */
  ghost predicate RetainedOn(devices: map<DeviceId, LegacyDeviceResources>, keys: set<DeviceId>,
                             kept: map<DeviceId, LegacyDeviceResources>, swapchains: map<SwapchainId, SwapchainDescriptor>,
                             swapchain: SwapchainId, m0: Layout)
    reads OwnersOf(devices, keys)
  {
    && keys <= devices.Keys && keys <= m0.Keys && kept.Keys <= keys
    && (forall k :: k in keys ==> (k in kept <==> swapchain !in m0[k] || |m0[k]| > 1))
    && forall k :: k in kept ==>
         && kept[k] == devices[k]
         && LegacySwapchainsOf(devices[k].displays) == RemoveFirst(m0[k], swapchain)
         && LegacySwapchainsKnown(devices[k].displays, swapchains)
  }

  /** One device's part of the `retain`: its first display on `swapchain` goes, and it is kept unless that was its last. */
  method DetachFrom(ctx: UpdateContext, dr: LegacyDeviceResources, swapchain: SwapchainId, ghost s0: seq<SwapchainId>)
    returns (keep: bool)
    requires ctx.Valid() && dr.Valid()
    requires LegacySwapchainsOf(dr.displays) == s0 && LegacySwapchainsKnown(dr.displays, ctx.swapchains)
    modifies dr`displays, ctx
    ensures ctx.Valid()
    ensures keep == (swapchain !in s0 || |s0| > 1)
    ensures LegacySwapchainsOf(dr.displays) == RemoveFirst(s0, swapchain) && LegacySwapchainsKnown(dr.displays, ctx.swapchains)
  {
    ghost var before := dr.displays;
    keep := dr.DetachDisplay(ctx, swapchain);
    LegacyWithoutDisplayOnProperties(before, swapchain, ctx.swapchains);
  }

  /**
    The `retain` of `SwapchainDestroyed` over the devices in `keys`, in no
    particular order: each drops its first display on `swapchain`, and the
    devices kept are those that did not just lose their last display.
  */
  method RetainDevices(ctx: UpdateContext, devices: map<DeviceId, LegacyDeviceResources>, keys: set<DeviceId>,
                       swapchain: SwapchainId, ghost m0: Layout) returns (kept: map<DeviceId, LegacyDeviceResources>)
    requires ctx.Valid() && keys <= devices.Keys && keys <= m0.Keys && Owned(devices)
    requires forall k :: k in keys ==>
               devices[k].Valid() && LegacySwapchainsOf(devices[k].displays) == m0[k]
               && LegacySwapchainsKnown(devices[k].displays, ctx.swapchains)
    modifies ctx, OwnersOf(devices, keys)
    ensures ctx.Valid() && RetainedOn(devices, keys, kept, ctx.swapchains, swapchain, m0)
    decreases keys
  {
    if keys == {} {
      kept := map[];
    } else {
      var k :| k in keys;
      var dr := devices[k];
      assert forall j :: j in devices && j != k ==> devices[j] != dr;
      var keep := DetachFrom(ctx, dr, swapchain, m0[k]);
      assert dr !in OwnersOf(devices, keys - {k});
      var rest := RetainDevices(ctx, devices, keys - {k}, swapchain, m0);
      kept := if keep then rest[k := dr] else rest;
    }
  }

  /**
    The `SwapchainDestroyed` arm of the older `update_resources`: every
    device loses its first display on the swapchain and is dropped when that
    was its last.  No pool changes.
  */
  method HandleDestroyed(ctx: UpdateContext, devices: map<DeviceId, LegacyDeviceResources>, e: ResourceEvent) returns (result: map<DeviceId, LegacyDeviceResources>)
    requires ctx.Valid() && Shaped(devices, ctx.swapchains)
    requires e.SwapchainDestroyed?
    modifies ctx, OwnersOf(devices, devices.Keys)
    ensures ctx.Valid() && Shaped(result, ctx.swapchains)
    ensures result.Keys <= devices.Keys && forall k :: k in result ==> result[k] == devices[k]
    ensures LayoutOf(result) == LayoutStep(old(LayoutOf(devices)), ctx.swapchainDevices, e)
  {
    ghost var m0 := LayoutOf(devices);
    result := RetainDevices(ctx, devices, devices.Keys, e.swapchain, m0);
    Retained(devices, result, ctx.swapchains, ctx.swapchainDevices, e.swapchain, m0);
  }

  /** What `RetainDevices` leaves is a map in shape whose layout is the destroy step's. */
  lemma Retained(devices: map<DeviceId, LegacyDeviceResources>, result: map<DeviceId, LegacyDeviceResources>,
                 swapchains: map<SwapchainId, SwapchainDescriptor>, swapchainDevices: map<SwapchainId, DeviceId>,
                 swapchain: SwapchainId, m0: Layout)
    requires Owned(devices) && PoolsReady(devices) && m0.Keys == devices.Keys
    requires RetainedOn(devices, devices.Keys, result, swapchains, swapchain, m0)
    ensures Shaped(result, swapchains)
    ensures LayoutOf(result) == LayoutStep(m0, swapchainDevices, SwapchainDestroyed(swapchain))
  {
    assert LayoutOf(result) == LayoutStep(m0, swapchainDevices, SwapchainDestroyed(swapchain));
  }

  /**
    What the older `update_resources` relies on about the tick's
    notifications, from the layout `m0`: every created swapchain has a
    device and is described by the context, and when a creation brings a
    device that has no resources yet, its empty pool can take the batch
    `events` too.
  */
  ghost predicate Notified(ctx: UpdateContext, m0: Layout, events: seq<TaskEvent>)
  {
    && Resolvable(ctx.swapchainDevices, ctx.events)
    && forall i :: 0 <= i < |ctx.events| && ctx.events[i].SwapchainCreated? ==>
         && ctx.events[i].swapchain in ctx.swapchains
         && Resolvable(ctx.swapchainDevices, ctx.events[..i])
         && (ctx.swapchainDevices[ctx.events[i].swapchain] !in LayoutAfter(m0, ctx.swapchainDevices, ctx.events[..i])
             ==> Creatable([], events))
  }

  /** Notification `i` of the tick, by kind, once the ones before it are handled; a resize is ignored. */
  method HandleEvent(ctx: UpdateContext, devices: map<DeviceId, LegacyDeviceResources>, ghost events: seq<TaskEvent>,
                     ghost m0: Layout, ghost devices0: map<DeviceId, LegacyDeviceResources>, ghost s0: map<DeviceId, seq<nat>>,
                     i: nat) returns (result: map<DeviceId, LegacyDeviceResources>)
    requires ctx.Valid() && Shaped(devices, ctx.swapchains) && Notified(ctx, m0, events) && i < |ctx.events|
    requires LayoutOf(devices) == LayoutAfter(m0, ctx.swapchainDevices, ctx.events[..i])
    requires StacksFrom(devices, devices0, s0, events)
    modifies ctx, OwnersOf(devices, devices.Keys)
    ensures ctx.Valid() && Shaped(result, ctx.swapchains) && Descended(devices, result)
    ensures StacksFrom(result, devices0, s0, events)
    ensures Resolvable(ctx.swapchainDevices, ctx.events[..i + 1])
    ensures LayoutOf(result) == LayoutAfter(m0, ctx.swapchainDevices, ctx.events[..i + 1])
  {
    Screen.LayoutAfterNext(m0, ctx.swapchainDevices, ctx.events, i);
    var e := ctx.events[i];
    match e {
    case SwapchainCreated(_, sc) =>
      assert ctx.swapchainDevices[sc] !in devices ==> Creatable([], events) by {
        assert ctx.events[i].SwapchainCreated?;
        assert LayoutOf(devices).Keys == devices.Keys;
      }
      result := HandleCreated(ctx, devices, e, events, devices0, s0);
    case SwapchainDestroyed(_) =>
      result := HandleDestroyed(ctx, devices, e);
    case SwapchainUpdated(_) =>
      result := devices;
    }
  }

  /**
    The notification half of the older `update_resources`: the tick's
    notifications, in order.  The layout ends as the notifications say, and
    every device is one from before or new with an empty pool.
  */
  method HandleEvents(ctx: UpdateContext, devices: map<DeviceId, LegacyDeviceResources>, ghost events: seq<TaskEvent>,
                      ghost m0: Layout, ghost s0: map<DeviceId, seq<nat>>) returns (result: map<DeviceId, LegacyDeviceResources>)
    requires ctx.Valid() && Shaped(devices, ctx.swapchains) && LayoutOf(devices) == m0 && Notified(ctx, m0, events)
    requires StacksOf(devices) == s0 && forall k :: k in devices ==> Creatable(s0[k], events)
    modifies ctx, OwnersOf(devices, devices.Keys)
    ensures ctx.Valid() && Shaped(result, ctx.swapchains) && Descended(devices, result) && StacksFrom(result, devices, s0, events)
    ensures LayoutOf(result) == LayoutAfter(m0, ctx.swapchainDevices, ctx.events)
  {
    result := devices;
    var i := 0;
    while i < |ctx.events|
      invariant i <= |ctx.events| && Resolvable(ctx.swapchainDevices, ctx.events[..i])
      invariant ctx.Valid() && Shaped(result, ctx.swapchains) && Descended(devices, result) && StacksFrom(result, devices, s0, events)
      invariant LayoutOf(result) == LayoutAfter(m0, ctx.swapchainDevices, ctx.events[..i])
    {
      result := HandleEvent(ctx, result, events, m0, devices, s0, i);
      forall k | k in result
        ensures (k in devices && result[k] == devices[k]) || (fresh(result[k]) && fresh(result[k].surfaceManager))
      {
      }
      i := i + 1;
    }
    assert ctx.events[..i] == ctx.events;
  }

  /**
    Device `dr` part-way through a tick: valid, its stack is `stack`, which
    is index-consistent and can take the creations `events`, and its
    displays are known and on the swapchains `shown`.
  */
  ghost predicate Ready(dr: LegacyDeviceResources, stack: seq<nat>, events: seq<TaskEvent>,
                        swapchains: map<SwapchainId, SwapchainDescriptor>, shown: seq<SwapchainId>)
    reads dr, dr.surfaceManager
  {
    && dr.Valid()
    && dr.surfaceManager.stack == stack
    && LegacyIndexConsistent(stack, dr.surfaceManager.dataBuffer)
    && Creatable(stack, events)
    && LegacySwapchainsKnown(dr.displays, swapchains)
    && LegacySwapchainsOf(dr.displays) == shown
  }

  /**
    Device `dr` has taken the creations `events` from the stack `stack0` and
    finished its tick: its stack is `stack0` followed by their ids, it is
    still index-consistent, a non-empty batch left nothing to upload, and
    its displays are as before.
  */
  ghost predicate Elaborated(dr: LegacyDeviceResources, stack0: seq<nat>, events: seq<TaskEvent>,
                             swapchains: map<SwapchainId, SwapchainDescriptor>, shown: seq<SwapchainId>)
    reads dr, dr.surfaceManager
  {
    && Ready(dr, stack0 + Ids(events), [], swapchains, shown)
    && (events != [] ==> dr.surfaceManager.dataBuffer.pending == [])
  }

  /** The body of the `for_each` over the devices for one creation: the device's pool takes it. */
  method CreateOn(ctx: UpdateContext, dr: LegacyDeviceResources, events: seq<TaskEvent>, ghost stack: seq<nat>,
                  ghost shown: seq<SwapchainId>)
    requires ctx.Valid() && events != [] && Ready(dr, stack, events, ctx.swapchains, shown)
    modifies dr.surfaceManager, ctx
    ensures ctx.Valid() && Ready(dr, stack + [events[0].id], events[1..], ctx.swapchains, shown)
  {
    var e := events[0];
    dr.surfaceManager.CreateSurface(ctx, e.name, e.id, e.image, e.position, e.size);
  }

  /**
    One creation applied to the pools of the devices in `keys`, in no
    particular order (`values_mut().for_each`).
  */
  method CreateOnDevices(ctx: UpdateContext, devices: map<DeviceId, LegacyDeviceResources>, keys: set<DeviceId>,
                         events: seq<TaskEvent>, ghost stacks: map<DeviceId, seq<nat>>, ghost next: map<DeviceId, seq<nat>>,
                         ghost layout: Layout)
    requires ctx.Valid() && events != [] && keys <= devices.Keys && keys <= stacks.Keys && keys <= layout.Keys && Owned(devices)
    requires forall k :: k in keys ==> k in next && next[k] == stacks[k] + [events[0].id]
    requires forall k :: k in keys ==> Ready(devices[k], stacks[k], events, ctx.swapchains, layout[k])
    modifies ctx, PoolsOf(devices, keys)
    ensures ctx.Valid()
    ensures forall k :: k in keys ==> Ready(devices[k], next[k], events[1..], ctx.swapchains, layout[k])
    decreases keys
  {
    if keys != {} {
      var k :| k in keys;
      var dr := devices[k];
      assert forall j :: j in devices && j != k ==> devices[j] != dr && devices[j].surfaceManager != dr.surfaceManager;
      CreateOn(ctx, dr, events, stacks[k], layout[k]);
      assert dr.surfaceManager !in PoolsOf(devices, keys - {k});
      CreateOnDevices(ctx, devices, keys - {k}, events, stacks, next, layout);
    }
  }

  /**
    The event loop of `elaborate_events`: each creation, in order, applied
    to every device's pool.  Every pool ends with the batch's ids appended.
  */
  method CreateAll(ctx: UpdateContext, devices: map<DeviceId, LegacyDeviceResources>, events: seq<TaskEvent>,
                   ghost s0: map<DeviceId, seq<nat>>, ghost layout: Layout)
    requires ctx.Valid() && devices.Keys <= s0.Keys && devices.Keys <= layout.Keys && Owned(devices)
    requires forall k :: k in devices ==> Ready(devices[k], s0[k], events, ctx.swapchains, layout[k])
    modifies ctx, PoolsOf(devices, devices.Keys)
    ensures ctx.Valid()
    ensures forall k :: k in devices ==> Ready(devices[k], s0[k] + Ids(events), [], ctx.swapchains, layout[k])
  {
    var rest := events;
    ghost var stacks := map k | k in devices :: s0[k];
    while rest != []
      invariant ctx.Valid() && devices.Keys == stacks.Keys
      invariant forall k :: k in devices ==> Ready(devices[k], stacks[k], rest, ctx.swapchains, layout[k])
      invariant forall k :: k in devices ==> stacks[k] + Ids(rest) == s0[k] + Ids(events)
      decreases |rest|
    {
      ghost var next := map k | k in stacks :: stacks[k] + [rest[0].id];
      forall k | k in devices ensures next[k] + Ids(rest[1..]) == s0[k] + Ids(events) {
        IdsShift(stacks[k], rest);
      }
      CreateOnDevices(ctx, devices, devices.Keys, rest, stacks, next, layout);
      stacks := next;
      rest := rest[1..];
    }
    forall k | k in devices ensures stacks[k] == s0[k] + Ids(events) {
      assert stacks[k] + Ids(rest) == stacks[k];
    }
  }

  /** Taking a batch's first creation onto a stack leaves the stack followed by the batch's ids as it was. */
  lemma IdsShift(stack: seq<nat>, events: seq<TaskEvent>)
    requires events != []
    ensures (stack + [events[0].id]) + Ids(events[1..]) == stack + Ids(events)
  {
    assert Ids(events) == [events[0].id] + Ids(events[1..]);
  }

  /**
    One device's part of the cascade loop of `elaborate_events`: the whole
    older cascade, then the upload of the pool's queued writes.  The stack
    and the displays do not change, and nothing is left to upload.
  */
  method RebuildOn(ctx: UpdateContext, dr: LegacyDeviceResources, ghost stack: seq<nat>, ghost shown: seq<SwapchainId>)
    requires ctx.Valid() && Ready(dr, stack, [], ctx.swapchains, shown)
    modifies dr`dataCopyCommandBufferUpdated, dr.surfaceManager, ctx
    ensures ctx.Valid() && Ready(dr, stack, [], ctx.swapchains, shown)
    ensures dr.surfaceManager.dataBuffer.pending == []
    ensures dr.dataCopyCommandBufferUpdated == (old(dr.dataCopyCommandBufferUpdated) || old(dr.surfaceManager.dataBuffer.pending) != [])
  {
    dr.UpdateResources(ctx);
    dr.UploadData(ctx);
  }

  /** The cascade loop of `elaborate_events` over the devices in `keys`, in no particular order. */
  method RebuildDevices(ctx: UpdateContext, devices: map<DeviceId, LegacyDeviceResources>, keys: set<DeviceId>,
                        ghost stacks: map<DeviceId, seq<nat>>, ghost layout: Layout)
    requires ctx.Valid() && keys <= devices.Keys && keys <= stacks.Keys && keys <= layout.Keys && Owned(devices)
    requires forall k :: k in keys ==> Ready(devices[k], stacks[k], [], ctx.swapchains, layout[k])
    modifies ctx, OwnersOf(devices, keys), PoolsOf(devices, keys)
    ensures ctx.Valid()
    ensures forall k :: k in keys ==>
              Ready(devices[k], stacks[k], [], ctx.swapchains, layout[k]) && devices[k].surfaceManager.dataBuffer.pending == []
    decreases keys
  {
    if keys != {} {
      var k :| k in keys;
      var dr := devices[k];
      assert forall j :: j in devices && j != k ==> devices[j] != dr && devices[j].surfaceManager != dr.surfaceManager;
      RebuildOn(ctx, dr, stacks[k], layout[k]);
      assert dr !in OwnersOf(devices, keys - {k}) && dr.surfaceManager !in PoolsOf(devices, keys - {k});
      RebuildDevices(ctx, devices, keys - {k}, stacks, layout);
    }
  }

  /**
    The older `elaborate_events` over the device map: every creation on
    every pool, then, when there was at least one, the cascade and upload
    on every device.
  */
  method ElaborateAll(ctx: UpdateContext, devices: map<DeviceId, LegacyDeviceResources>, events: seq<TaskEvent>,
                      ghost s0: map<DeviceId, seq<nat>>, ghost layout: Layout)
    requires ctx.Valid() && devices.Keys <= s0.Keys && devices.Keys <= layout.Keys && Owned(devices)
    requires forall k :: k in devices ==> Ready(devices[k], s0[k], events, ctx.swapchains, layout[k])
    modifies ctx, OwnersOf(devices, devices.Keys), PoolsOf(devices, devices.Keys)
    ensures ctx.Valid()
    ensures forall k :: k in devices ==> Elaborated(devices[k], s0[k], events, ctx.swapchains, layout[k])
  {
    CreateAll(ctx, devices, events, s0, layout);
    var update := events != [];
    if update {
      ghost var stacks := map k | k in devices :: s0[k] + Ids(events);
      RebuildDevices(ctx, devices, devices.Keys, stacks, layout);
    }
  }

  /** What one device hands to the older `command_buffers`: its two buffers, and whether each is due. */
  datatype Submission = Submission(draw: CommandBufferId, drawDue: bool, dataCopy: CommandBufferId, copyDue: bool)

  /** `b` is one of the buffers `sub` contributes: the draw buffer when due, or the data-copy buffer when due. */
  predicate Contributes(sub: Submission, b: CommandBufferId)
  {
    (sub.drawDue && b == sub.draw) || (sub.copyDue && b == sub.dataCopy)
  }

  /** The `map(..).flatten()` of the older `command_buffers`: each device's due buffers, draw buffer first. */
  function Flatten(subs: seq<Submission>): seq<CommandBufferId>
    decreases |subs|
  {
    if subs == [] then []
    else
      var last := subs[|subs| - 1];
      Flatten(subs[..|subs| - 1]) + (if last.drawDue then [last.draw] else []) + (if last.copyDue then [last.dataCopy] else [])
  }

  /** Every due buffer is listed. */
  lemma {:induction false} FlattenListsAll(subs: seq<Submission>)
    ensures forall i :: 0 <= i < |subs| && subs[i].drawDue ==> subs[i].draw in Flatten(subs)
    ensures forall i :: 0 <= i < |subs| && subs[i].copyDue ==> subs[i].dataCopy in Flatten(subs)
    decreases |subs|
  {
    if subs != [] {
      var init := subs[..|subs| - 1];
      FlattenListsAll(init);
      forall i | 0 <= i < |init| ensures init[i] == subs[i] { }
    }
  }

  /** Nothing is listed that no device contributes. */
  lemma {:induction false} FlattenListsOnly(subs: seq<Submission>)
    ensures forall b :: b in Flatten(subs) ==> exists i :: 0 <= i < |subs| && Contributes(subs[i], b)
    decreases |subs|
  {
    if subs != [] {
      var init := subs[..|subs| - 1];
      FlattenListsOnly(init);
      forall b | b in Flatten(subs) ensures exists i :: 0 <= i < |subs| && Contributes(subs[i], b) {
        if b in Flatten(init) {
          var i :| 0 <= i < |init| && Contributes(init[i], b);
          assert init[i] == subs[i];
        } else {
          assert Contributes(subs[|subs| - 1], b);
        }
      }
    }
  }

  /** The positions whose draw buffer is due. */
  function DrawPositions(subs: seq<Submission>): set<nat>
  {
    set i: nat | i < |subs| && subs[i].drawDue
  }

  /** The positions whose data-copy buffer is due. */
  function CopyPositions(subs: seq<Submission>): set<nat>
  {
    set i: nat | i < |subs| && subs[i].copyDue
  }

  /** The flattened list grows by the last device's due buffers, draw buffer first. */
  lemma FlattenLast(subs: seq<Submission>)
    requires subs != []
    ensures var last := subs[|subs| - 1];
            Flatten(subs) == Flatten(subs[..|subs| - 1]) + (if last.drawDue then [last.draw] else [])
                             + (if last.copyDue then [last.dataCopy] else [])
  {
  }

  /** One entry per due draw buffer and one per due data-copy buffer, so no buffer is listed twice for a device. */
  lemma {:induction false} FlattenLength(subs: seq<Submission>)
    ensures |Flatten(subs)| == |DrawPositions(subs)| + |CopyPositions(subs)|
    decreases |subs|
  {
    if subs != [] {
      var init := subs[..|subs| - 1];
      FlattenLength(init);
      FlattenLast(subs);
      DrawPositionsLast(subs);
      CopyPositionsLast(subs);
    }
  }

  /** The due draw positions of a longer list: those of its prefix, plus the last one when due. */
  lemma DrawPositionsLast(subs: seq<Submission>)
    requires subs != []
    ensures |DrawPositions(subs)| == |DrawPositions(subs[..|subs| - 1])| + (if subs[|subs| - 1].drawDue then 1 else 0)
  {
    var init := subs[..|subs| - 1];
    assert DrawPositions(subs) == DrawPositions(init) + (if subs[|subs| - 1].drawDue then {|subs| - 1} else {}) by {
      forall i: nat | i < |init| ensures init[i] == subs[i] { }
    }
  }

  /** The due data-copy positions of a longer list: those of its prefix, plus the last one when due. */
  lemma CopyPositionsLast(subs: seq<Submission>)
    requires subs != []
    ensures |CopyPositions(subs)| == |CopyPositions(subs[..|subs| - 1])| + (if subs[|subs| - 1].copyDue then 1 else 0)
  {
    var init := subs[..|subs| - 1];
    assert CopyPositions(subs) == CopyPositions(init) + (if subs[|subs| - 1].copyDue then {|subs| - 1} else {}) by {
      forall i: nat | i < |init| ensures init[i] == subs[i] { }
    }
  }

  /** The submission of one device, as its fields are now: the draw buffer is due while the pool holds surfaces. */
  function SubmissionOf(dr: LegacyDeviceResources): Submission
    reads dr, dr.surfaceManager
  {
    Submission(dr.commandBuffer, |dr.surfaceManager.stack| > 0, dr.dataCopyCommandBuffer, dr.dataCopyCommandBufferUpdated)
  }

  /** The submissions of the devices in `order`, in that order. */
  function SubmissionsOf(devices: map<DeviceId, LegacyDeviceResources>, order: seq<DeviceId>): (r: seq<Submission>)
    requires forall i :: 0 <= i < |order| ==> order[i] in devices
    reads OwnersOf(devices, devices.Keys), PoolsOf(devices, devices.Keys)
    ensures |r| == |order| && forall i :: 0 <= i < |order| ==> r[i] == SubmissionOf(devices[order[i]])
  {
    seq(|order|, i requires 0 <= i < |order| && order[i] in devices
                   reads OwnersOf(devices, devices.Keys), PoolsOf(devices, devices.Keys) => SubmissionOf(devices[order[i]]))
  }

  /** The older `command_buffers` lists every non-empty device's draw buffer and every due data-copy buffer. */
  lemma SubmittedAll(devices: map<DeviceId, LegacyDeviceResources>, order: seq<DeviceId>)
    requires forall k :: k in devices <==> k in order
    ensures var r := Flatten(SubmissionsOf(devices, order));
            && (forall k :: k in devices && |devices[k].surfaceManager.stack| > 0 ==> devices[k].commandBuffer in r)
            && (forall k :: k in devices && devices[k].dataCopyCommandBufferUpdated ==> devices[k].dataCopyCommandBuffer in r)
  {
    var subs := SubmissionsOf(devices, order);
    FlattenListsAll(subs);
    forall k | k in devices
      ensures |devices[k].surfaceManager.stack| > 0 ==> devices[k].commandBuffer in Flatten(subs)
      ensures devices[k].dataCopyCommandBufferUpdated ==> devices[k].dataCopyCommandBuffer in Flatten(subs)
    {
      var i :| 0 <= i < |order| && order[i] == k;
      assert subs[i] == SubmissionOf(devices[k]);
    }
  }

  /** Every buffer the older `command_buffers` lists is a non-empty device's draw buffer or a due data-copy buffer. */
  lemma SubmittedOnly(devices: map<DeviceId, LegacyDeviceResources>, order: seq<DeviceId>)
    requires forall i :: 0 <= i < |order| ==> order[i] in devices
    ensures forall b :: b in Flatten(SubmissionsOf(devices, order)) ==>
              exists k :: k in devices
                          && ((|devices[k].surfaceManager.stack| > 0 && b == devices[k].commandBuffer)
                              || (devices[k].dataCopyCommandBufferUpdated && b == devices[k].dataCopyCommandBuffer))
  {
    var subs := SubmissionsOf(devices, order);
    FlattenListsOnly(subs);
    forall b | b in Flatten(subs)
      ensures exists k :: k in devices
                          && ((|devices[k].surfaceManager.stack| > 0 && b == devices[k].commandBuffer)
                              || (devices[k].dataCopyCommandBufferUpdated && b == devices[k].dataCopyCommandBuffer))
    {
      var i :| 0 <= i < |subs| && Contributes(subs[i], b);
      assert subs[i] == SubmissionOf(devices[order[i]]);
    }
  }

  /** The older `command_buffers` lists one buffer per non-empty device and one per due data-copy buffer. */
  lemma SubmittedCount(devices: map<DeviceId, LegacyDeviceResources>, order: seq<DeviceId>)
    requires forall i :: 0 <= i < |order| ==> order[i] in devices
    ensures |Flatten(SubmissionsOf(devices, order))|
            == |set i: nat | i < |order| && |devices[order[i]].surfaceManager.stack| > 0|
               + |set i: nat | i < |order| && devices[order[i]].dataCopyCommandBufferUpdated|
  {
    var subs := SubmissionsOf(devices, order);
    FlattenLength(subs);
    forall i: nat | i < |order|
      ensures subs[i].drawDue == (|devices[order[i]].surfaceManager.stack| > 0)
      ensures subs[i].copyDue == devices[order[i]].dataCopyCommandBufferUpdated
    {
      assert subs[i] == SubmissionOf(devices[order[i]]);
    }
    assert DrawPositions(subs) == set i: nat | i < |order| && |devices[order[i]].surfaceManager.stack| > 0;
    assert CopyPositions(subs) == set i: nat | i < |order| && devices[order[i]].dataCopyCommandBufferUpdated;
  }

  /**
    The body of the older `update_resources` over the device map: the
    notifications, then the batch on every device.
  */
  method Tick(ctx: UpdateContext, devices: map<DeviceId, LegacyDeviceResources>, events: seq<TaskEvent>,
              ghost m0: Layout, ghost s0: map<DeviceId, seq<nat>>) returns (result: map<DeviceId, LegacyDeviceResources>)
    requires ctx.Valid() && Shaped(devices, ctx.swapchains) && LayoutOf(devices) == m0 && Notified(ctx, m0, events)
    requires StacksOf(devices) == s0 && forall k :: k in devices ==> Creatable(s0[k], events)
    modifies ctx, OwnersOf(devices, devices.Keys), PoolsOf(devices, devices.Keys)
    ensures ctx.Valid() && Descended(devices, result) && Owned(result) && PoolsReady(result)
    ensures LayoutOf(result) == LayoutAfter(m0, ctx.swapchainDevices, ctx.events)
    ensures AllElaborated(result, devices, s0, events, ctx.swapchains)
  {
    result := HandleEvents(ctx, devices, events, m0, s0);
    ghost var m1 := LayoutOf(result);
    ghost var s1 := StacksOf(result);
    ShapedReady(result, ctx.swapchains, events, devices, s0);
    ElaborateAll(ctx, result, events, s1, m1);
    ElaboratedLayout(result, s1, events, ctx.swapchains, m1);
    ElaboratedPools(result, s1, events, ctx.swapchains, m1);
  }

  /**
    Every device of `devices` has finished its tick, starting from its stack
    in `stacks0` if it is one of `devices0`, else from an empty one, and is
    on the swapchains the layout gives it.
  */
  ghost predicate AllElaborated(devices: map<DeviceId, LegacyDeviceResources>, devices0: map<DeviceId, LegacyDeviceResources>,
                                stacks0: map<DeviceId, seq<nat>>, events: seq<TaskEvent>,
                                swapchains: map<SwapchainId, SwapchainDescriptor>)
    reads OwnersOf(devices, devices.Keys), PoolsOf(devices, devices.Keys)
  {
    forall k :: k in devices ==>
      Elaborated(devices[k], StartOf(devices0, stacks0, k, devices[k]), events, swapchains, LayoutOf(devices)[k])
  }

  /** Devices that have finished their tick have ready pools. */
  lemma ElaboratedPools(devices: map<DeviceId, LegacyDeviceResources>, stacks: map<DeviceId, seq<nat>>, events: seq<TaskEvent>,
                        swapchains: map<SwapchainId, SwapchainDescriptor>, layout: Layout)
    requires devices.Keys <= layout.Keys && devices.Keys <= stacks.Keys
    requires forall k :: k in devices ==> Elaborated(devices[k], stacks[k], events, swapchains, layout[k])
    ensures PoolsReady(devices)
  {
  }

  /** In a shaped map whose stacks can take the batch, every device is ready for it. */
  lemma ShapedReady(devices: map<DeviceId, LegacyDeviceResources>, swapchains: map<SwapchainId, SwapchainDescriptor>,
                    events: seq<TaskEvent>, devices0: map<DeviceId, LegacyDeviceResources>, stacks0: map<DeviceId, seq<nat>>)
    requires Shaped(devices, swapchains) && StacksFrom(devices, devices0, stacks0, events)
    ensures forall k :: k in devices ==> Ready(devices[k], StacksOf(devices)[k], events, swapchains, LayoutOf(devices)[k])
  {
  }

  /** Devices that have finished their tick keep the layout they started it with. */
  lemma ElaboratedLayout(devices: map<DeviceId, LegacyDeviceResources>, stacks: map<DeviceId, seq<nat>>, events: seq<TaskEvent>,
                         swapchains: map<SwapchainId, SwapchainDescriptor>, layout: Layout)
    requires layout.Keys == devices.Keys && devices.Keys <= stacks.Keys
    requires forall k :: k in devices ==> Elaborated(devices[k], stacks[k], events, swapchains, layout[k])
    ensures LayoutOf(devices) == layout
  {
    assert LayoutOf(devices) == layout;
  }

  class LegacyScreenTask {
    var pendingEvents: seq<TaskEvent>
    var devices: map<DeviceId, LegacyDeviceResources>

    /** The per-device resource objects. */
    ghost function Owners(): set<LegacyDeviceResources>
      reads this
    {
      OwnersOf(devices, devices.Keys)
    }

    /** The per-device pools. */
    ghost function Pools(): set<LegacySurfaceManager>
      reads this
    {
      PoolsOf(devices, devices.Keys)
    }

    /** Each device's resources belong to that device and are valid, and every pool is index-consistent. */
    ghost predicate Valid()
      reads this, Owners(), Pools()
    {
      Owned(devices) && PoolsReady(devices)
    }

    /** `ScreenTask::new`: no queued creations and no devices yet. */
    constructor ()
      ensures Valid() && pendingEvents == [] && devices == map[]
    {
      pendingEvents := [];
      devices := map[];
    }

    /** `create_surface`: queues the creation and hands back the caller's id; nothing else happens until the next tick. */
    method CreateSurface(externalId: nat, name: string, image: DecodedImage, position: Position, size: Size)
      returns (id: nat)
      modifies this`pendingEvents
      ensures id == externalId
      ensures pendingEvents == old(pendingEvents) + [TaskEvent.CreateSurface(externalId, name, image, position, size)]
    {
      pendingEvents := pendingEvents + [TaskEvent.CreateSurface(externalId, name, image, position, size)];
      id := externalId;
    }

    /**
      The older `command_buffers`: for each device, in the map's iteration
      order `order`, its draw buffer when its pool holds surfaces, then its
      data-copy buffer when that was ever re-recorded.  Nothing else is
      listed, and nothing twice.
    */
    function CommandBuffers(order: seq<DeviceId>): (r: seq<CommandBufferId>)
      reads this, Owners(), Pools()
      requires Screen.Enumerates(order, devices.Keys)
      ensures forall k :: k in devices && |devices[k].surfaceManager.stack| > 0 ==> devices[k].commandBuffer in r
      ensures forall k :: k in devices && devices[k].dataCopyCommandBufferUpdated ==> devices[k].dataCopyCommandBuffer in r
      ensures forall b :: b in r ==>
                exists k :: k in devices
                            && ((|devices[k].surfaceManager.stack| > 0 && b == devices[k].commandBuffer)
                                || (devices[k].dataCopyCommandBufferUpdated && b == devices[k].dataCopyCommandBuffer))
      ensures |r| == |set i: nat | i < |order| && |devices[order[i]].surfaceManager.stack| > 0|
                     + |set i: nat | i < |order| && devices[order[i]].dataCopyCommandBufferUpdated|
    {
      SubmittedAll(devices, order);
      SubmittedOnly(devices, order);
      SubmittedCount(devices, order);
      Flatten(SubmissionsOf(devices, order))
    }

    /** The end of a tick: the devices it left and no queued creations. */
    method Install(result: map<DeviceId, LegacyDeviceResources>, ghost devices0: map<DeviceId, LegacyDeviceResources>,
                   ghost stacks0: map<DeviceId, seq<nat>>, ghost events: seq<TaskEvent>,
                   ghost swapchains: map<SwapchainId, SwapchainDescriptor>)
      requires Owned(result) && PoolsReady(result) && AllElaborated(result, devices0, stacks0, events, swapchains)
      modifies this`devices, this`pendingEvents
      ensures devices == result && pendingEvents == [] && Valid()
      ensures LayoutOf(devices) == old(LayoutOf(result))
      ensures AllElaborated(devices, devices0, stacks0, events, swapchains)
    {
      devices := result;
      pendingEvents := [];
    }

    /**
      The older `update_resources`, once per tick: the tick's swapchain
      notifications in order (resizes ignored), then `elaborate_events`.
      The layout ends as the notifications say; a device kept from before
      has its old stack followed by the batch's ids, and a device new this
      tick just the batch's ids.
    */
    method UpdateResources(ctx: UpdateContext)
      requires Valid() && ctx.Valid() && DisplaysKnown(devices, ctx.swapchains)
      requires forall k :: k in devices ==> Creatable(devices[k].surfaceManager.stack, pendingEvents)
      requires Notified(ctx, LayoutOf(devices), pendingEvents)
      modifies this`devices, this`pendingEvents, Owners(), Pools(), ctx
      ensures Valid() && ctx.Valid() && pendingEvents == []
      ensures LayoutOf(devices) == LayoutAfter(old(LayoutOf(devices)), ctx.swapchainDevices, ctx.events)
      ensures AllElaborated(devices, old(devices), old(StacksOf(devices)), old(pendingEvents), ctx.swapchains)
    {
      ghost var d0, s0 := devices, StacksOf(devices);
      var result := Tick(ctx, devices, pendingEvents, LayoutOf(devices), s0);
      Install(result, d0, s0, pendingEvents, ctx.swapchains);
    }
  }
}
