/**
  The surface pool of the older tree (`src/surface_manager.rs`).  Like the
  current pool it keeps an ordered `stack` of live surface ids, an id counter
  and the instance-buffer collaborator, but its surfaces come from image
  files decoded to RGBA, removal moves the LAST surface into the vacated
  place (`Vec::swap_remove`), and nothing ever rewrites a surface's image
  index after creation.
*/
module LegacyPool {
  import opened Wrappers
  import opened Engine
  import opened Surfaces
  import opened Buffers
  import opened TexturePrep
  import opened SurfacePool

  /** An image file once decoded to 8-bit RGBA: `width` x `height` texels. */
  datatype DecodedImage = DecodedImage(width: nat, height: nat, pixels: seq<byte>)

  /** Channels of an RGBA texel, one byte each. */
  const RGBA_CHANNELS: nat := 4

  /** What the older pool remembers about a live surface (the file it came from is not kept here). */
  datatype LegacySurfaceInfo = LegacySurfaceInfo(
    textureId: TextureId,
    textureViewId: TextureViewId,
    position: Position,
    size: Size)

  /** The instance record of a surface shown with image `imageIndex`. */
  function LegacyData(s: LegacySurfaceInfo, imageIndex: nat): Surface
  {
    Surface(s.position, s.size, imageIndex)
  }

  /** The texture registered for a decoded image: local, 2-D, sRGB RGBA, sampled and copy target. */
  function ImageTexture(device: DeviceId, name: string, image: DecodedImage): TextureDescriptor
  {
    TextureDescriptor(device, name + " texture", Local, Extent3d(image.width, image.height, 1),
                      1, 1, D2, Rgba8UnormSrgb, SAMPLED_COPY_DST)
  }

  /** Rows of `width * 4` bytes (a `u32` product), `height` rows per image. */
  function ImageLayout(image: DecodedImage): ImageDataLayout
  {
    ImageDataLayout(0, NonZero(U32Mul(image.width, RGBA_CHANNELS)), NonZero(image.height))
  }

  /** The registry requests `create_surface` issues for texture `t` and view `v`, in order. */
  function ImageRequests(device: DeviceId, name: string, t: nat, v: nat, image: DecodedImage): (r: seq<Request>)
    ensures |r| == 3
    ensures r[0] == Added(t, TextureDesc(ImageTexture(device, name, image)))
    ensures r[1].Added? && r[1].id == v && r[1].descriptor.TextureViewDesc?
    ensures var view := r[1].descriptor.view;
            && view.name == name + " texture view" && view.texture == TextureId(t)
            && view.format == Rgba8UnormSrgb && view.device == device
    ensures r[2] == Written(TextureUpload(TextureWrite(TextureId(t), 0, ORIGIN_ZERO, image.pixels, ImageLayout(image),
                                                      Extent3d(image.width, image.height, 1))))
  {
    [Added(t, TextureDesc(ImageTexture(device, name, image))),
     Added(v, TextureViewDesc(PrepareTextureView(device, name + " texture view", TextureId(t), Rgba8UnormSrgb))),
     Written(PrepareTextureWrite(TextureId(t), image.pixels, Extent3d(image.width, image.height, 1), ImageLayout(image)))]
  }

  /**
    A decoded file is registered and uploaded exactly as the current tree
    registers a tightly packed RGBA host bitmap of the same pixels, except
    that the older view's name carries a " texture view" suffix.
  */
  lemma ImageMatchesHostBitmap(device: DeviceId, name: string, t: nat, v: nat, image: DecodedImage)
    requires image.width * RGBA_CHANNELS < U32_MODULUS
    ensures var host := HostAllocation(HostAllocationInfo(Size(image.width, image.height), Rgba8UnormSrgb,
                                                          image.width * RGBA_CHANNELS), image.pixels);
            var current := CreationRequests(device, name, t, v, host);
            var older := ImageRequests(device, name, t, v, image);
            && |current| == |older|
            && current[0] == older[0] && current[2] == older[2]
            && current[1].descriptor.view == older[1].descriptor.view.(name := name)
  {
  }

  /** The older pool's invariant: ids are not repeated and are on the stack exactly when they have a record. */
  ghost predicate LegacyPoolValid(stack: seq<nat>, b: BufferState<LegacySurfaceInfo>)
  {
    && b.Valid()
    && NoDup(stack)
    && (forall id :: id in stack <==> id in b.records)
  }

  /** Slots in use are exactly the surfaces on the stack. */
  lemma LegacySlotCount(stack: seq<nat>, b: BufferState<LegacySurfaceInfo>)
    requires LegacyPoolValid(stack, b)
    ensures NextSlot(b) == |stack|
  {
    DistinctCount(stack);
    assert b.records.Keys == Elements(stack);
  }

  /** The texture views of the surfaces on `stack`, in stack order. */
  function LegacyViewsOf(stack: seq<nat>, records: map<nat, LegacySurfaceInfo>): (r: seq<TextureViewId>)
    requires forall id :: id in stack ==> id in records
    ensures |r| == |stack|
    ensures forall i :: 0 <= i < |stack| ==> r[i] == records[stack[i]].textureViewId
  {
    if stack == [] then [] else [records[stack[0]].textureViewId] + LegacyViewsOf(stack[1..], records)
  }

  /** Every surface's pending image index is its position on the stack. */
  ghost predicate LegacyIndexConsistent(stack: seq<nat>, b: BufferState<LegacySurfaceInfo>)
    requires forall id :: id in stack ==> id in b.instances
  {
    forall i :: 0 <= i < |stack| ==> Instance(b, stack[i]).imageIndex == i
  }

  /** Each live surface's image index selects its own view among the views in stack order. */
  ghost predicate LegacyViewsSelected(stack: seq<nat>, b: BufferState<LegacySurfaceInfo>)
    requires LegacyPoolValid(stack, b)
  {
    forall id :: id in stack ==>
      && Instance(b, id).imageIndex < |LegacyViewsOf(stack, b.records)|
      && LegacyViewsOf(stack, b.records)[Instance(b, id).imageIndex] == b.records[id].textureViewId
  }

  /** The position of `id` in `s`. */
  function PositionOf(s: seq<nat>, id: nat): (i: nat)
    requires id in s
    ensures i < |s| && s[i] == id && id !in s[..i]
  {
    if s[0] == id then 0
    else
      var j := PositionOf(s[1..], id);
      assert s[..j + 1] == [s[0]] + s[1..][..j];
      j + 1
  }

  /** `Vec::swap_remove(i)`: the last entry takes the place of entry `i`. */
  function SwapRemoved(s: seq<nat>, i: nat): seq<nat>
    requires i < |s|
  {
    s[i := s[|s| - 1]][..|s| - 1]
  }

  /**
    Swap-removal from a duplicate-free stack: one fewer entry, exactly `s[i]`
    gone, every other position below the last in place, the last entry moved
    to `i` (when `i` was not last), and the result still duplicate-free.
  */
  lemma SwapRemovedProperties(s: seq<nat>, i: nat)
    requires NoDup(s) && i < |s|
    ensures |SwapRemoved(s, i)| == |s| - 1
    ensures forall j :: 0 <= j < |s| - 1 && j != i ==> SwapRemoved(s, i)[j] == s[j]
    ensures i < |s| - 1 ==> SwapRemoved(s, i)[i] == s[|s| - 1]
    ensures forall x :: x in SwapRemoved(s, i) <==> x in s && x != s[i]
    ensures NoDup(SwapRemoved(s, i))
  {
    var r := SwapRemoved(s, i);
    forall x | x in s && x != s[i] ensures x in r {
      var k :| 0 <= k < |s| && s[k] == x;
      if k == |s| - 1 {
        assert r[i] == x;
      } else {
        assert r[k] == x;
      }
    }
  }

  /**
    A worked example, on one input (the all-inputs fact is
    `SwapRemovedProperties`): swapping out the first of `[a, b, c]` gives
    `[c, b]`, where order-preserving removal gives `[b, c]`.
  */
  lemma SwapRemoveReorders(a: nat, b: nat, c: nat)
    requires NoDup([a, b, c])
    ensures SwapRemoved([a, b, c], 0) == [c, b]
    ensures RemoveId([a, b, c], a) == [b, c]
    ensures SwapRemoved([a, b, c], 0) != RemoveId([a, b, c], a)
  {
    assert [a, b, c][1..] == [b, c];
    assert [c, b][0] != [b, c][0];
  }

  /**
    The older removal leaves the moved surface's image index stale: when the
    removed surface was not the last one, the surface that takes its place
    still carries the index of the old last slot, which is one past the end
    of the views listed in stack order.
  */
  lemma SwapRemoveStalesIndex(stack: seq<nat>, b: BufferState<LegacySurfaceInfo>, i: nat)
    requires LegacyPoolValid(stack, b) && LegacyIndexConsistent(stack, b)
    requires i < |stack| - 1
    ensures var s1 := SwapRemoved(stack, i);
            var b1 := ReleasePending(b, stack[i]).0;
            && LegacyPoolValid(s1, b1)
            && Instance(b1, s1[i]).imageIndex == |s1|
            && Instance(b1, s1[i]).imageIndex >= |LegacyViewsOf(s1, b1.records)|
            && !LegacyIndexConsistent(s1, b1)
  {
    SwapRemovedProperties(stack, i);
    var s1 := SwapRemoved(stack, i);
    var b1 := ReleasePending(b, stack[i]).0;
    assert LegacyPoolValid(s1, b1);
    assert stack[|stack| - 1] in b1.instances;
    assert Instance(b1, s1[i]) == Instance(b, stack[|stack| - 1]);
  }

  /** The collaborator once the writes of each stack position into its surface's image index are queued. */
  function LegacyReindexed(b: BufferState<LegacySurfaceInfo>, stack: seq<nat>): BufferState<LegacySurfaceInfo>
  {
    b.(pending := b.pending + ReindexWrites(stack))
  }

  /**
    The repair: after any removal, queueing the write of each stack position
    into its surface's image index (what the current pool's
    `update_image_indexes` does) makes every image index select the
    surface's own view again.
  */
  lemma SwapRemoveThenReindex(stack: seq<nat>, b: BufferState<LegacySurfaceInfo>, i: nat)
    requires LegacyPoolValid(stack, b) && i < |stack|
    ensures var s1 := SwapRemoved(stack, i);
            var b1 := LegacyReindexed(ReleasePending(b, stack[i]).0, s1);
            && LegacyPoolValid(s1, b1)
            && LegacyIndexConsistent(s1, b1)
            && LegacyViewsSelected(s1, b1)
  {
    SwapRemovedProperties(stack, i);
    var s1 := SwapRemoved(stack, i);
    var b0 := ReleasePending(b, stack[i]).0;
    assert LegacyPoolValid(s1, b0);
    LegacyReindexRestores(s1, b0);
  }

  /** Reindexing a valid pool makes it index-consistent, and then each image index selects its own view. */
  lemma LegacyReindexRestores(stack: seq<nat>, b: BufferState<LegacySurfaceInfo>)
    requires LegacyPoolValid(stack, b)
    ensures LegacyPoolValid(stack, LegacyReindexed(b, stack))
    ensures LegacyIndexConsistent(stack, LegacyReindexed(b, stack))
    ensures LegacyViewsSelected(stack, LegacyReindexed(b, stack))
  {
    var w := ReindexWrites(stack);
    var r := LegacyReindexed(b, stack);
    assert w[..|stack|] == w;
    forall i | 0 <= i < |stack| ensures Instance(r, stack[i]).imageIndex == i {
      ApplyWritesConcat(b.instances[stack[i]], stack[i], b.pending, w);
      ReindexPrefix(Instance(b, stack[i]), stack, i, |stack|);
    }
    forall x | x in r.pending ensures x.id in r.records {
      if x in w {
        var k :| 0 <= k < |w| && w[k] == x;
        assert stack[k] in stack;
      }
    }
    forall id | id in stack
      ensures && Instance(r, id).imageIndex < |LegacyViewsOf(stack, r.records)|
              && LegacyViewsOf(stack, r.records)[Instance(r, id).imageIndex] == r.records[id].textureViewId
    {
      var i :| 0 <= i < |stack| && stack[i] == id;
    }
  }

  /**
    The registry went from (`d0`, `log0`) to (`d1`, `log1`) by registering
    texture `t` and view `v` for a decoded image under fresh ids and
    uploading its pixels.
  */
  ghost predicate RegistersDecoded(d0: map<nat, Descriptor>, log0: seq<Request>,
                                   d1: map<nat, Descriptor>, log1: seq<Request>,
                                   device: DeviceId, name: string, t: nat, v: nat, image: DecodedImage)
  {
    var requests := ImageRequests(device, name, t, v, image);
    && t !in d0 && v !in d0 && t != v
    && log1 == log0 + requests
    && d1 == d0[t := requests[0].descriptor][v := requests[1].descriptor]
  }

  /** The registry part of the older `create_surface`: texture, view, then the pixel upload. */
  method RegisterDecodedImage(ctx: UpdateContext, device: DeviceId, name: string, image: DecodedImage)
    returns (t: nat, v: nat)
    requires ctx.Valid()
    modifies ctx
    ensures ctx.Valid()
    ensures RegistersDecoded(old(ctx.descriptors), old(ctx.requests), ctx.descriptors, ctx.requests, device, name, t, v, image)
  {
    t := ctx.Add(TextureDesc(ImageTexture(device, name, image)));
    v := ctx.Add(TextureViewDesc(PrepareTextureView(device, name + " texture view", TextureId(t), Rgba8UnormSrgb)));
    ctx.WriteResource(PrepareTextureWrite(TextureId(t), image.pixels, Extent3d(image.width, image.height, 1), ImageLayout(image)));
  }

  /**
    Appending a fresh surface whose image index is the next slot keeps the
    pool valid, leaves every earlier surface's record as it was, and keeps an
    index-consistent pool index-consistent.
  */
  lemma AppendKeepsConsistency(stack: seq<nat>, b: BufferState<LegacySurfaceInfo>, id: nat, rec: LegacySurfaceInfo)
    requires LegacyPoolValid(stack, b) && id !in stack
    ensures var b1 := Buffers.Request(b, id, rec, LegacyData(rec, |stack|));
            && LegacyPoolValid(stack + [id], b1)
            && Instance(b1, id).imageIndex == |stack|
            && (forall k :: k in b.instances ==> Instance(b1, k) == Instance(b, k))
            && (LegacyIndexConsistent(stack, b) ==> LegacyIndexConsistent(stack + [id], b1))
  {
    var s1 := stack + [id];
    assert NoDup(s1) by {
      assert forall k :: 0 <= k < |s1| - 1 ==> s1[k] in stack;
    }
  }

  class LegacySurfaceManager {
    const device: DeviceId
    const buffer: BufferId
    var idCounter: nat
    var stack: seq<nat>
    var dataBuffer: BufferState<LegacySurfaceInfo>

    ghost predicate Valid()
      reads this
    {
      LegacyPoolValid(stack, dataBuffer) && dataBuffer.buffer == buffer
    }

    /** `new`: an empty pool whose instance buffer is registered with the engine. */
    constructor (ctx: UpdateContext, device: DeviceId)
      requires ctx.Valid()
      modifies ctx
      ensures Valid() && ctx.Valid()
      ensures this.device == device && idCounter == 0 && stack == [] && dataBuffer.records == map[] && dataBuffer.pending == []
      ensures buffer.raw !in old(ctx.descriptors)
      ensures ctx.descriptors == old(ctx.descriptors)[buffer.raw := BufferDesc(BufferDescriptor(device, "SurfaceManager buffer", 32, true))]
      ensures ctx.requests == old(ctx.requests) + [Added(buffer.raw, BufferDesc(BufferDescriptor(device, "SurfaceManager buffer", 32, true)))]
    {
      var b := NewBuffer<LegacySurfaceInfo>(ctx, device, "SurfaceManager buffer", 32);
      this.device := device;
      this.buffer := b.buffer;
      idCounter := 0;
      stack := [];
      dataBuffer := b;
    }

    /** `book_id`: the current counter, which then moves past it. */
    method BookId() returns (id: nat)
      requires Valid()
      modifies this
      ensures Valid()
      ensures id == old(idCounter) && idCounter == id + 1
      ensures stack == old(stack) && dataBuffer == old(dataBuffer)
    {
      id := idCounter;
      idCounter := idCounter + 1;
    }

    /** `len`: the number of live surfaces. */
    function Len(): (n: nat)
      reads this
      requires Valid()
      ensures n == |stack| == NextSlot(dataBuffer)
    {
      LegacySlotCount(stack, dataBuffer);
      |stack|
    }

    /** `rectangle_views`: the texture view of every live surface, in stack order. */
    function RectangleViews(): (r: seq<TextureViewId>)
      reads this
      requires Valid()
      ensures |r| == |stack|
      ensures forall i :: 0 <= i < |stack| ==> r[i] == dataBuffer.records[stack[i]].textureViewId
    {
      LegacyViewsOf(stack, dataBuffer.records)
    }

    /**
      `create_surface` for a file source: registers the RGBA texture and its
      view, uploads the decoded pixels, and appends `id` with an instance
      record whose image index is the next slot.  Earlier surfaces are
      unaffected, so an index-consistent pool stays index-consistent.
    */
    method CreateSurface(ctx: UpdateContext, name: string, id: nat, image: DecodedImage,
                         position: Position, size: Size)
      requires Valid() && ctx.Valid() && id !in stack
      modifies this, ctx
      ensures Valid() && ctx.Valid()
      ensures stack == old(stack) + [id] && idCounter == old(idCounter)
      ensures dataBuffer.records.Keys == old(dataBuffer.records).Keys + {id}
      ensures forall k :: k in old(dataBuffer.records) ==>
                dataBuffer.records[k] == old(dataBuffer.records)[k] && Instance(dataBuffer, k) == Instance(old(dataBuffer), k)
      ensures var rec := dataBuffer.records[id];
              && rec.position == position && rec.size == size
              && Instance(dataBuffer, id) == Surface(position, size, |old(stack)|)
              && RegistersDecoded(old(ctx.descriptors), old(ctx.requests), ctx.descriptors, ctx.requests,
                                  device, name, rec.textureId.raw, rec.textureViewId.raw, image)
      ensures LegacyIndexConsistent(old(stack), old(dataBuffer)) ==> LegacyIndexConsistent(stack, dataBuffer)
    {
      var t, v := RegisterDecodedImage(ctx, device, name, image);
      var surface := LegacySurfaceInfo(TextureId(t), TextureViewId(v), position, size);
      LegacySlotCount(stack, dataBuffer);
      AppendKeepsConsistency(stack, dataBuffer, id, surface);
      dataBuffer := Buffers.Request(dataBuffer, id, surface, LegacyData(surface, NextSlot(dataBuffer)));
      stack := stack + [id];
    }

    /** `resize_surface`: queues a write of the size field; true iff the surface is known. */
    method ResizeSurface(id: nat, size: Size) returns (ok: bool)
      requires Valid()
      modifies this
      ensures Valid()
      ensures ok == (id in old(stack))
      ensures stack == old(stack) && idCounter == old(idCounter) && dataBuffer.records == old(dataBuffer.records)
      ensures dataBuffer.instances.Keys == old(dataBuffer.instances).Keys
      ensures forall k :: k in old(dataBuffer.instances) ==>
                Instance(dataBuffer, k) == if k == id then Instance(old(dataBuffer), k).(size := size) else Instance(old(dataBuffer), k)
    {
      var (b, known) := PendingWriteField(dataBuffer, SizeWrite(id, size));
      dataBuffer := b;
      ok := known;
    }

    /** `move_surface`: queues a write of the position field; true iff the surface is known. */
    method MoveSurface(id: nat, position: Position) returns (ok: bool)
      requires Valid()
      modifies this
      ensures Valid()
      ensures ok == (id in old(stack))
      ensures stack == old(stack) && idCounter == old(idCounter) && dataBuffer.records == old(dataBuffer.records)
      ensures dataBuffer.instances.Keys == old(dataBuffer.instances).Keys
      ensures forall k :: k in old(dataBuffer.instances) ==>
                Instance(dataBuffer, k) == if k == id then Instance(old(dataBuffer), k).(position := position) else Instance(old(dataBuffer), k)
    {
      var (b, known) := PendingWriteField(dataBuffer, PositionWrite(id, position));
      dataBuffer := b;
      ok := known;
    }

    /**
      `remove_surface`: a known surface is released and swap-removed from
      the stack (the last surface takes its place); an unknown id changes
      nothing and yields false.  The texture and view stay registered, and
      no image index is rewritten (see `SwapRemoveStalesIndex`).
    */
    method RemoveSurface(id: nat) returns (ok: bool)
      requires Valid()
      modifies this
      ensures Valid()
      ensures ok == (id in old(stack)) && idCounter == old(idCounter)
      ensures stack == if ok then SwapRemoved(old(stack), PositionOf(old(stack), id)) else old(stack)
      ensures (dataBuffer, if ok then Some(old(dataBuffer).records[id]) else None) == ReleasePending(old(dataBuffer), id)
    {
      var (b, associated) := ReleasePending(dataBuffer, id);
      dataBuffer := b;
      if associated.Some? {
        var index := IndexOf(stack, id);
        NoDupFirst(stack, index);
        assert index == PositionOf(stack, id);
        SwapRemovedProperties(stack, index);
        stack := SwapRemoved(stack, index);
        ok := true;
      } else {
        ok := false;
      }
    }

    /** `update`: uploads the queued writes; no commands exactly when nothing was queued. */
    method Update() returns (commands: seq<Command>)
      requires Valid()
      modifies this
      ensures Valid()
      ensures stack == old(stack) && idCounter == old(idCounter)
      ensures (dataBuffer, commands) == Flush(old(dataBuffer))
    {
      var (b, cs) := Flush(dataBuffer);
      dataBuffer := b;
      commands := cs;
    }
  }
}
