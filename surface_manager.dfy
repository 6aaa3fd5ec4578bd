/**
  The surface pool (`SurfaceManager`) of the current tree.  It keeps the
  ordered `stack` of live surface ids, hands out ids from a counter, and keeps
  each surface's record and instance data in the instance-buffer collaborator.
  The stack order is the order of the texture array the shader samples, and
  `UpdateImageIndexes` writes each surface's stack position into its
  instance record, so that the record points at its own texture.
*/
module SurfacePool {
  import opened Wrappers
  import opened Engine
  import opened Surfaces
  import opened Buffers
  import opened TexturePrep

  /** No id occurs twice. */
  predicate NoDup(s: seq<nat>)
  {
    forall i, j :: 0 <= i < j < |s| ==> s[i] != s[j]
  }

  /** Dropping the first element keeps a sequence duplicate-free. */
  lemma NoDupTail(s: seq<nat>)
    requires NoDup(s) && s != []
    ensures NoDup(s[1..]) && s[0] !in s[1..]
  {
    forall i, j | 0 <= i < j < |s| - 1 ensures s[1..][i] != s[1..][j] {
      assert s[1..][i] == s[i + 1] && s[1..][j] == s[j + 1];
    }
    forall k | 0 <= k < |s| - 1 ensures s[1..][k] != s[0] {
      assert s[1..][k] == s[k + 1];
    }
  }

  /** The set of elements of a sequence. */
  function Elements(s: seq<nat>): (r: set<nat>)
    ensures forall x :: x in r <==> x in s
  {
    set x | x in s
  }

  /** A duplicate-free sequence has as many distinct elements as positions. */
  lemma {:induction false} DistinctCount(s: seq<nat>)
    requires NoDup(s)
    ensures |Elements(s)| == |s|
  {
    if s != [] {
      var t := s[1..];
      NoDupTail(s);
      DistinctCount(t);
      assert s == [s[0]] + t;
      assert Elements(s) == Elements(t) + {s[0]};
    }
  }

  /**
    The pool's invariant over its stack and the collaborator: ids are not
    repeated and an id is on the stack exactly when it has a record.
  */
  ghost predicate PoolValid(stack: seq<nat>, b: BufferState<SurfaceInfo>)
  {
    && b.Valid()
    && NoDup(stack)
    && (forall id :: id in stack <==> id in b.records)
  }

  /** Slots in use are exactly the surfaces on the stack. */
  lemma SlotCount(stack: seq<nat>, b: BufferState<SurfaceInfo>)
    requires PoolValid(stack, b)
    ensures NextSlot(b) == |stack|
  {
    DistinctCount(stack);
    assert b.records.Keys == Elements(stack);
  }

  /** The texture views of the surfaces on `stack`, in stack order. */
  function ViewsOf(stack: seq<nat>, records: map<nat, SurfaceInfo>): (r: seq<TextureViewId>)
    requires forall id :: id in stack ==> id in records
    ensures |r| == |stack|
    ensures forall i :: 0 <= i < |stack| ==> r[i] == records[stack[i]].textureViewId
  {
    if stack == [] then [] else [records[stack[0]].textureViewId] + ViewsOf(stack[1..], records)
  }

  /** The writes `update_image_indexes` queues: position `i` of the stack for `stack[i]`. */
  function ReindexWrites(stack: seq<nat>): seq<FieldWrite>
  {
    seq(|stack|, i requires 0 <= i < |stack| => ImageIndexWrite(stack[i], i))
  }

  /** The collaborator once the reindexing writes are queued. */
  function Reindexed(b: BufferState<SurfaceInfo>, stack: seq<nat>): BufferState<SurfaceInfo>
  {
    b.(pending := b.pending + ReindexWrites(stack))
  }

  /** Every surface's pending image index is its position on the stack. */
  ghost predicate IndexConsistent(stack: seq<nat>, b: BufferState<SurfaceInfo>)
    requires forall id :: id in stack ==> id in b.instances
  {
    forall i :: 0 <= i < |stack| ==> Instance(b, stack[i]).imageIndex == i
  }

  /** Of the first `n` reindexing writes, only the one at position `i` concerns `stack[i]`. */
  lemma {:induction false} ReindexPrefix(s: Surface, stack: seq<nat>, i: nat, n: nat)
    requires NoDup(stack) && i < |stack| && n <= |stack|
    ensures ApplyWrites(s, stack[i], ReindexWrites(stack)[..n]) == if i < n then s.(imageIndex := i) else s
  {
    var w := ReindexWrites(stack);
    if n == 0 {
      assert w[..n] == [];
    } else {
      ReindexPrefix(s, stack, i, n - 1);
      assert w[..n] == w[..n - 1] + [w[n - 1]];
      ApplyWritesAppend(s, stack[i], w[..n - 1], w[n - 1]);
      assert w[n - 1].id == stack[i] <==> n - 1 == i;
    }
  }

  /**
    Reindexing sets the pending image index of every surface to its stack
    position and changes nothing else of any surface's record.
  */
  lemma ReindexedInstances(stack: seq<nat>, b: BufferState<SurfaceInfo>)
    requires PoolValid(stack, b)
    ensures PoolValid(stack, Reindexed(b, stack))
    ensures Reindexed(b, stack).records == b.records && Reindexed(b, stack).instances == b.instances
    ensures forall i :: 0 <= i < |stack| ==>
              Instance(Reindexed(b, stack), stack[i]) == Instance(b, stack[i]).(imageIndex := i)
  {
    var w := ReindexWrites(stack);
    assert w[..|stack|] == w;
    forall i | 0 <= i < |stack|
      ensures Instance(Reindexed(b, stack), stack[i]) == Instance(b, stack[i]).(imageIndex := i)
    {
      ApplyWritesConcat(b.instances[stack[i]], stack[i], b.pending, w);
      ReindexPrefix(Instance(b, stack[i]), stack, i, |stack|);
    }
    forall x | x in Reindexed(b, stack).pending ensures x.id in b.records {
      if x in w {
        var k :| 0 <= k < |w| && w[k] == x;
        assert stack[k] in stack;
      }
    }
  }

  /** After reindexing, every surface's image index is its stack position. */
  lemma ReindexEstablishesConsistency(stack: seq<nat>, b: BufferState<SurfaceInfo>)
    requires PoolValid(stack, b)
    ensures PoolValid(stack, Reindexed(b, stack))
    ensures IndexConsistent(stack, Reindexed(b, stack))
  {
    ReindexedInstances(stack, b);
  }

  /** Reindexing twice leaves every surface's pending record as reindexing once. */
  lemma ReindexIdempotent(stack: seq<nat>, b: BufferState<SurfaceInfo>)
    requires PoolValid(stack, b)
    ensures PoolValid(stack, Reindexed(Reindexed(b, stack), stack))
    ensures forall id :: id in stack ==>
              Instance(Reindexed(Reindexed(b, stack), stack), id) == Instance(Reindexed(b, stack), id)
  {
    ReindexedInstances(stack, b);
    ReindexedInstances(stack, Reindexed(b, stack));
    forall id | id in stack
      ensures Instance(Reindexed(Reindexed(b, stack), stack), id) == Instance(Reindexed(b, stack), id)
    {
      var i :| 0 <= i < |stack| && stack[i] == id;
    }
  }

  /** Each live surface's image index selects its own texture view among the views in stack order. */
  ghost predicate ViewsSelected(stack: seq<nat>, b: BufferState<SurfaceInfo>)
    requires PoolValid(stack, b)
  {
    forall id :: id in stack ==>
      && Instance(b, id).imageIndex < |ViewsOf(stack, b.records)|
      && ViewsOf(stack, b.records)[Instance(b, id).imageIndex] == b.records[id].textureViewId
  }

  /**
    The central property: when image indexes are consistent with the stack,
    each live surface's image index selects its own texture view in the array
    of views listed in stack order.
  */
  lemma ViewAtImageIndex(stack: seq<nat>, b: BufferState<SurfaceInfo>)
    requires PoolValid(stack, b) && IndexConsistent(stack, b)
    ensures ViewsSelected(stack, b)
  {
    forall id | id in stack
      ensures && Instance(b, id).imageIndex < |ViewsOf(stack, b.records)|
              && ViewsOf(stack, b.records)[Instance(b, id).imageIndex] == b.records[id].textureViewId
    {
      var i :| 0 <= i < |stack| && stack[i] == id;
    }
  }

  /** `stack` without the first occurrence of `id` (`Vec::remove` at the found position). */
  function RemoveId(s: seq<nat>, id: nat): seq<nat>
  {
    if s == [] then []
    else if s[0] == id then s[1..]
    else [s[0]] + RemoveId(s[1..], id)
  }

  /** Removing the first occurrence, found at `i`, closes the gap: the others keep their order. */
  lemma {:induction false} RemoveIdAt(s: seq<nat>, id: nat, i: nat)
    requires i < |s| && s[i] == id && id !in s[..i]
    ensures RemoveId(s, id) == s[..i] + s[i + 1..]
  {
    if i > 0 {
      assert s[0] in s[..i];
      assert id !in s[1..][..i - 1] by {
        assert s[1..][..i - 1] == s[1..i];
        assert forall x :: x in s[1..i] ==> x in s[..i];
      }
      RemoveIdAt(s[1..], id, i - 1);
      assert s[..i] == [s[0]] + s[1..][..i - 1];
      assert s[i + 1..] == s[1..][i..];
    }
  }

  /** Positions of `RemoveId` map back to positions of the original, skipping `i`. */
  lemma RemoveIdShift(s: seq<nat>, id: nat, i: nat)
    requires i < |s| && s[i] == id && id !in s[..i]
    ensures |RemoveId(s, id)| == |s| - 1
    ensures forall j :: 0 <= j < i ==> RemoveId(s, id)[j] == s[j]
    ensures forall j :: i <= j < |s| - 1 ==> RemoveId(s, id)[j] == s[j + 1]
  {
    RemoveIdAt(s, id, i);
    var r := s[..i] + s[i + 1..];
    forall j | 0 <= j < i ensures r[j] == s[j] {
      assert r[j] == s[..i][j];
    }
    forall j | i <= j < |s| - 1 ensures r[j] == s[j + 1] {
      assert r[j] == s[i + 1..][j - i];
    }
  }

  /** In a duplicate-free sequence, `id` is not before its own position. */
  lemma NoDupFirst(s: seq<nat>, i: nat)
    requires NoDup(s) && i < |s|
    ensures s[i] !in s[..i]
  {
    forall k | 0 <= k < i ensures s[..i][k] != s[i] {
      assert s[..i][k] == s[k];
    }
  }

  /**
    Order-preserving removal from a duplicate-free stack: one fewer entry,
    exactly `id` gone, entries before it in place, entries after it moved up
    by one, and the result still duplicate-free.
  */
  lemma RemoveIdProperties(s: seq<nat>, id: nat, i: nat)
    requires NoDup(s) && i < |s| && s[i] == id
    ensures |RemoveId(s, id)| == |s| - 1
    ensures forall x :: x in RemoveId(s, id) <==> x in s && x != id
    ensures forall j :: 0 <= j < i ==> RemoveId(s, id)[j] == s[j]
    ensures forall j :: i <= j < |s| - 1 ==> RemoveId(s, id)[j] == s[j + 1]
    ensures NoDup(RemoveId(s, id))
  {
    NoDupFirst(s, i);
    RemoveIdShift(s, id, i);
    var r := RemoveId(s, id);
    forall x | x in r ensures x in s && x != id {
      var k :| 0 <= k < |r| && r[k] == x;
      if k < i {
        assert r[k] == s[k] && s[k] != s[i];
      } else {
        assert r[k] == s[k + 1] && s[k + 1] != s[i];
      }
    }
    forall x | x in s && x != id ensures x in r {
      var k :| 0 <= k < |s| && s[k] == x;
      if k < i {
        assert r[k] == s[k];
      } else {
        assert k != i && r[k - 1] == s[k];
      }
    }
    forall a, c | 0 <= a < c < |r| ensures r[a] != r[c] {
      if c < i {
        assert r[a] == s[a] && r[c] == s[c];
      } else if a < i {
        assert r[a] == s[a] && r[c] == s[c + 1];
      } else {
        assert r[a] == s[a + 1] && r[c] == s[c + 1];
      }
    }
  }

  /** The position of `id` in `s`: the first one (`iter().position`). */
  method IndexOf(s: seq<nat>, id: nat) returns (i: nat)
    requires id in s
    ensures i < |s| && s[i] == id && id !in s[..i]
  {
    i := 0;
    while s[i] != id
      invariant i < |s| && id in s[i..] && id !in s[..i]
      decreases |s| - i
    {
      assert s[i..] == [s[i]] + s[i + 1..];
      assert s[..i + 1] == s[..i] + [s[i]];
      i := i + 1;
    }
  }

  /** The registry requests `create_surface` issues for texture `t` and view `v`, in order. */
  function CreationRequests(device: DeviceId, name: string, t: nat, v: nat, source: SurfaceSource): seq<Request>
  {
    var (descriptor, data, layout) := PrepareTexture(device, name, source);
    [Added(t, TextureDesc(descriptor)),
     Added(v, TextureViewDesc(PrepareTextureView(device, name, TextureId(t), descriptor.format)))]
    + (if data.Some? then [Written(PrepareTextureWrite(TextureId(t), data.value, descriptor.size, layout))] else [])
  }

  /**
    The registry went from (`d0`, `log0`) to (`d1`, `log1`) by registering
    texture `t` and view `v` for `source` under fresh ids and uploading its
    pixels, as `create_surface` does.
  */
  ghost predicate RegistersImage(d0: map<nat, Descriptor>, log0: seq<Request>,
                                 d1: map<nat, Descriptor>, log1: seq<Request>,
                                 device: DeviceId, name: string, t: nat, v: nat, source: SurfaceSource)
  {
    var requests := CreationRequests(device, name, t, v, source);
    && t !in d0 && v !in d0 && t != v
    && log1 == log0 + requests
    && d1 == d0[t := requests[0].descriptor][v := requests[1].descriptor]
  }

  /** The registry part of `create_surface`: the texture, its view, and the upload of host pixels. */
  method RegisterImage(ctx: UpdateContext, device: DeviceId, name: string, source: SurfaceSource)
    returns (t: nat, v: nat)
    requires ctx.Valid()
    modifies ctx
    ensures ctx.Valid()
    ensures RegistersImage(old(ctx.descriptors), old(ctx.requests), ctx.descriptors, ctx.requests, device, name, t, v, source)
  {
    var (textureDescriptor, textureData, layout) := PrepareTexture(device, name, source);
    t := ctx.Add(TextureDesc(textureDescriptor));
    var viewDescriptor := PrepareTextureView(device, name, TextureId(t), textureDescriptor.format);
    v := ctx.Add(TextureViewDesc(viewDescriptor));
    if textureData.Some? {
      ctx.WriteResource(PrepareTextureWrite(TextureId(t), textureData.value, textureDescriptor.size, layout));
    }
  }

  /** The layout `update_data` uploads with: rows of `block_size * width` bytes, `height` rows. */
  function DataLayout(d: TextureDescriptor): ImageDataLayout
  {
    ImageDataLayout(0, NonZero(U32Mul(BlockSize(d.format), d.size.width)), NonZero(d.size.height))
  }

  /**
    For a host bitmap whose rows are tightly packed (stride = block size x
    width), re-uploading pixels uses the layout of the first upload.
  */
  lemma DataLayoutMatchesCreation(device: DeviceId, name: string, host: HostAllocationInfo, pixels: seq<byte>)
    requires host.stride == BlockSize(host.format) * host.size.width < U32_MODULUS
    ensures DataLayout(PrepareTexture(device, name, HostAllocation(host, pixels)).0)
            == PrepareTexture(device, name, HostAllocation(host, pixels)).2
  {
  }

  class SurfaceManager {
    const device: DeviceId
    const buffer: BufferId
    var idCounter: nat
    var stack: seq<nat>
    var dataBuffer: BufferState<SurfaceInfo>

    ghost predicate Valid()
      reads this
    {
      PoolValid(stack, dataBuffer) && dataBuffer.buffer == buffer
    }

    /** `new`: an empty pool whose instance buffer is registered with the engine. */
    constructor (ctx: UpdateContext, device: DeviceId)
      requires ctx.Valid()
      modifies ctx
      ensures Valid() && ctx.Valid()
      ensures this.device == device && idCounter == 0 && stack == [] && dataBuffer.records == map[]
      ensures buffer.raw !in old(ctx.descriptors)
      ensures ctx.descriptors == old(ctx.descriptors)[buffer.raw := BufferDesc(BufferDescriptor(device, "SurfaceManager buffer", 32, true))]
      ensures ctx.requests == old(ctx.requests) + [Added(buffer.raw, BufferDesc(BufferDescriptor(device, "SurfaceManager buffer", 32, true)))]
    {
      var b := NewBuffer<SurfaceInfo>(ctx, device, "SurfaceManager buffer", 32);
      this.device := device;
      this.buffer := b.buffer;
      idCounter := 0;
      stack := [];
      dataBuffer := b;
    }

    /** `book_id`: the current counter, which then moves past it, so no id is booked twice. */
    method BookId() returns (id: nat)
      requires Valid()
      modifies this
      ensures Valid()
      ensures id == old(idCounter) && idCounter == id + 1
      ensures stack == old(stack) && dataBuffer == old(dataBuffer)
    {
      id := idCounter;
      idCounter := idCounter + 1;
    }

    /** `len`: the number of live surfaces (`SlotCount`: also the number of buffer slots in use). */
    function Len(): (n: nat)
      reads this
      ensures n == |stack|
    {
      |stack|
    }

    /** `rectangle_views`: the texture view of every live surface, in stack order. */
    function RectangleViews(): (r: seq<TextureViewId>)
      reads this
      requires Valid()
      ensures |r| == |stack|
      ensures forall i :: 0 <= i < |stack| ==> r[i] == dataBuffer.records[stack[i]].textureViewId
    {
      ViewsOf(stack, dataBuffer.records)
    }

    /**
      `create_surface`: registers the texture and its view, uploads host
      pixels, and appends `id` to the stack with an instance record whose
      image index is the next slot.  Earlier surfaces are unaffected.
    */
    method CreateSurface(ctx: UpdateContext, name: string, id: nat, source: SurfaceSource,
                         position: Position, size: Size)
      requires Valid() && ctx.Valid() && id !in stack
      modifies this, ctx
      ensures Valid() && ctx.Valid()
      ensures stack == old(stack) + [id] && idCounter == old(idCounter)
      ensures dataBuffer.records.Keys == old(dataBuffer.records).Keys + {id}
      ensures forall k :: k in old(dataBuffer.records) ==>
                dataBuffer.records[k] == old(dataBuffer.records)[k] && Instance(dataBuffer, k) == Instance(old(dataBuffer), k)
      ensures var rec := dataBuffer.records[id];
              && rec == NewSurfaceInfo(rec.textureId, rec.textureViewId, SourceInfo(source), position, size)
              && Instance(dataBuffer, id) == GenerateData(rec, |old(stack)|)
              && RegistersImage(old(ctx.descriptors), old(ctx.requests), ctx.descriptors, ctx.requests,
                                device, name, rec.textureId.raw, rec.textureViewId.raw, source)
    {
      var t, v := RegisterImage(ctx, device, name, source);
      var surface := NewSurfaceInfo(TextureId(t), TextureViewId(v), SourceInfo(source), position, size);
      SlotCount(stack, dataBuffer);
      var nextSlot := NextSlot(dataBuffer);
      dataBuffer := Buffers.Request(dataBuffer, id, surface, GenerateData(surface, nextSlot));
      stack := stack + [id];
      assert NoDup(stack) by {
        assert forall k :: 0 <= k < |stack| - 1 ==> stack[k] in old(stack);
      }
    }

    /**
      `update_source`: re-describes the texture of a known surface from the
      new source, keeping the name the texture was registered under (to which
      `prepare_texture` appends " texture" once more), and uploads host
      pixels.  The pool itself, including the stored source description, is
      unchanged; an unknown surface or texture changes nothing.
    */
    method UpdateSource(ctx: UpdateContext, id: nat, source: SurfaceSource)
      requires Valid() && ctx.Valid()
      modifies ctx
      ensures ctx.Valid()
      ensures if id in dataBuffer.records && old(ctx.TextureDescriptorOf(dataBuffer.records[id].textureId)).Some? then
                var texture := dataBuffer.records[id].textureId;
                var (descriptor, data, layout) :=
                  PrepareTexture(device, old(ctx.TextureDescriptorOf(texture)).value.name, source);
                && ctx.descriptors == old(ctx.descriptors)[texture.raw := TextureDesc(descriptor)]
                && ctx.requests == old(ctx.requests) + [Updated(texture.raw, TextureDesc(descriptor))]
                     + (if data.Some? then [Written(PrepareTextureWrite(texture, data.value, descriptor.size, layout))] else [])
              else
                ctx.descriptors == old(ctx.descriptors) && ctx.requests == old(ctx.requests)
    {
      if id in dataBuffer.records {
        var surfaceInfo := dataBuffer.records[id];
        var current := ctx.TextureDescriptorOf(surfaceInfo.textureId);
        if current.Some? {
          var (descriptor, data, layout) := PrepareTexture(device, current.value.name, source);
          var _ := ctx.Update(surfaceInfo.textureId.raw, TextureDesc(descriptor));
          if data.Some? {
            ctx.WriteResource(PrepareTextureWrite(surfaceInfo.textureId, data.value, descriptor.size, layout));
          }
        }
      }
    }

    /**
      `update_data`: uploads new pixels to a known surface's texture, with
      the texture's registered size and a tightly packed layout; an unknown
      surface or texture uploads nothing.  No descriptor changes.
    */
    method UpdateData(ctx: UpdateContext, id: nat, data: seq<byte>)
      requires Valid() && ctx.Valid()
      modifies ctx
      ensures ctx.Valid() && ctx.descriptors == old(ctx.descriptors)
      ensures if id in dataBuffer.records && old(ctx.TextureDescriptorOf(dataBuffer.records[id].textureId)).Some? then
                var texture := dataBuffer.records[id].textureId;
                var descriptor := old(ctx.TextureDescriptorOf(texture)).value;
                ctx.requests == old(ctx.requests) + [Written(PrepareTextureWrite(texture, data, descriptor.size, DataLayout(descriptor)))]
              else
                ctx.requests == old(ctx.requests)
    {
      if id in dataBuffer.records {
        var surfaceInfo := dataBuffer.records[id];
        var current := ctx.TextureDescriptorOf(surfaceInfo.textureId);
        if current.Some? {
          ctx.WriteResource(PrepareTextureWrite(surfaceInfo.textureId, data, current.value.size, DataLayout(current.value)));
        }
      }
    }

    /** `resize_surface`: queues a write of the size field; true iff the surface is known. */
    method ResizeSurface(id: nat, size: Size) returns (ok: bool)
      requires Valid()
      modifies this
      ensures Valid()
      ensures ok == (id in old(stack))
      ensures stack == old(stack) && idCounter == old(idCounter) && dataBuffer.records == old(dataBuffer.records)
      ensures dataBuffer.instances.Keys == old(dataBuffer.instances).Keys
      ensures forall k :: k in old(dataBuffer.instances) ==>
                Instance(dataBuffer, k) == if k == id then Instance(old(dataBuffer), k).(size := size) else Instance(old(dataBuffer), k)
      ensures !ok ==> dataBuffer == old(dataBuffer)
    {
      var (b, known) := PendingWriteField(dataBuffer, SizeWrite(id, size));
      dataBuffer := b;
      ok := known;
    }

    /** `move_surface`: queues a write of the position field; true iff the surface is known. */
    method MoveSurface(id: nat, position: Position) returns (ok: bool)
      requires Valid()
      modifies this
      ensures Valid()
      ensures ok == (id in old(stack))
      ensures stack == old(stack) && idCounter == old(idCounter) && dataBuffer.records == old(dataBuffer.records)
      ensures dataBuffer.instances.Keys == old(dataBuffer.instances).Keys
      ensures forall k :: k in old(dataBuffer.instances) ==>
                Instance(dataBuffer, k) == if k == id then Instance(old(dataBuffer), k).(position := position) else Instance(old(dataBuffer), k)
      ensures !ok ==> dataBuffer == old(dataBuffer)
    {
      var (b, known) := PendingWriteField(dataBuffer, PositionWrite(id, position));
      dataBuffer := b;
      ok := known;
    }

    /**
      `remove_surface`: a known surface leaves the stack without reordering
      the others, and its view and then its texture are removed from the
      registry; an unknown id changes nothing and yields false.
    */
    method RemoveSurface(ctx: UpdateContext, id: nat) returns (ok: bool)
      requires Valid() && ctx.Valid()
      modifies this, ctx
      ensures Valid() && ctx.Valid()
      ensures ok == (id in old(stack)) && idCounter == old(idCounter)
      ensures stack == if ok then RemoveId(old(stack), id) else old(stack)
      ensures !ok ==> dataBuffer == old(dataBuffer)
      ensures dataBuffer.records == old(dataBuffer.records) - {id}
      ensures forall k :: k in dataBuffer.instances ==> Instance(dataBuffer, k) == Instance(old(dataBuffer), k)
      ensures if ok then
                var rec := old(dataBuffer.records)[id];
                && ctx.requests == old(ctx.requests) + [Removed(rec.textureViewId.raw), Removed(rec.textureId.raw)]
                && ctx.descriptors == old(ctx.descriptors) - {rec.textureViewId.raw, rec.textureId.raw}
              else
                ctx.requests == old(ctx.requests) && ctx.descriptors == old(ctx.descriptors)
    {
      var (b, associated) := ReleasePending(dataBuffer, id);
      dataBuffer := b;
      if associated.Some? {
        var index := IndexOf(stack, id);
        RemoveIdAt(stack, id, index);
        RemoveIdProperties(stack, id, index);
        stack := stack[..index] + stack[index + 1..];
        var _ := ctx.Remove(associated.value.textureViewId.raw);
        var _ := ctx.Remove(associated.value.textureId.raw);
        ok := true;
      } else {
        ok := false;
      }
    }

    /**
      `update_image_indexes`: queues, for every position `i` of the stack, a
      write of `i` into that surface's image index.  Afterwards the pool is
      index-consistent (see `ReindexEstablishesConsistency`).
    */
    method UpdateImageIndexes()
      requires Valid()
      modifies this
      ensures Valid()
      ensures stack == old(stack) && idCounter == old(idCounter)
      ensures dataBuffer == Reindexed(old(dataBuffer), stack)
      ensures IndexConsistent(stack, dataBuffer) && ViewsSelected(stack, dataBuffer)
    {
      var order := stack;
      ghost var start := dataBuffer;
      ReindexedInstances(order, start);
      var i := 0;
      while i < |order|
        invariant 0 <= i <= |order| && order == stack && idCounter == old(idCounter)
        invariant dataBuffer == start.(pending := start.pending + ReindexWrites(order)[..i])
        invariant dataBuffer.Valid()
      {
        assert order[i] in stack;
        var (b, _) := PendingWriteField(dataBuffer, ImageIndexWrite(order[i], i));
        assert ReindexWrites(order)[..i + 1] == ReindexWrites(order)[..i] + [ImageIndexWrite(order[i], i)];
        dataBuffer := b;
        i := i + 1;
      }
      assert ReindexWrites(order)[..i] == ReindexWrites(order);
      ReindexEstablishesConsistency(stack, start);
      ViewAtImageIndex(stack, dataBuffer);
    }

    /** `update`: uploads the queued writes; no commands exactly when nothing was queued. */
    method Update() returns (commands: seq<Command>)
      requires Valid()
      modifies this
      ensures Valid()
      ensures stack == old(stack) && idCounter == old(idCounter)
      ensures (dataBuffer, commands) == Flush(old(dataBuffer))
    {
      var (b, cs) := Flush(dataBuffer);
      dataBuffer := b;
      commands := cs;
    }
  }

  /**
    A worked example, on one input, of removing a surface and creating
    another, then reindexing (the all-inputs facts are `RemoveIdProperties`
    and `ReindexEstablishesConsistency`): with
    `[a, b, c]`, removing `b` and creating `d` leaves `[a, c, d]`, and `d`
    ends up at image index 2.
  */
  lemma RemoveThenCreate(a: nat, b: nat, c: nat, d: nat)
    requires NoDup([a, b, c, d])
    ensures RemoveId([a, b, c], b) + [d] == [a, c, d]
    ensures ReindexWrites(RemoveId([a, b, c], b) + [d])[2] == ImageIndexWrite(d, 2)
  {
    assert [a, b, c][1..] == [b, c];
    assert [b, c][1..] == [c];
  }
}
