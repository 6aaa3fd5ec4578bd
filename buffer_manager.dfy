/**
  The instance-buffer collaborator (`wgpu_engine::BufferManager`), which is
  not part of this model.  The surface pool uses it only through the
  interface below, and this module states what is ASSUMED of it:

  - it associates surface ids with a record (`records`) and with the
    instance data last committed to the GPU buffer (`instances`);
  - `request` inserts both;
  - `pending_write_field` queues a write of one field of a known id's
    instance record and reports whether the id is known;
  - `release_pending` removes a known id, together with the writes still
    queued for it, and returns its record;
  - `update` (here `Flush`) commits every queued write and returns the
    upload commands, none exactly when nothing was queued;
  - `next_slot` is the number of slots in use.

  How the collaborator lays out or compacts the physical buffer is its own
  concern and is not modelled.
*/
module Buffers {
  import opened Wrappers
  import opened Engine
  import opened Surfaces

  /** A queued write of one field of one surface's instance record. */
  datatype FieldWrite =
    | PositionWrite(id: nat, position: Position)
    | SizeWrite(id: nat, size: Size)
    | ImageIndexWrite(id: nat, imageIndex: nat)

  function ApplyWrite(s: Surface, w: FieldWrite): Surface
  {
    match w
    case PositionWrite(_, p) => s.(position := p)
    case SizeWrite(_, z) => s.(size := z)
    case ImageIndexWrite(_, i) => s.(imageIndex := i)
  }

  /** The record `s` of surface `id` after the writes for `id` in `ws` are applied in order. */
  function ApplyWrites(s: Surface, id: nat, ws: seq<FieldWrite>): Surface
    decreases |ws|
  {
    if ws == [] then s
    else
      var prev := ApplyWrites(s, id, ws[..|ws| - 1]);
      if ws[|ws| - 1].id == id then ApplyWrite(prev, ws[|ws| - 1]) else prev
  }

  /** `ws` without the writes for `id`, in the same order. */
  function WithoutId(ws: seq<FieldWrite>, id: nat): (r: seq<FieldWrite>)
    ensures forall w :: w in r <==> w in ws && w.id != id
    decreases |ws|
  {
    if ws == [] then []
    else
      var rest := WithoutId(ws[..|ws| - 1], id);
      assert ws == ws[..|ws| - 1] + [ws[|ws| - 1]];
      if ws[|ws| - 1].id == id then rest else rest + [ws[|ws| - 1]]
  }

  lemma ApplyWritesAppend(s: Surface, id: nat, ws: seq<FieldWrite>, w: FieldWrite)
    ensures ApplyWrites(s, id, ws + [w])
         == if w.id == id then ApplyWrite(ApplyWrites(s, id, ws), w) else ApplyWrites(s, id, ws)
  {
    assert (ws + [w])[..|ws|] == ws;
  }

  /** Applying two batches of writes in turn is applying their concatenation. */
  lemma {:induction false} ApplyWritesConcat(s: Surface, id: nat, ws: seq<FieldWrite>, more: seq<FieldWrite>)
    ensures ApplyWrites(s, id, ws + more) == ApplyWrites(ApplyWrites(s, id, ws), id, more)
    decreases |more|
  {
    if more != [] {
      var init, last := more[..|more| - 1], more[|more| - 1];
      assert ws + more == (ws + init) + [last];
      assert more == init + [last];
      ApplyWritesConcat(s, id, ws, init);
      ApplyWritesAppend(s, id, ws + init, last);
      ApplyWritesAppend(ApplyWrites(s, id, ws), id, init, last);
    } else {
      assert ws + more == ws;
    }
  }

  /** Writes for other ids do not affect the record of `id`. */
  lemma {:induction false} ApplyWritesUnrelated(s: Surface, id: nat, ws: seq<FieldWrite>)
    requires forall w :: w in ws ==> w.id != id
    ensures ApplyWrites(s, id, ws) == s
    decreases |ws|
  {
    if ws != [] {
      assert ws[|ws| - 1] in ws;
      forall w | w in ws[..|ws| - 1] ensures w.id != id {
        assert w in ws;
      }
      ApplyWritesUnrelated(s, id, ws[..|ws| - 1]);
    }
  }

  /** Dropping the writes of `other` leaves the record of every other id as it was. */
  lemma {:induction false} ApplyWritesWithout(s: Surface, id: nat, ws: seq<FieldWrite>, other: nat)
    requires id != other
    ensures ApplyWrites(s, id, WithoutId(ws, other)) == ApplyWrites(s, id, ws)
    decreases |ws|
  {
    if ws != [] {
      var init, last := ws[..|ws| - 1], ws[|ws| - 1];
      ApplyWritesWithout(s, id, init, other);
      if last.id != other {
        ApplyWritesAppend(s, id, WithoutId(init, other), last);
      }
    }
  }

  /**
    The collaborator's state for one pool: the buffer it owns, the records and
    committed instance data by id, and the field writes not yet uploaded.
  */
  datatype BufferState<R> = BufferState(
    buffer: BufferId,
    records: map<nat, R>,
    instances: map<nat, Surface>,
    pending: seq<FieldWrite>)
  {
    /** Every id has a record and instance data, and writes are queued only for known ids. */
    ghost predicate Valid()
    {
      && records.Keys == instances.Keys
      && forall w :: w in pending ==> w.id in records
    }
  }

  /** The instance record of `id` as it will be once the queued writes are uploaded. */
  function Instance<R>(b: BufferState<R>, id: nat): Surface
    requires id in b.instances
  {
    ApplyWrites(b.instances[id], id, b.pending)
  }

  /** `BufferManager::new`: registers the buffer with the engine. */
  method NewBuffer<R>(ctx: UpdateContext, device: DeviceId, name: string, initialCapacity: nat)
    returns (b: BufferState<R>)
    requires ctx.Valid()
    modifies ctx
    ensures ctx.Valid() && b.Valid()
    ensures b.records == map[] && b.instances == map[] && b.pending == []
    ensures b.buffer.raw !in old(ctx.descriptors)
    ensures ctx.descriptors == old(ctx.descriptors)[b.buffer.raw := BufferDesc(BufferDescriptor(device, name, initialCapacity, true))]
    ensures ctx.requests == old(ctx.requests) + [Added(b.buffer.raw, BufferDesc(BufferDescriptor(device, name, initialCapacity, true)))]
  {
    var id := ctx.Add(BufferDesc(BufferDescriptor(device, name, initialCapacity, true)));
    b := BufferState(BufferId(id), map[], map[], []);
  }

  /** `next_slot`: the number of slots in use. */
  function NextSlot<R>(b: BufferState<R>): (n: nat)
    requires b.Valid()
    ensures n == |b.instances|
  {
    |b.records|
  }

  /** `request`: a fresh id gets its record and exactly the given instance data. */
  function Request<R>(b: BufferState<R>, id: nat, record: R, data: Surface): (r: BufferState<R>)
    requires b.Valid() && id !in b.records
    ensures r.Valid()
    ensures r.buffer == b.buffer && r.pending == b.pending
    ensures r.records == b.records[id := record]
    ensures Instance(r, id) == data
    ensures forall k :: k in b.instances ==> Instance(r, k) == Instance(b, k)
  {
    var r := b.(records := b.records[id := record], instances := b.instances[id := data]);
    ApplyWritesUnrelated(data, id, b.pending);
    r
  }

  /**
    `pending_write_field`: queues `w` when its id is known; the result says
    whether it was.  Only that id's record changes, and only in that field.
  */
  function PendingWriteField<R>(b: BufferState<R>, w: FieldWrite): (r: (BufferState<R>, bool))
    requires b.Valid()
    ensures r.0.Valid()
    ensures r.1 == (w.id in b.records)
    ensures r.0.buffer == b.buffer && r.0.records == b.records && r.0.instances == b.instances
    ensures r.0.pending == if r.1 then b.pending + [w] else b.pending
    ensures forall k :: k in b.instances ==>
              Instance(r.0, k) == if r.1 && k == w.id then ApplyWrite(Instance(b, k), w) else Instance(b, k)
  {
    if w.id in b.records then
      var r := b.(pending := b.pending + [w]);
      assert forall k :: k in b.instances ==> Instance(r, k) == ApplyWrites(b.instances[k], k, b.pending + [w]);
      forall k | k in b.instances
        ensures Instance(r, k) == if k == w.id then ApplyWrite(Instance(b, k), w) else Instance(b, k)
      {
        ApplyWritesAppend(b.instances[k], k, b.pending, w);
      }
      (r, true)
    else
      (b, false)
  }

  /**
    `release_pending`: removes a known id with its queued writes and returns
    its record; an unknown id changes nothing and yields `None`.
  */
  function ReleasePending<R>(b: BufferState<R>, id: nat): (r: (BufferState<R>, Option<R>))
    requires b.Valid()
    ensures r.0.Valid()
    ensures r.1.Some? == (id in b.records)
    ensures r.1.Some? ==> r.1.value == b.records[id]
    ensures r.1.None? ==> r.0 == b
    ensures r.0.buffer == b.buffer
    ensures r.0.records == b.records - {id}
    ensures forall k :: k in r.0.instances ==> k in b.instances && Instance(r.0, k) == Instance(b, k)
  {
    if id in b.records then
      var r := b.(records := b.records - {id}, instances := b.instances - {id}, pending := WithoutId(b.pending, id));
      forall k | k in r.instances ensures Instance(r, k) == Instance(b, k) {
        ApplyWritesWithout(b.instances[k], k, b.pending, id);
      }
      (r, Some(b.records[id]))
    else
      (b, None)
  }

  /**
    `update`: commits every queued write to the instance data and returns the
    upload commands; there are none exactly when nothing was queued.  What
    each instance will look like on the GPU is unchanged by the flush.
  */
  function Flush<R>(b: BufferState<R>): (r: (BufferState<R>, seq<Command>))
    requires b.Valid()
    ensures r.0.Valid()
    ensures r.0.buffer == b.buffer && r.0.records == b.records && r.0.pending == []
    ensures r.0.instances.Keys == b.instances.Keys
    ensures forall k :: k in b.instances ==> Instance(r.0, k) == Instance(b, k)
    ensures (r.1 == []) <==> (b.pending == [])
  {
    var committed := map k | k in b.instances :: Instance(b, k);
    var commands := if b.pending == [] then [] else [BufferUpload(b.buffer, |b.pending|)];
    (b.(instances := committed, pending := []), commands)
  }
}
