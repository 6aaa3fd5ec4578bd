/**
  The requests a client enqueues between ticks (`ScreenTaskEvent`), and what
  a batch of them does to the order of surfaces in a pool.  The task applies
  every event of a batch to every device's pool, in enqueue order; only
  creations and removals change the order, and a batch holding either makes
  the task rebuild the layout, the bind group and the pipelines afterwards.
*/
module TaskEvents {
  import opened Engine
  import opened Surfaces
  import opened SurfacePool

  datatype ScreenTaskEvent =
    | CreateSurface(id: nat, name: string, source: SurfaceSource, position: Position, size: Size)
    | UpdateSource(id: nat, source: SurfaceSource)
    | UpdateData(id: nat, data: seq<byte>)
    | ResizeSurface(id: nat, size: Size)
    | MoveSurface(id: nat, position: Position)
    | RemoveSurface(id: nat)

  /** Creations and removals change the set of surfaces, so they call for the rebuild cascade. */
  predicate Structural(e: ScreenTaskEvent)
  {
    e.CreateSurface? || e.RemoveSurface?
  }

  /**
    Whether a pool holding `stack` can take `e`: a creation needs an id the
    pool does not hold yet.  Every other request for an unknown id is a
    recoverable error the pool reports and ignores, so it always applies
    (see `UnknownIdsNeverBlock`; the source's stricter check is `Asserted`).
  */
  predicate Applicable(stack: seq<nat>, e: ScreenTaskEvent)
  {
    e.CreateSurface? ==> e.id !in stack
  }

  /**
    The check `elaborate_events` performs as written: besides a fresh id for
    a creation, it asserts that a resize, move or removal succeeds on every
    pool, i.e. that the pool holds the id; a failed assert panics the tick.
  */
  predicate Asserted(stack: seq<nat>, e: ScreenTaskEvent)
  {
    match e
    case CreateSurface(id, _, _, _, _) => id !in stack
    case ResizeSurface(id, _) => id in stack
    case MoveSurface(id, _) => id in stack
    case RemoveSurface(id) => id in stack
    case _ => true
  }

  /** The stack after `e`: a creation pushes on top, a removal closes the gap, the rest keep it. */
  function StackStep(stack: seq<nat>, e: ScreenTaskEvent): seq<nat>
  {
    match e
    case CreateSurface(id, _, _, _, _) => stack + [id]
    case RemoveSurface(id) => RemoveId(stack, id)
    case _ => stack
  }

  /** Every event of `es`, taken in order, applies to the stack its predecessors leave. */
  predicate BatchApplicable(stack: seq<nat>, es: seq<ScreenTaskEvent>)
    decreases |es|
  {
    es == [] || (Applicable(stack, es[0]) && BatchApplicable(StackStep(stack, es[0]), es[1..]))
  }

  /** Every event of `es`, taken in order, passes the source's asserts on the stack its predecessors leave. */
  predicate BatchAsserted(stack: seq<nat>, es: seq<ScreenTaskEvent>)
    decreases |es|
  {
    es == [] || (Asserted(stack, es[0]) && BatchAsserted(StackStep(stack, es[0]), es[1..]))
  }

  /** The stack after the events of `es`, in order. */
  function StackAfter(stack: seq<nat>, es: seq<ScreenTaskEvent>): seq<nat>
    decreases |es|
  {
    if es == [] then stack else StackAfter(StackStep(stack, es[0]), es[1..])
  }

  /** Whether `es` holds a creation or a removal. */
  predicate AnyStructural(es: seq<ScreenTaskEvent>)
  {
    exists i :: 0 <= i < |es| && Structural(es[i])
  }

  /** An applicable event keeps a stack duplicate-free. */
  lemma StepKeepsNoDup(stack: seq<nat>, e: ScreenTaskEvent)
    requires NoDup(stack) && Applicable(stack, e)
    ensures NoDup(StackStep(stack, e))
    ensures forall x :: x in StackStep(stack, e) <==>
              if e.CreateSurface? then x in stack || x == e.id
              else if e.RemoveSurface? then x in stack && x != e.id
              else x in stack
  {
    match e
    case CreateSurface(id, _, _, _, _) =>
      var r := stack + [id];
      forall a, c | 0 <= a < c < |r| ensures r[a] != r[c] {
        if c == |stack| {
          assert r[a] == stack[a] && stack[a] in stack;
        } else {
          assert r[a] == stack[a] && r[c] == stack[c];
        }
      }
    case RemoveSurface(id) =>
      if id in stack {
        var i :| 0 <= i < |stack| && stack[i] == id;
        RemoveIdProperties(stack, id, i);
      } else {
        RemoveIdAbsent(stack, id);
      }
    case _ =>
  }

  /** Taking one more event is one more step on the stack the earlier ones left. */
  lemma {:induction false} StackAfterAppend(stack: seq<nat>, es: seq<ScreenTaskEvent>, e: ScreenTaskEvent)
    ensures StackAfter(stack, es + [e]) == StackStep(StackAfter(stack, es), e)
    decreases |es|
  {
    if es == [] {
      assert ([] + [e])[1..] == [];
      assert [] + [e] == [e];
    } else {
      assert (es + [e])[0] == es[0];
      assert (es + [e])[1..] == es[1..] + [e];
      StackAfterAppend(StackStep(stack, es[0]), es[1..], e);
    }
  }

  /** An applicable batch keeps a stack duplicate-free. */
  lemma {:induction false} BatchKeepsNoDup(stack: seq<nat>, es: seq<ScreenTaskEvent>)
    requires NoDup(stack) && BatchApplicable(stack, es)
    ensures NoDup(StackAfter(stack, es))
    decreases |es|
  {
    if es != [] {
      StepKeepsNoDup(stack, es[0]);
      BatchKeepsNoDup(StackStep(stack, es[0]), es[1..]);
    }
  }

  /** A batch with neither creations nor removals leaves the stack as it was. */
  lemma {:induction false} NonStructuralKeepsStack(stack: seq<nat>, es: seq<ScreenTaskEvent>)
    requires !AnyStructural(es)
    ensures StackAfter(stack, es) == stack
    decreases |es|
  {
    if es != [] {
      assert !Structural(es[0]);
      assert !AnyStructural(es[1..]) by {
        forall i | 0 <= i < |es[1..]| ensures !Structural(es[1..][i]) {
          assert es[1..][i] == es[i + 1];
        }
      }
      NonStructuralKeepsStack(stack, es[1..]);
    }
  }

  /** A prefix of the batch is structural exactly when it was before or its new last event is. */
  lemma AnyStructuralAppend(es: seq<ScreenTaskEvent>, e: ScreenTaskEvent)
    ensures AnyStructural(es + [e]) <==> AnyStructural(es) || Structural(e)
  {
    if AnyStructural(es) {
      var i :| 0 <= i < |es| && Structural(es[i]);
      assert (es + [e])[i] == es[i];
    }
    if Structural(e) {
      assert (es + [e])[|es|] == e;
    }
    if AnyStructural(es + [e]) {
      var i :| 0 <= i < |es + [e]| && Structural((es + [e])[i]);
      if i < |es| {
        assert (es + [e])[i] == es[i];
      }
    }
  }

  /** A batch is structural exactly when its first event is or the rest of it is. */
  lemma AnyStructuralCons(es: seq<ScreenTaskEvent>)
    requires es != []
    ensures AnyStructural(es) <==> Structural(es[0]) || AnyStructural(es[1..])
  {
    if AnyStructural(es[1..]) {
      var i :| 0 <= i < |es[1..]| && Structural(es[1..][i]);
      assert es[1..][i] == es[i + 1];
    }
    if AnyStructural(es) && !Structural(es[0]) {
      var i :| 0 <= i < |es| && Structural(es[i]);
      assert es[1..][i - 1] == es[i];
    }
  }

  /** Creating a surface and removing it again within one batch restores the stack. */
  lemma CreateThenRemove(stack: seq<nat>, id: nat, name: string, source: SurfaceSource, position: Position, size: Size)
    requires id !in stack
    ensures StackAfter(stack, [CreateSurface(id, name, source, position, size), RemoveSurface(id)]) == stack
  {
    var es := [CreateSurface(id, name, source, position, size), RemoveSurface(id)];
    assert es[1..] == [RemoveSurface(id)];
    assert es[1..][1..] == [];
    RemoveAppended(stack, id);
    calc {
      StackAfter(stack, es);
      StackAfter(stack + [id], es[1..]);
      StackAfter(RemoveId(stack + [id], id), es[1..][1..]);
      stack;
    }
  }

  /** Removing an id that was just pushed on top of a stack without it gives back that stack. */
  lemma {:induction false} RemoveAppended(stack: seq<nat>, id: nat)
    requires id !in stack
    ensures RemoveId(stack + [id], id) == stack
    decreases |stack|
  {
    if stack == [] {
      assert [] + [id] == [id];
      assert [id][1..] == [];
    } else {
      assert (stack + [id])[0] == stack[0];
      assert (stack + [id])[1..] == stack[1..] + [id];
      assert id !in stack[1..] by {
        assert forall x :: x in stack[1..] ==> x in stack;
      }
      RemoveAppended(stack[1..], id);
      assert stack == [stack[0]] + stack[1..];
    }
  }

  /** Removing an id a stack does not hold leaves it as it was. */
  lemma {:induction false} RemoveIdAbsent(s: seq<nat>, id: nat)
    requires id !in s
    ensures RemoveId(s, id) == s
    decreases |s|
  {
    if s != [] {
      assert id !in s[1..] by {
        assert forall x :: x in s[1..] ==> x in s;
      }
      RemoveIdAbsent(s[1..], id);
      assert s == [s[0]] + s[1..];
    }
  }

  /** Removing an id never brings a new one onto the stack. */
  lemma {:induction false} RemoveIdSubset(s: seq<nat>, id: nat)
    ensures forall x :: x in RemoveId(s, id) ==> x in s
    decreases |s|
  {
    if s != [] {
      RemoveIdSubset(s[1..], id);
      assert forall x :: x in s[1..] ==> x in s;
    }
  }

  /**
    As written, a tick panics on a pool that does not hold the id of a
    resize, move or removal which no earlier creation of the batch brings:
    for instance the fresh, empty pool of a device whose first swapchain
    appears after the surface was created, in a tick that resizes it.
  */
  lemma {:induction false} LateDevicePanics(stack: seq<nat>, es: seq<ScreenTaskEvent>, i: nat)
    requires i < |es| && (es[i].ResizeSurface? || es[i].MoveSurface? || es[i].RemoveSurface?)
    requires es[i].id !in stack
    requires forall j :: 0 <= j < i ==> !(es[j].CreateSurface? && es[j].id == es[i].id)
    ensures !BatchAsserted(stack, es)
    decreases i
  {
    if i > 0 && Asserted(stack, es[0]) {
      var id := es[i].id;
      assert id !in StackStep(stack, es[0]) by {
        if es[0].RemoveSurface? {
          RemoveIdSubset(stack, es[0].id);
        }
      }
      assert es[1..][i - 1] == es[i];
      forall j | 0 <= j < i - 1 ensures !(es[1..][j].CreateSurface? && es[1..][j].id == id) {
        assert es[1..][j] == es[j + 1];
      }
      LateDevicePanics(StackStep(stack, es[0]), es[1..], i - 1);
    }
  }

  /** Whatever survives the source's asserts is taken by the model, step for step on the same stacks. */
  lemma {:induction false} AssertedIsApplicable(stack: seq<nat>, es: seq<ScreenTaskEvent>)
    requires BatchAsserted(stack, es)
    ensures BatchApplicable(stack, es)
    decreases |es|
  {
    if es != [] {
      AssertedIsApplicable(StackStep(stack, es[0]), es[1..]);
    }
  }

  /**
    The evidently intended behaviour: an unknown id never stops a batch, so
    any pool, a late device's empty one included, takes every batch without
    creations, and the batches the source survives are among those taken.
  */
  lemma {:induction false} UnknownIdsNeverBlock(stack: seq<nat>, es: seq<ScreenTaskEvent>)
    requires forall j :: 0 <= j < |es| ==> !es[j].CreateSurface?
    ensures BatchApplicable(stack, es)
    decreases |es|
  {
    if es != [] {
      forall j | 0 <= j < |es[1..]| ensures !es[1..][j].CreateSurface? {
        assert es[1..][j] == es[j + 1];
      }
      UnknownIdsNeverBlock(StackStep(stack, es[0]), es[1..]);
    }
  }
}
