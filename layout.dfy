/**
  Which swapchains each device draws on, and how the windowing layer's
  display notifications change that in `update_resources`.  A device is
  present exactly while it has displays; a notification for a swapchain no
  device draws on changes nothing.
*/
module DisplayLayout {
  import opened Engine

  /** For each device with resources, the swapchains of its displays in display order. */
  type Layout = map<DeviceId, seq<SwapchainId>>

  /** `s` without the first occurrence of `x`, if any. */
  function RemoveFirst(s: seq<SwapchainId>, x: SwapchainId): seq<SwapchainId>
    decreases |s|
  {
    if s == [] then []
    else if s[0] == x then s[1..]
    else [s[0]] + RemoveFirst(s[1..], x)
  }

  /** Removing an element the sequence does not hold changes nothing. */
  lemma {:induction false} RemoveFirstAbsent(s: seq<SwapchainId>, x: SwapchainId)
    requires x !in s
    ensures RemoveFirst(s, x) == s
    decreases |s|
  {
    if s != [] {
      assert x !in s[1..] by {
        assert forall y :: y in s[1..] ==> y in s;
      }
      RemoveFirstAbsent(s[1..], x);
      assert s == [s[0]] + s[1..];
    }
  }

  /** Removing an element just appended to a sequence without it gives that sequence back. */
  lemma {:induction false} RemoveFirstAppended(s: seq<SwapchainId>, x: SwapchainId)
    requires x !in s
    ensures RemoveFirst(s + [x], x) == s
    decreases |s|
  {
    if s == [] {
      assert [] + [x] == [x];
      assert [x][1..] == [];
    } else {
      assert (s + [x])[0] == s[0];
      assert (s + [x])[1..] == s[1..] + [x];
      assert x !in s[1..] by {
        assert forall y :: y in s[1..] ==> y in s;
      }
      RemoveFirstAppended(s[1..], x);
      assert s == [s[0]] + s[1..];
    }
  }

  /** Removing the first occurrence, found at `i`, closes the gap. */
  lemma {:induction false} RemoveFirstAt(s: seq<SwapchainId>, x: SwapchainId, i: nat)
    requires i < |s| && s[i] == x && x !in s[..i]
    ensures RemoveFirst(s, x) == s[..i] + s[i + 1..]
    decreases i
  {
    if i > 0 {
      assert s[0] in s[..i];
      assert x !in s[1..][..i - 1] by {
        assert s[1..][..i - 1] == s[1..i];
        assert forall y :: y in s[1..i] ==> y in s[..i];
      }
      RemoveFirstAt(s[1..], x, i - 1);
      assert s[..i] == [s[0]] + s[1..][..i - 1];
      assert s[i + 1..] == s[1..][i..];
    }
  }

  /** Removing an element the sequence holds shortens it by one. */
  lemma {:induction false} RemoveFirstLength(s: seq<SwapchainId>, x: SwapchainId)
    ensures |RemoveFirst(s, x)| == if x in s then |s| - 1 else |s|
    decreases |s|
  {
    if s != [] && s[0] != x {
      RemoveFirstLength(s[1..], x);
      assert x in s <==> x in s[1..] by {
        assert s == [s[0]] + s[1..];
      }
    }
  }

  /**
    The layout after one notification.  A created swapchain is drawn by a
    new display appended on the swapchain's device, which gets resources if
    it had none.  A destroyed swapchain loses the first display on it on
    every device, and a device left without displays loses its resources.
    An updated swapchain only changes sizes.
  */
  function LayoutStep(m: Layout, swapchainDevices: map<SwapchainId, DeviceId>, e: ResourceEvent): Layout
    requires e.SwapchainCreated? ==> e.swapchain in swapchainDevices
  {
    match e
    case SwapchainCreated(_, sc) =>
      var d := swapchainDevices[sc];
      m[d := (if d in m then m[d] else []) + [sc]]
    case SwapchainDestroyed(sc) =>
      map d | d in m && (sc !in m[d] || |m[d]| > 1) :: RemoveFirst(m[d], sc)
    case SwapchainUpdated(_) => m
  }

  /** Every created swapchain has a device the context can name (the source unwraps it). */
  predicate Resolvable(swapchainDevices: map<SwapchainId, DeviceId>, es: seq<ResourceEvent>)
  {
    forall i :: 0 <= i < |es| && es[i].SwapchainCreated? ==> es[i].swapchain in swapchainDevices
  }

  /** The layout after the notifications of `es`, in order. */
  function LayoutAfter(m: Layout, swapchainDevices: map<SwapchainId, DeviceId>, es: seq<ResourceEvent>): Layout
    requires Resolvable(swapchainDevices, es)
    decreases |es|
  {
    if es == [] then m
    else LayoutStep(LayoutAfter(m, swapchainDevices, es[..|es| - 1]), swapchainDevices, es[|es| - 1])
  }

  /** No device is kept without displays. */
  predicate NoEmptyDevice(m: Layout)
  {
    forall d :: d in m ==> m[d] != []
  }

  /** Every notification keeps devices without displays out of the layout. */
  lemma StepKeepsNoEmptyDevice(m: Layout, swapchainDevices: map<SwapchainId, DeviceId>, e: ResourceEvent)
    requires e.SwapchainCreated? ==> e.swapchain in swapchainDevices
    requires NoEmptyDevice(m)
    ensures NoEmptyDevice(LayoutStep(m, swapchainDevices, e))
  {
    if e.SwapchainDestroyed? {
      var r := LayoutStep(m, swapchainDevices, e);
      forall d | d in r ensures r[d] != [] {
        RemoveFirstLength(m[d], e.swapchain);
      }
    }
  }

  /**
    Creating a swapchain no device draws on and destroying it again leaves
    the layout as it was: the display added on its device is the one the
    destruction removes, and a device that only had that display loses its
    resources again.
  */
  lemma CreateThenDestroy(m: Layout, swapchainDevices: map<SwapchainId, DeviceId>, id: nat, sc: SwapchainId)
    requires sc in swapchainDevices && NoEmptyDevice(m)
    requires forall d :: d in m ==> sc !in m[d]
    ensures LayoutStep(LayoutStep(m, swapchainDevices, SwapchainCreated(id, sc)), swapchainDevices, SwapchainDestroyed(sc)) == m
  {
    var m1 := LayoutStep(m, swapchainDevices, SwapchainCreated(id, sc));
    var m2 := LayoutStep(m1, swapchainDevices, SwapchainDestroyed(sc));
    var dev := swapchainDevices[sc];
    forall d | d in m ensures d in m2 && m2[d] == m[d] {
      if d == dev {
        RemoveFirstAppended(m[d], sc);
        assert |m1[d]| > 1;
      } else {
        RemoveFirstAbsent(m[d], sc);
      }
    }
    assert dev !in m ==> dev !in m2 by {
      if dev !in m {
        assert m1[dev] == [sc];
      }
    }
    assert m2.Keys == m.Keys;
  }

  /** Destroying a swapchain no device draws on changes nothing. */
  lemma DestroyUnknown(m: Layout, swapchainDevices: map<SwapchainId, DeviceId>, sc: SwapchainId)
    requires forall d :: d in m ==> sc !in m[d]
    ensures LayoutStep(m, swapchainDevices, SwapchainDestroyed(sc)) == m
  {
    var r := LayoutStep(m, swapchainDevices, SwapchainDestroyed(sc));
    forall d | d in m ensures r[d] == m[d] {
      RemoveFirstAbsent(m[d], sc);
    }
    assert r.Keys == m.Keys;
  }
}
