// Installing a configuration update handler, and what it is told at once.
module ConfigEvents {
  import opened Sequences
  import opened DeviceForest
  import opened KosalSem

  const EINVAL := -22
  const EINTR := -4

  function Ids(ds: seq<Tree>): (ids: seq<nat>)
    ensures |ids| == |ds| && forall i :: 0 <= i < |ds| ==> ids[i] == ds[i].id
  {
    seq(|ds|, i requires 0 <= i < |ds| => ds[i].id)
  }

  // What the handler has been told, device by device.
  class Listener {
    var heard: seq<nat>

    constructor ()
      ensures heard == []
    {
      heard := [];
    }
  }

  // aalbus_config_update_event: the handler hears of the device, then of
  // everything below it.
  method ConfigUpdateEvent(pdev: Tree, handler: Listener?)
    modifies handler
    ensures handler != null ==> handler.heard == old(handler.heard) + Ids(Preorder(pdev))
    decreases pdev
  {
    if handler != null {
      handler.heard := handler.heard + [pdev.id];
    }
    ForEachUpdate(pdev.children, handler);
    if handler != null {
      ConcatAssoc(old(handler.heard), [pdev.id], Ids(PreorderAll(pdev.children)));
      assert Ids(Preorder(pdev)) == [pdev.id] + Ids(PreorderAll(pdev.children));
    }
  }

  // device_for_each_child, and bus_for_each_dev likewise; the callback never stops them.
  method ForEachUpdate(ds: seq<Tree>, handler: Listener?)
    modifies handler
    ensures handler != null ==> handler.heard == old(handler.heard) + Ids(PreorderAll(ds))
    decreases ds
  {
    var i := 0;
    while i < |ds|
      invariant 0 <= i <= |ds|
      invariant handler != null ==> handler.heard == old(handler.heard) + Ids(PreorderAll(ds[..i]))
    {
      ConfigUpdateEvent(ds[i], handler);
      if handler != null {
        OneMore(ds, i);
        ConcatAssoc(old(handler.heard), Ids(PreorderAll(ds[..i])), Ids(Preorder(ds[i])));
      }
      i := i + 1;
    }
    assert ds[..i] == ds;
  }

  lemma OneMore(ds: seq<Tree>, i: nat)
    requires i < |ds|
    ensures Ids(PreorderAll(ds[..i + 1])) == Ids(PreorderAll(ds[..i])) + Ids(Preorder(ds[i]))
  {
    assert ds[..i + 1] == ds[..i] + [ds[i]];
    PreorderAllConcat(ds[..i], [ds[i]]);
    assert PreorderAll([ds[i]]) == Preorder(ds[i]) + PreorderAll([]);
  }

  // The handler slot of the bus.
  class HandlerSlot {
    const m_sem: Mutex
    var EventHandler: Listener?

    constructor ()
      ensures fresh(m_sem) && !m_sem.taken && EventHandler == null
    {
      m_sem := new Mutex();
      EventHandler := null;
    }

    // aalbus_register_config_update_handler; null uninstalls. The semaphore is
    // taken twice, once to set the slot and once to walk the bus.
    method RegisterConfigUpdateHandler(handler: Listener?, bus: seq<Tree>, lostSet: bool, lostWalk: bool) returns (ret: int)
      requires !m_sem.taken
      modifies this, m_sem, handler
      ensures !m_sem.taken
      ensures var refused := handler != null && old(EventHandler) != null;
        && EventHandler == (if refused || lostSet then old(EventHandler) else handler)
        && ret == (if refused then -22 else if lostSet || (handler != null && lostWalk) then -4 else 0)
        && (handler != null && (refused || lostSet || lostWalk) ==> handler.heard == old(handler.heard))
        && (handler != null && !(refused || lostSet || lostWalk) ==>
          handler.heard == old(handler.heard) + Ids(PreorderAll(bus)))
    {
      if handler != null && EventHandler != null {
        return EINVAL;
      }
      var failed := m_sem.GetAlertable(lostSet);
      if failed {
        return EINTR;
      }
      EventHandler := handler;
      m_sem.Put();
      if EventHandler == null {
        return 0;
      }
      failed := m_sem.GetAlertable(lostWalk);
      if failed {
        return EINTR;
      }
      ForEachUpdate(bus, EventHandler);
      m_sem.Put();
      ret := 0;
    }
  }

  // ----- how often a device is told of

  // Some device of the tree, at its root or below, is at address x.
  ghost predicate Above(t: Tree, x: nat) {
    exists d :: Under(t, d) && d.id == x
  }

  // How many of the devices on the bus are x or an ancestor of it.
  ghost function CountAbove(bus: seq<Tree>, x: nat): nat {
    if bus == [] then 0 else (if Above(bus[0], x) then 1 else 0) + CountAbove(bus[1..], x)
  }

  lemma IdsConcat(a: seq<Tree>, b: seq<Tree>)
    ensures Ids(a + b) == Ids(a) + Ids(b)
  {
  }

  lemma InIds(ds: seq<Tree>, x: nat)
    ensures x in Ids(ds) <==> exists d :: d in ds && d.id == x
  {
  }

  lemma OnceInTree(t: Tree, x: nat)
    requires Distinct(Ids(Preorder(t)))
    ensures multiset(Ids(Preorder(t)))[x] == if Above(t, x) then 1 else 0
  {
    hide Under, Preorder;
    OnceInDistinct(Ids(Preorder(t)), x);
    InIds(Preorder(t), x);
    forall d: Tree
      ensures d in Preorder(t) <==> Under(t, d)
    {
      PreorderIsUnder(t, d);
    }
  }

  // When no device is twice in one tree, a new handler is told of a device
  // once for every device on the bus that is it or an ancestor of it.
  lemma {:induction false} ToldOncePerAncestor(bus: seq<Tree>, x: nat)
    requires forall t :: t in bus ==> Distinct(Ids(Preorder(t)))
    ensures multiset(Ids(PreorderAll(bus)))[x] == CountAbove(bus, x)
  {
    hide Above, Preorder;
    if bus != [] {
      assert bus[0] in bus && forall t :: t in bus[1..] ==> t in bus;
      OnceInTree(bus[0], x);
      ToldOncePerAncestor(bus[1..], x);
      IdsConcat(Preorder(bus[0]), PreorderAll(bus[1..]));
    }
  }

  lemma {:induction false} EveryBusDeviceIsTold(bus: seq<Tree>, i: nat)
    requires i < |bus|
    ensures CountAbove(bus, bus[i].id) >= 1
  {
    if i == 0 {
      assert Under(bus[0], bus[0]);
    } else {
      EveryBusDeviceIsTold(bus[1..], i - 1);
    }
  }

  // The number of devices of a tree, and of the trees of a bus taken together.
  function Size(t: Tree): nat {
    1 + SizeAll(t.children)
  }

  function SizeAll(ts: seq<Tree>): nat {
    if ts == [] then 0 else Size(ts[0]) + SizeAll(ts[1..])
  }

  lemma {:induction false} TreeTold(t: Tree)
    ensures |Ids(Preorder(t))| == Size(t)
  {
    ForestTold(t.children);
  }

  // Altogether a new handler is told as many times as the trees have devices.
  lemma {:induction false} ForestTold(bus: seq<Tree>)
    ensures |Ids(PreorderAll(bus))| == SizeAll(bus)
  {
    if bus != [] {
      TreeTold(bus[0]);
      ForestTold(bus[1..]);
    }
  }
}
