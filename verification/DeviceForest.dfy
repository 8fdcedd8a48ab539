// The device tree of the bus: the searches of aalbus_get_device and the walks
// that tell a new handler about every device.
module DeviceForest {
  import opened Options
  import opened DeviceId
  import opened KosalSem

  // A device at address id, with the devices that have it as their parent.
  datatype Tree = Device(id: nat, devid: DeviceId, children: seq<Tree>)

  // ----- the devices of a tree, a device before its children

  function Preorder(t: Tree): seq<Tree> {
    [t] + PreorderAll(t.children)
  }

  function PreorderAll(ts: seq<Tree>): seq<Tree> {
    if ts == [] then [] else Preorder(ts[0]) + PreorderAll(ts[1..])
  }

  // d is t or below it.
  ghost predicate Under(t: Tree, d: Tree) {
    d == t || exists i :: 0 <= i < |t.children| && Under(t.children[i], d)
  }

  ghost predicate UnderAny(ts: seq<Tree>, d: Tree) {
    exists i :: 0 <= i < |ts| && Under(ts[i], d)
  }

  lemma {:induction false} PreorderIsUnder(t: Tree, d: Tree)
    ensures d in Preorder(t) <==> Under(t, d)
  {
    PreorderAllIsUnder(t.children, d);
  }

  lemma {:induction false} PreorderAllIsUnder(ts: seq<Tree>, d: Tree)
    ensures d in PreorderAll(ts) <==> UnderAny(ts, d)
  {
    if ts != [] {
      PreorderIsUnder(ts[0], d);
      PreorderAllIsUnder(ts[1..], d);
      assert UnderAny(ts[1..], d) ==> exists i :: 0 <= i < |ts[1..]| && Under(ts[1..][i], d);
      assert forall i :: 0 < i < |ts| ==> ts[i] == ts[1..][i - 1];
      assert UnderAny(ts, d) <==> Under(ts[0], d) || UnderAny(ts[1..], d);
    }
  }

  // The first device with exactly this identity.
  function FirstExact(ds: seq<Tree>, devID: DeviceId): Option<nat> {
    if ds == [] then None else if ds[0].devid == devID then Some(ds[0].id) else FirstExact(ds[1..], devID)
  }

  // The first device that matches, none of their children being looked at.
  ghost function FirstMatching(ds: seq<Tree>, mask: bv32, devID: DeviceId): Option<nat> {
    if ds == [] then None
    else if Matches(mask, devID, ds[0].devid) then Some(ds[0].id)
    else FirstMatching(ds[1..], mask, devID)
  }

  ghost function Found(bus: seq<Tree>, mask: bv32, devID: DeviceId): Option<nat> {
    if mask == 0 then FirstExact(PreorderAll(bus), devID) else FirstMatching(bus, mask, devID)
  }

  lemma {:induction false} FirstExactConcat(a: seq<Tree>, b: seq<Tree>, devID: DeviceId)
    ensures FirstExact(a + b, devID) == if FirstExact(a, devID).Some? then FirstExact(a, devID) else FirstExact(b, devID)
  {
    if a == [] {
      assert a + b == b;
    } else {
      assert (a + b)[1..] == a[1..] + b;
      FirstExactConcat(a[1..], b, devID);
    }
  }

  lemma {:induction false} PreorderAllConcat(a: seq<Tree>, b: seq<Tree>)
    ensures PreorderAll(a + b) == PreorderAll(a) + PreorderAll(b)
  {
    if a == [] {
      assert a + b == b;
    } else {
      assert (a + b)[1..] == a[1..] + b;
      PreorderAllConcat(a[1..], b);
    }
  }

  lemma {:induction false} FirstMatchingConcat(a: seq<Tree>, b: seq<Tree>, mask: bv32, devID: DeviceId)
    ensures FirstMatching(a + b, mask, devID) ==
      if FirstMatching(a, mask, devID).Some? then FirstMatching(a, mask, devID) else FirstMatching(b, mask, devID)
  {
    hide Matches;
    if a == [] {
      assert a + b == b;
    } else {
      assert (a + b)[1..] == a[1..] + b;
      FirstMatchingConcat(a[1..], b, mask, devID);
    }
  }

  lemma FoundConcat(a: seq<Tree>, b: seq<Tree>, mask: bv32, devID: DeviceId)
    ensures Found(a + b, mask, devID) ==
      if Found(a, mask, devID).Some? then Found(a, mask, devID) else Found(b, mask, devID)
  {
    hide FirstMatching, FirstExact;
    PreorderAllConcat(a, b);
    FirstExactConcat(PreorderAll(a), PreorderAll(b), devID);
    FirstMatchingConcat(a, b, mask, devID);
  }

  // Exact search finds nothing exactly when no device of the forest has the
  // identity, and otherwise the first in depth-first order that has it.
  lemma {:induction false} FirstExactIsFirst(ds: seq<Tree>, devID: DeviceId) returns (i: nat)
    ensures FirstExact(ds, devID).None? <==> forall d :: d in ds ==> d.devid != devID
    ensures FirstExact(ds, devID).Some? ==> i < |ds| && ds[i].devid == devID && FirstExact(ds, devID).value == ds[i].id
    ensures forall j :: 0 <= j < i && j < |ds| ==> ds[j].devid != devID
  {
    i := 0;
    if ds != [] && ds[0].devid != devID {
      var k := FirstExactIsFirst(ds[1..], devID);
      i := k + 1;
      assert forall d :: d in ds <==> d == ds[0] || d in ds[1..];
      assert forall j :: 0 < j < |ds| ==> ds[j] == ds[1..][j - 1];
    }
  }

  lemma ExactFindsAll(bus: seq<Tree>, devID: DeviceId)
    ensures Found(bus, 0, devID).None? <==> forall d :: UnderAny(bus, d) ==> d.devid != devID
  {
    hide FirstExact, UnderAny;
    var i := FirstExactIsFirst(PreorderAll(bus), devID);
    forall d: Tree
      ensures d in PreorderAll(bus) <==> UnderAny(bus, d)
    {
      PreorderAllIsUnder(bus, d);
    }
  }

  // Masked search finds the first device on the bus that matches, if any does.
  lemma {:induction false} MaskedFindsFirst(bus: seq<Tree>, mask: bv32, devID: DeviceId) returns (i: nat)
    ensures FirstMatching(bus, mask, devID).None? <==> forall d :: d in bus ==> !Matches(mask, devID, d.devid)
    ensures FirstMatching(bus, mask, devID).Some? ==>
      i < |bus| && Matches(mask, devID, bus[i].devid) && FirstMatching(bus, mask, devID).value == bus[i].id
    ensures forall j :: 0 <= j < i && j < |bus| ==> !Matches(mask, devID, bus[j].devid)
  {
    hide Matches;
    i := 0;
    if bus != [] && !Matches(mask, devID, bus[0].devid) {
      var k := MaskedFindsFirst(bus[1..], mask, devID);
      i := k + 1;
      assert forall d :: d in bus <==> d == bus[0] || d in bus[1..];
      assert forall j :: 0 < j < |bus| ==> bus[j] == bus[1..][j - 1];
    }
  }

  // Without a mask a lookup finds the first device with the identity, of all
  // devices in depth-first order; with one it finds the first device on the bus
  // itself that matches. It finds none exactly when there is none.
  lemma FoundIsFirst(bus: seq<Tree>, mask: bv32, devID: DeviceId) returns (i: nat)
    ensures mask == 0 ==> (Found(bus, mask, devID).None? <==> forall d :: UnderAny(bus, d) ==> d.devid != devID)
    ensures mask == 0 && Found(bus, mask, devID).Some? ==>
      && i < |PreorderAll(bus)| && PreorderAll(bus)[i].devid == devID && Found(bus, mask, devID) == Some(PreorderAll(bus)[i].id)
      && forall j :: 0 <= j < i ==> PreorderAll(bus)[j].devid != devID
    ensures mask != 0 ==> (Found(bus, mask, devID).None? <==> forall d :: d in bus ==> !Matches(mask, devID, d.devid))
    ensures mask != 0 && Found(bus, mask, devID).Some? ==>
      && i < |bus| && Matches(mask, devID, bus[i].devid) && Found(bus, mask, devID) == Some(bus[i].id)
      && forall j :: 0 <= j < i ==> !Matches(mask, devID, bus[j].devid)
  {
    hide Matches, FirstExact, FirstMatching, UnderAny;
    if mask == 0 {
      ExactFindsAll(bus, devID);
      i := FirstExactIsFirst(PreorderAll(bus), devID);
    } else {
      i := MaskedFindsFirst(bus, mask, devID);
    }
  }

  // In depth-first order every device comes after its parent.
  ghost predicate HasParentBefore(s: seq<Tree>, j: nat)
    requires j < |s|
  {
    exists i :: 0 <= i < j && s[j] in s[i].children
  }

  lemma {:induction false} ParentsFirst(t: Tree)
    ensures Preorder(t)[0] == t
    ensures forall j :: 0 < j < |Preorder(t)| ==> HasParentBefore(Preorder(t), j)
  {
    ParentsFirstAll(t.children);
    RootFirst(t, PreorderAll(t.children));
  }

  lemma RootFirst(t: Tree, below: seq<Tree>)
    requires forall j :: 0 <= j < |below| ==> below[j] in t.children || HasParentBefore(below, j)
    ensures forall j :: 0 < j < |[t] + below| ==> HasParentBefore([t] + below, j)
  {
    var s := [t] + below;
    forall j | 0 < j < |s|
      ensures HasParentBefore(s, j)
    {
      assert s[0] == t && s[j] == below[j - 1];
      if HasParentBefore(below, j - 1) {
        var i :| 0 <= i < j - 1 && below[j - 1] in below[i].children;
        assert s[i + 1] == below[i];
      }
    }
  }

  lemma {:induction false} ParentsFirstAll(ts: seq<Tree>)
    ensures forall j :: 0 <= j < |PreorderAll(ts)| ==> PreorderAll(ts)[j] in ts || HasParentBefore(PreorderAll(ts), j)
  {
    if ts != [] {
      var s, first, rest := PreorderAll(ts), Preorder(ts[0]), PreorderAll(ts[1..]);
      ParentsFirst(ts[0]);
      ParentsFirstAll(ts[1..]);
      forall j | 0 <= j < |s|
        ensures s[j] in ts || HasParentBefore(s, j)
      {
        if 0 < j < |first| {
          assert HasParentBefore(first, j);
          var i :| 0 <= i < j && first[j] in first[i].children;
          assert s[i] == first[i] && s[j] == first[j];
        } else if j >= |first| {
          var k := j - |first|;
          assert s[j] == rest[k];
          if rest[k] !in ts[1..] {
            assert HasParentBefore(rest, k);
            var i :| 0 <= i < k && rest[k] in rest[i].children;
            assert s[i + |first|] == rest[i];
          }
        }
      }
    }
  }

  // struct device_find_param
  class FindParam {
    const m_mask: bv32
    const m_devID: DeviceId
    var m_dev: Option<nat>

    constructor (mask: bv32, devID: DeviceId)
      ensures m_mask == mask && m_devID == devID && m_dev == None
    {
      m_mask, m_devID, m_dev := mask, devID, None;
    }
  }

  // aalbus_itr_get_device. With a mask, a device that does not match is left
  // at once, without a look at its children.
  method ItrGetDevice(pdev: Tree, param: FindParam) returns (stop: bool)
    requires param.m_dev.None?
    modifies param
    ensures param.m_dev == Found([pdev], param.m_mask, param.m_devID)
    ensures stop <==> param.m_dev.Some?
    decreases pdev
  {
    hide Matches;
    OneTree(pdev, param.m_mask, param.m_devID);
    if param.m_mask != 0 {
      var ok := Passes(param.m_mask, param.m_devID, pdev.devid);
      if !ok {
        return false;
      }
      param.m_dev := Some(pdev.id);
      return true;
    }
    if param.m_devID == pdev.devid {
      param.m_dev := Some(pdev.id);
      return true;
    }
    ForEach(pdev.children, param);
    stop := param.m_dev.Some?;
  }

  lemma OneTree(t: Tree, mask: bv32, devID: DeviceId)
    ensures mask != 0 ==> Found([t], mask, devID) == if Matches(mask, devID, t.devid) then Some(t.id) else None
    ensures mask == 0 ==> Found([t], mask, devID) == if t.devid == devID then Some(t.id) else Found(t.children, mask, devID)
  {
    hide Matches;
    assert [t][1..] == [];
    assert FirstMatching([t][1..], mask, devID) == None;
    assert PreorderAll([t][1..]) == [] && PreorderAll([t]) == Preorder(t);
    assert Preorder(t)[0] == t && Preorder(t)[1..] == PreorderAll(t.children);
  }

  // device_for_each_child, and bus_for_each_dev likewise: the callback is
  // called on one device after the other until it says stop.
  method ForEach(ds: seq<Tree>, param: FindParam)
    requires param.m_dev.None?
    modifies param
    ensures param.m_dev == Found(ds, param.m_mask, param.m_devID)
    decreases ds
  {
    hide Found;
    var i := 0;
    NoTree(param.m_mask, param.m_devID);
    while i < |ds|
      invariant 0 <= i <= |ds|
      invariant param.m_dev.None? && Found(ds[..i], param.m_mask, param.m_devID).None?
    {
      var stop := ItrGetDevice(ds[i], param);
      FoundConcat(ds[..i], [ds[i]], param.m_mask, param.m_devID);
      assert ds[..i + 1] == ds[..i] + [ds[i]];
      if stop {
        FoundConcat(ds[..i + 1], ds[i + 1..], param.m_mask, param.m_devID);
        assert ds[..i + 1] + ds[i + 1..] == ds;
        return;
      }
      i := i + 1;
    }
    assert ds[..i] == ds;
  }

  lemma NoTree(mask: bv32, devID: DeviceId)
    ensures Found([], mask, devID).None?
  {
  }

  // aalbus_get_device
  method GetDevice(bus: seq<Tree>, m_sem: Mutex, devID: DeviceId, mask: bv32, lost: bool) returns (dev: Option<nat>)
    requires !m_sem.taken
    modifies m_sem
    ensures !m_sem.taken
    ensures dev == if lost then None else Found(bus, mask, devID)
  {
    var param := new FindParam(mask, devID);
    var failed := m_sem.GetAlertable(lost);
    if failed {
      return None;
    }
    ForEach(bus, param);
    m_sem.Put();
    dev := param.m_dev;
  }
}
