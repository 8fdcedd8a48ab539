// Device registration and validation of aalbus-main.c on the nodes of the
// allocation list. A handle is an address; memory has the structures there are.
module Registry {
  import opened Sequences
  import opened KosalList
  import opened KosalSem
  import R = RegistrySpec

  const AT_HEAD := 1         // aal_bus_type.alloc_list_head
  const AT_ALLOC_LIST := 2   // aal_device.m_alloc_list

  class BusDevice {
    const m_version: nat
    const m_validator: nat
    const m_alloc_list: ListHead
    var registered: bool      // AAL_DEVICE_FLAG_IS_REGISTERED of m_flags

    constructor (version: nat, validator: nat, alloc_list: ListHead)
      ensures m_version == version && m_validator == validator && m_alloc_list == alloc_list && !registered
    {
      m_version, m_validator, m_alloc_list, registered := version, validator, alloc_list, false;
    }
  }

  // The allocation list spells out listed, with the links of the devices in memory.
  ghost predicate ListFits(l: Lists, head: ListHead, memory: map<nat, BusDevice>, listed: seq<nat>) {
    && head in l && head.offset == AT_HEAD && Objs(l[head]) == listed
    && forall n :: n in l[head] ==> n.obj in memory && memory[n.obj].m_alloc_list == n
  }

  ghost predicate DevicesFit(l: Lists, nodes: set<ListHead>, memory: map<nat, BusDevice>, objs: set<BusDevice>, r: R.Registry)
    reads objs
  {
    && memory.Keys == r.live.Keys
    && forall p :: p in memory ==>
      && memory[p] in objs && r.live[p] == R.Dev(memory[p].m_version, memory[p].m_validator, memory[p].registered)
      && memory[p].m_alloc_list.obj == p && memory[p].m_alloc_list.offset == AT_ALLOC_LIST
      && memory[p].m_alloc_list in nodes && (p !in r.listed ==> Loose(l, memory[p].m_alloc_list))
  }

  // The walk of aalbus_validate_device: is the structure at pdev on the list?
  method Search(space: ListSpace, head: ListHead, pdev: nat) returns (found: bool)
    requires space.Valid() && head in space.lists
    ensures found <==> pdev in Objs(space.lists[head])
  {
    ghost var s, k := Objs(space.lists[head]), 0;
    space.Neighbours(head);
    found := false;
    var cur := head.next;
    while cur != head
      invariant 0 <= k <= |s| && cur == if k < |s| then space.lists[head][k] else head
      invariant pdev !in s[..k]
      decreases |s| - k
    {
      if cur.obj == pdev {
        found := true;
        break;
      }
      space.NextAt(head, k);
      assert s[..k + 1] == s[..k] + [s[k]];
      cur := cur.next;
      k := k + 1;
    }
  }

  lemma CreatedFits(l: Lists, nodes: set<ListHead>, head: ListHead, memory: map<nat, BusDevice>, objs: set<BusDevice>,
                    r: R.Registry, n: ListHead, pdev: BusDevice)
    requires ListFits(l, head, memory, r.listed) && DevicesFit(l, nodes, memory, objs, r) && R.Sound(r) && Within(l, nodes)
    requires n.obj !in r.live && n.offset == AT_ALLOC_LIST && n !in nodes
    requires pdev.m_alloc_list == n && !pdev.registered
    requires pdev.m_version == R.VERSION && pdev.m_validator == R.VirtToPhys(n.obj)
    ensures ListFits(l[n := []], head, memory[n.obj := pdev], r.listed)
    ensures DevicesFit(l[n := []], nodes + {n}, memory[n.obj := pdev], objs + {pdev}, R.Created(r, n.obj))
  {
  }

  lemma ListedFits(l: Lists, nodes: set<ListHead>, head: ListHead, memory: map<nat, BusDevice>, objs: set<BusDevice>,
                   r: R.Registry, p: nat)
    requires ListFits(l, head, memory, r.listed) && DevicesFit(l, nodes, memory, objs, r)
    requires p in memory && p !in r.listed
    ensures Loose(l, memory[p].m_alloc_list) && memory[p].m_alloc_list in nodes && memory[p].m_alloc_list != head
    ensures ListFits(AddedHead(l, memory[p].m_alloc_list, head), head, memory, [p] + r.listed)
    ensures DevicesFit(AddedHead(l, memory[p].m_alloc_list, head), nodes, memory, objs, r.(listed := [p] + r.listed))
  {
    var n := memory[p].m_alloc_list;
    var after := AddedHead(l, n, head);
    ObjsCons(n, l[head]);
    forall q | q in memory && q !in [p] + r.listed
      ensures Loose(after, memory[q].m_alloc_list)
    {
      assert Loose(l, memory[q].m_alloc_list);
    }
  }

  lemma DestroyedFits(l: Lists, home: map<ListHead, ListHead>, nodes: set<ListHead>, head: ListHead,
                      memory: map<nat, BusDevice>, objs: set<BusDevice>, r: R.Registry, p: nat)
    requires Separate(l, home) && ListFits(l, head, memory, r.listed) && DevicesFit(l, nodes, memory, objs, r)
    requires p in memory && p in r.listed && Distinct(r.listed)
    ensures memory[p].m_alloc_list in nodes && OnAList(l, memory[p].m_alloc_list)
    ensures var after: Lists := Deleted(l, memory[p].m_alloc_list);
      && ListFits(after, head, memory - {p}, Without(r.listed, p))
      && DevicesFit(after, nodes, memory - {p}, objs, r.(live := r.live - {p}, listed := Without(r.listed, p)))
  {
    hide *;
    LinkOf(l, nodes, head, memory, objs, r, p);
    ListDeleted(l, head, memory, r.listed, p);
    DevicesDeleted(l, nodes, memory, objs, r, p);
  }

  lemma GivenBack(l: Lists, nodes: set<ListHead>, head: ListHead, memory: map<nat, BusDevice>, objs: set<BusDevice>,
                  r: R.Registry, p: nat)
    requires ListFits(l, head, memory, r.listed) && DevicesFit(l, nodes, memory, objs, r) && R.Sound(r)
    requires p in memory && p !in r.listed
    ensures ListFits(l, head, memory - {p}, r.listed)
    ensures DevicesFit(l, nodes, memory - {p}, objs, r.(live := r.live - {p})) && R.Sound(r.(live := r.live - {p}))
  {
    forall n | n in l[head]
      ensures n.obj != p
    {
      var i :| 0 <= i < |l[head]| && l[head][i] == n;
      assert Objs(l[head])[i] == n.obj;
    }
  }

  lemma LinkOf(l: Lists, nodes: set<ListHead>, head: ListHead, memory: map<nat, BusDevice>, objs: set<BusDevice>, r: R.Registry, p: nat)
    requires ListFits(l, head, memory, r.listed) && DevicesFit(l, nodes, memory, objs, r) && p in memory && p in r.listed
    ensures var n := memory[p].m_alloc_list; n in nodes && OnAList(l, n) && head in l && n in l[head] && n != head && n.obj == p
  {
    var i :| 0 <= i < |l[head]| && Objs(l[head])[i] == p;
    assert l[head][i] in l[head] && l[head][i] == memory[p].m_alloc_list;
  }

  lemma UpToWithin(l: Lists, nodes: set<ListHead>, head: ListHead, n: ListHead)
    requires Within(l, nodes)
    ensures head in l ==> UpTo(l[head], n) <= nodes
  {
  }

  lemma ListDeleted(l: Lists, head: ListHead, memory: map<nat, BusDevice>, listed: seq<nat>, p: nat)
    requires ListFits(l, head, memory, listed) && p in memory && Distinct(listed)
    requires memory[p].m_alloc_list.obj == p && memory[p].m_alloc_list != head
    ensures ListFits(Deleted(l, memory[p].m_alloc_list), head, memory - {p}, Without(listed, p))
  {
    hide Without, Distinct;
    var n := memory[p].m_alloc_list;
    ObjsWithout(l[head], n);
    WithoutWithin(l[head], n);
    WithoutDistinct(listed, p);
    var s := Without(l[head], n);
    forall m | m in s
      ensures m.obj != p
    {
      var i :| 0 <= i < |s| && s[i] == m;
      assert Objs(s)[i] in Without(listed, p);
    }
  }

  lemma DevicesDeleted(l: Lists, nodes: set<ListHead>, memory: map<nat, BusDevice>, objs: set<BusDevice>, r: R.Registry, p: nat)
    requires DevicesFit(l, nodes, memory, objs, r) && p in memory
    ensures DevicesFit(Deleted(l, memory[p].m_alloc_list), nodes, memory - {p}, objs,
                       r.(live := r.live - {p}, listed := Without(r.listed, p)))
  {
    hide Without, Deleted, Loose;
    var n := memory[p].m_alloc_list;
    WithoutKeepsOthers(r.listed, p);
    forall q | q in memory && q != p && q !in Without(r.listed, p)
      ensures Loose(Deleted(l, n), memory[q].m_alloc_list)
    {
      LooseKept(l, n, memory[q].m_alloc_list);
    }
  }

  lemma LooseKept(l: Lists, n: ListHead, m: ListHead)
    requires Loose(l, m)
    ensures Loose(Deleted(l, n), m)
  {
    forall h | h in Deleted(l, n)
      ensures m !in Deleted(l, n)[h]
    {
      assert m !in l[h];
      WithoutWithin(l[h], n);
    }
    if m in l {
      WithoutAbsent(l[m], n);
    }
  }

  lemma LinkedSound(l: Lists, nodes: set<ListHead>, memory: map<nat, BusDevice>, objs: set<BusDevice>, r: R.Registry, p: nat)
    requires R.Sound(r) && DevicesFit(l, nodes, memory, objs, r) && p in memory && p !in r.listed
    ensures R.Sound(r.(listed := [p] + r.listed))
  {
  }

  lemma HeadListed(l: Lists, head: ListHead, memory: map<nat, BusDevice>, listed: seq<nat>)
    requires ListFits(l, head, memory, listed)
    ensures head in l && Objs(l[head]) == listed
  {
  }

  method SetFlag(ghost l: Lists, ghost nodes: set<ListHead>, memory: map<nat, BusDevice>, ghost objs: set<BusDevice>,
                 ghost r: R.Registry, p: nat, on: bool)
    requires DevicesFit(l, nodes, memory, objs, r) && p in memory
    modifies objs
    ensures p in r.live && DevicesFit(l, nodes, memory, objs, r.(live := r.live[p := r.live[p].(registered := on)]))
  {
    memory[p].registered := on;
  }

  class Bus {
    const space: ListSpace
    const alloc_list_head: ListHead
    const alloc_list_sem: Mutex
    const m_sem: Mutex
    var memory: map<nat, BusDevice>
    ghost var objs: set<BusDevice>
    ghost var r: R.Registry

    ghost predicate Valid()
      reads this, space, space.nodes, objs, m_sem, alloc_list_sem
    {
      Inner() && !alloc_list_sem.taken
    }

    // What holds while the allocation list is locked, too.
    ghost predicate Inner()
      reads this, space, space.nodes, objs, m_sem
    {
      Orderly() && Fits()
    }

    // The list is in order: its nodes spell out what r says is on it.
    ghost predicate Orderly()
      reads this, space, space.nodes
    {
      space.Valid() && ListFits(space.lists, alloc_list_head, memory, r.listed) && R.Sound(r)
    }

    // The devices and the bus semaphore are as r says.
    ghost predicate Fits()
      reads this, space, objs, m_sem
    {
      && DevicesFit(space.lists, space.nodes, memory, objs, r)
      && m_sem.taken == r.busTaken && m_sem != alloc_list_sem
    }

    constructor ()
      ensures Valid() && fresh(space) && r == R.EMPTY
    {
      var s := new ListSpace();
      var h := s.NewHead(0, AT_HEAD);
      space, alloc_list_head := s, h;
      alloc_list_sem := new Mutex();
      m_sem := new Mutex();
      memory, objs, r := map[], {}, R.EMPTY;
    }

    // aaldev_create, given its memory.
    method Create(mem: nat)
      requires Valid() && R.Allowed(r, R.Create(mem))
      modifies this, space
      ensures Valid() && r == R.Effect(old(r), R.Create(mem)) && fresh(space.nodes - old(space.nodes))
    {
      hide ListFits, DevicesFit, ListSpace.Valid, R.Sound;
      ghost var l: Lists, nodes := space.lists, space.nodes;
      space.IsSeparate();
      space.IsWithin();
      R.EffectSound(r, R.Create(mem));
      var n := space.NewHead(mem, AT_ALLOC_LIST);
      var pdev := new BusDevice(R.VERSION, R.VirtToPhys(mem), n);
      CreatedFits(l, nodes, alloc_list_head, memory, objs, r, n, pdev);
      memory, objs := memory[mem := pdev], objs + {pdev};
      r := R.Created(r, mem);
    }

    // aaldev_create_device, given its memory.
    method CreateDevice(mem: nat, lostAlloc: bool) returns (made: bool)
      requires Valid() && R.Allowed(r, R.CreateDevice(mem, lostAlloc))
      modifies this, space, space.nodes, alloc_list_sem
      ensures Valid() && r == R.Effect(old(r), R.CreateDevice(mem, lostAlloc))
      ensures made == !lostAlloc
    {
      hide DevicesFit, Orderly, RoundFrom;
      Unlisted(mem);
      Create(mem);
      InMemory(mem);
      var failed := Link(mem, lostAlloc);
      if failed {
        GiveBack(mem);
      }
      made := !failed;
    }

    lemma Unlisted(p: nat)
      requires Orderly() && p !in r.live
      ensures p !in r.listed && r.live - {p} == r.live
    {
    }

    lemma InMemory(p: nat)
      requires Fits() && p in r.live
      ensures p in memory
    {
    }

    // kosal_kfree of a device that is not on the list
    method GiveBack(p: nat)
      requires Valid() && p in memory && p !in r.listed
      modifies `memory, `r
      ensures Valid() && r == old(r).(live := old(r).live - {p})
    {
      hide ListSpace.Valid, ListFits, DevicesFit, R.Sound;
      GivenBack(space.lists, space.nodes, alloc_list_head, memory, objs, r, p);
      memory := memory - {p};
      r := r.(live := r.live - {p});
    }

    // aalbus_validate_device of any handle: the fields of the structure are
    // looked at only when it is on the list.
    method ValidateDevice(pdev: nat, lost: bool) returns (status: bool)
      requires Valid()
      modifies alloc_list_sem
      ensures Valid()
      ensures status <==> R.Accepts(r, pdev) && !lost
      ensures status ==> pdev in memory
    {
      if pdev == 0 {
        return false;
      }
      var failed := alloc_list_sem.GetAlertable(lost);
      if failed {
        return false;
      }
      var found := Search(space, alloc_list_head, pdev);
      alloc_list_sem.Put();
      if found {
        status := R.VirtToPhys(pdev) == memory[pdev].m_validator && memory[pdev].m_version == R.VERSION;
      } else {
        status := false;
      }
    }

    method TakeBus(lost: bool) returns (failed: bool)
      requires Fits() && (lost || !r.busTaken)
      modifies `r, m_sem
      ensures Fits() && (old(Orderly()) ==> Orderly()) && failed == lost
      ensures r == if lost then old(r) else old(r).(busTaken := true)
    {
      hide ListFits, ListSpace.Valid;
      failed := m_sem.GetAlertable(lost);
      if !failed {
        r := r.(busTaken := true);
      }
    }

    method PutBus()
      requires Fits()
      modifies `r, m_sem
      ensures Fits() && (old(Orderly()) ==> Orderly()) && r == old(r).(busTaken := false)
    {
      hide ListFits, ListSpace.Valid;
      m_sem.Put();
      r := r.(busTaken := false);
    }

    // The device goes on the allocation list, under its lock. When it is there
    // already, the list goes round from then on, without its head.
    method Link(p: nat, lost: bool) returns (failed: bool)
      requires Valid() && p in memory
      modifies `r, space, space.nodes, alloc_list_sem
      ensures Fits() && !alloc_list_sem.taken && failed == lost
      ensures lost ==> Orderly() && r == old(r)
      ensures !lost && p !in old(r.listed) ==> Orderly() && r == old(r).(listed := [p] + old(r).listed)
      ensures !lost && p in old(r.listed) ==> r == old(r) && RoundFrom(p)
    {
      hide DevicesFit, Orderly, RoundFrom;
      failed := alloc_list_sem.GetAlertable(lost);
      if !failed {
        PutOn(p);
        alloc_list_sem.Put();
      }
    }

    // The walk from the head goes to p, through what was in front of it, and back to p.
    ghost predicate RoundFrom(p: nat)
      reads `memory, space, alloc_list_head, space.nodes
    {
      && alloc_list_head in space.lists && p in memory
      && memory[p].m_alloc_list in space.lists[alloc_list_head]
      && UpTo(space.lists[alloc_list_head], memory[p].m_alloc_list) <= space.nodes
      && GoesRound(alloc_list_head, UpTo(space.lists[alloc_list_head], memory[p].m_alloc_list))
    }

    method PutOn(p: nat)
      requires Inner() && p in memory
      modifies `r, space, space.nodes
      ensures Fits()
      ensures p !in old(r.listed) ==> Orderly() && r == old(r).(listed := [p] + old(r).listed)
      ensures p in old(r.listed) ==> r == old(r) && RoundFrom(p)
    {
      hide ListFits, DevicesFit, ListSpace.Valid, R.Sound, Loose, Objs, UpTo, GoesRound;
      space.IsWithin();
      UpToWithin(space.lists, space.nodes, alloc_list_head, memory[p].m_alloc_list);
      if p !in r.listed {
        LinkedSound(space.lists, space.nodes, memory, objs, r, p);
        ListedFits(space.lists, space.nodes, alloc_list_head, memory, objs, r, p);
      } else {
        LinkOf(space.lists, space.nodes, alloc_list_head, memory, objs, r, p);
      }
      HeadListed(space.lists, alloc_list_head, memory, r.listed);
      space.HeadNodes(alloc_list_head);
      space.LinkFirst(memory[p].m_alloc_list, alloc_list_head);
      if p !in r.listed {
        r := r.(listed := [p] + r.listed);
      }
    }

    method SetRegistered(p: nat, on: bool)
      requires Fits() && p in memory
      modifies `r, objs
      ensures Fits() && p in old(r).live && r == old(r).(live := old(r).live[p := old(r).live[p].(registered := on)])
      ensures old(Orderly()) && (on ==> p in old(r).listed) ==> Orderly()
    {
      hide ListFits, ListSpace.Valid, DevicesFit, R.Sound;
      FlagSound(r, memory, p, on);
      SetFlag(space.lists, space.nodes, memory, objs, r, p, on);
      r := r.(live := r.live[p := r.live[p].(registered := on)]);
    }

    lemma FlagSound(r: R.Registry, memory: map<nat, BusDevice>, p: nat, on: bool)
      requires DevicesFit(space.lists, space.nodes, memory, objs, r) && p in memory
      ensures p in r.live
      ensures R.Sound(r) && (on ==> p in r.listed) ==> R.Sound(r.(live := r.live[p := r.live[p].(registered := on)]))
    {
    }

    method IsRegistered(p: nat) returns (on: bool)
      requires Fits() && p in r.live
      ensures p in memory && on == r.live[p].registered
    {
      on := memory[p].registered;
    }

    // aalbus_register_device of any device in memory. What it does to one that
    // is on the list already is all the same but for the list.
    method RegisterDevice(p: nat, lostBus: bool, lostAlloc: bool, fails: bool) returns (ret: int)
      requires Valid() && R.Possible(r, R.Register(p, lostBus, lostAlloc, fails))
      modifies this, space, space.nodes, objs, m_sem, alloc_list_sem
      ensures Fits() && !alloc_list_sem.taken
      ensures R.Allowed(old(r), R.Register(p, lostBus, lostAlloc, fails)) ==>
        Orderly() && (r, ret) == R.Registered(old(r), p, lostBus, lostAlloc, fails)
      ensures !R.Allowed(old(r), R.Register(p, lostBus, lostAlloc, fails)) ==>
        && RoundFrom(p)
        && (r, ret) == (R.Registered(old(r), p, lostBus, lostAlloc, fails).0.(listed := old(r).listed),
                        R.Registered(old(r), p, lostBus, lostAlloc, fails).1)
    {
      hide DevicesFit, Orderly, RoundFrom;
      var already := IsRegistered(p);
      if already {
        return -1;
      }
      var failed := TakeBus(lostBus);
      if failed {
        return -1;
      }
      failed := Link(p, lostAlloc);
      if failed {
        return -1;
      }
      if fails {
        PutBus();
        return -1;
      }
      SetRegistered(p, true);
      PutBus();
      ret := 0;
    }

    // Under its lock, the device leaves the allocation list; its memory is given back.
    method Unlink(p: nat, lost: bool) returns (failed: bool)
      requires Valid() && p in memory && p in r.listed
      modifies `memory, `r, space, space.nodes, alloc_list_sem
      ensures Valid() && failed == lost && (failed ==> r == old(r) && memory == old(memory))
      ensures !failed ==> r == old(r).(live := old(r).live - {p}, listed := Without(old(r).listed, p))
    {
      hide DevicesFit, Orderly;
      failed := alloc_list_sem.GetAlertable(lost);
      if failed {
        return;
      }
      TakeOff(p);
      alloc_list_sem.Put();
    }

    method TakeOff(p: nat)
      requires Inner() && p in memory && p in r.listed
      modifies `memory, `r, space, space.nodes
      ensures Inner() && r == old(r).(live := old(r).live - {p}, listed := Without(old(r).listed, p))
    {
      hide ListFits, DevicesFit, ListSpace.Valid, R.Sound, Separate, Objs, Without, Distinct, OnAList;
      space.IsSeparate();
      UnlinkedSound(r, p);
      DestroyedFits(space.lists, space.home, space.nodes, alloc_list_head, memory, objs, r, p);
      space.NearNodes(memory[p].m_alloc_list);
      space.Del(memory[p].m_alloc_list);
      memory := memory - {p};
      r := r.(live := r.live - {p}, listed := Without(r.listed, p));
    }

    lemma UnlinkedSound(r: R.Registry, p: nat)
      requires R.Sound(r) && p in r.listed
      ensures Distinct(r.listed)
      ensures R.Sound(r.(live := r.live - {p}, listed := Without(r.listed, p)))
    {
      WithoutDistinct(r.listed, p);
      WithoutWithin(r.listed, p);
    }

    // aaldev_destroy_device
    method DestroyDevice(p: nat, lostValid: bool, lostAlloc: bool) returns (ret: int)
      requires Valid()
      modifies `memory, `r, space, space.nodes, alloc_list_sem
      ensures Valid() && (r, ret) == R.Destroyed(old(r), p, lostValid, lostAlloc)
      ensures ret != 1 ==> memory == old(memory)
    {
      hide Valid;
      var ok := ValidateDevice(p, lostValid);
      if !ok {
        return R.EINVAL;
      }
      var failed := Unlink(p, lostAlloc);
      if failed {
        return R.INTERRUPTED;
      }
      ret := 1;
    }

    method UnregisterDevice(p: nat, released: bool, lostValid: bool, lostAlloc: bool)
      requires Valid() && p in r.live
      modifies this, space, space.nodes, objs, alloc_list_sem
      ensures Valid() && r == R.Unregistered(old(r), p, released, lostValid, lostAlloc)
    {
      hide DevicesFit, Orderly;
      var already := IsRegistered(p);
      if !already {
        return;
      }
      var live := true;
      if released {
        var ret := DestroyDevice(p, lostValid, lostAlloc);
        live := ret != 1;
      }
      if live {
        SetRegistered(p, false);
      }
    }
  }
}