// The service interfaces of aalinterface.h and aalbus-main.c on list nodes.
module ServiceBus {
  import opened Options
  import opened Sequences
  import opened KosalList
  import opened KosalSem
  import S = ServiceSpec

  const AT_SERVICELIST := 1   // aal_bus_type.m_servicelist
  const AT_LIST := 2          // aal_interface.m_list

  // struct aal_interface, at the address of its link.
  class AalInterface {
    const m_iid: nat
    const m_owner: nat
    const m_list: ListHead
    var m_count: int
    var registered: bool     // AAL_INTERFACE_FLAG_IS_REGISTERED of m_flags

    constructor (iid: nat, owner: nat, list: ListHead)
      ensures m_iid == iid && m_owner == owner && m_list == list && m_count == 0 && !registered
    {
      m_iid, m_owner, m_list, m_count, registered := iid, owner, list, 0, false;
    }
  }

  ghost predicate ListFits(l: Lists, head: ListHead, interfaces: map<nat, AalInterface>, list: seq<nat>) {
    && head in l && head.offset == AT_SERVICELIST && Objs(l[head]) == list
    && forall n :: n in l[head] ==> n.obj in interfaces && interfaces[n.obj].m_list == n
  }

  // The link of an interface that is not on the list is a list of its own.
  ghost predicate InterfacesFit(l: Lists, nodes: set<ListHead>, interfaces: map<nat, AalInterface>, objs: set<AalInterface>,
                                ifaces: map<nat, S.Interface>, list: seq<nat>)
    reads objs
  {
    && interfaces.Keys == ifaces.Keys
    && forall p :: p in interfaces ==>
      && interfaces[p] in objs
      && ifaces[p] == S.Interface(interfaces[p].m_iid, interfaces[p].m_owner, interfaces[p].m_count, interfaces[p].registered)
      && interfaces[p].m_list.obj == p && interfaces[p].m_list.offset == AT_LIST && interfaces[p].m_list in nodes
      && (p !in list ==> interfaces[p].m_list in l && l[interfaces[p].m_list] == [])
  }

  // aal_interface_find
  method Find(space: ListSpace, head: ListHead, interfaces: map<nat, AalInterface>, iid: nat, ghost ifaces: map<nat, S.Interface>)
    returns (found: Option<nat>)
    requires space.Valid() && head in space.lists
    requires forall n :: n in space.lists[head] ==>
      n.obj in interfaces && n.obj in ifaces && interfaces[n.obj].m_iid == ifaces[n.obj].iid
    ensures found == S.Find(Objs(space.lists[head]), ifaces, iid)
  {
    ghost var s, k := Objs(space.lists[head]), 0;
    space.Neighbours(head);
    var tmp := head.next;
    while tmp != head
      invariant 0 <= k <= |s| && tmp == if k < |s| then space.lists[head][k] else head
      invariant S.Find(s, ifaces, iid) == S.Find(s[k..], ifaces, iid)
      decreases |s| - k
    {
      assert space.lists[head][k] in space.lists[head];
      if interfaces[tmp.obj].m_iid == iid {
        return Some(tmp.obj);
      }
      space.NextAt(head, k);
      tmp := tmp.next;
      k := k + 1;
    }
    return None;
  }

  lemma InitFits(l: Lists, nodes: set<ListHead>, head: ListHead, interfaces: map<nat, AalInterface>, objs: set<AalInterface>,
                 ifaces: map<nat, S.Interface>, list: seq<nat>, p: nat, it: AalInterface)
    requires ListFits(l, head, interfaces, list) && InterfacesFit(l, nodes, interfaces, objs, ifaces, list) && Within(l, nodes)
    requires p !in ifaces && it.m_list !in nodes && it.m_list.obj == p && it.m_list.offset == AT_LIST
    requires it.m_count == 0 && !it.registered
    ensures ListFits(l[it.m_list := []], head, interfaces[p := it], list)
    ensures InterfacesFit(l[it.m_list := []], nodes + {it.m_list}, interfaces[p := it], objs + {it},
                          ifaces[p := S.Interface(it.m_iid, it.m_owner, 0, false)], list)
  {
  }

  lemma AddedFits(l: Lists, home: map<ListHead, ListHead>, nodes: set<ListHead>, head: ListHead, interfaces: map<nat, AalInterface>,
                  objs: set<AalInterface>, ifaces: map<nat, S.Interface>, list: seq<nat>, p: nat)
    requires Separate(l, home) && ListFits(l, head, interfaces, list) && InterfacesFit(l, nodes, interfaces, objs, ifaces, list)
    requires p in interfaces && p !in list
    ensures Loose(l, interfaces[p].m_list) && interfaces[p].m_list in nodes && interfaces[p].m_list != head
    ensures ListFits(AddedHead(l, interfaces[p].m_list, head), head, interfaces, [p] + list)
    ensures InterfacesFit(AddedHead(l, interfaces[p].m_list, head), nodes, interfaces, objs, ifaces, [p] + list)
  {
    ObjsCons(interfaces[p].m_list, l[head]);
  }

  lemma DeletedFits(l: Lists, home: map<ListHead, ListHead>, nodes: set<ListHead>, head: ListHead, interfaces: map<nat, AalInterface>,
                    objs: set<AalInterface>, ifaces: map<nat, S.Interface>, list: seq<nat>, p: nat)
    requires Separate(l, home) && ListFits(l, head, interfaces, list) && InterfacesFit(l, nodes, interfaces, objs, ifaces, list)
    requires p in interfaces
    ensures Initialised(l, interfaces[p].m_list) && interfaces[p].m_list in nodes && interfaces[p].m_list != head
    ensures var after: Lists := Deleted(l, interfaces[p].m_list)[interfaces[p].m_list := []];
      && ListFits(after, head, interfaces, Without(list, p))
      && InterfacesFit(after, nodes, interfaces, objs, ifaces, Without(list, p))
  {
    hide *;
    LinkOf(l, nodes, head, interfaces, objs, ifaces, list, p);
    ListDeleted(l, head, interfaces, list, p);
    InterfacesDeleted(l, nodes, interfaces, objs, ifaces, list, p);
  }

  lemma LinkOf(l: Lists, nodes: set<ListHead>, head: ListHead, interfaces: map<nat, AalInterface>,
               objs: set<AalInterface>, ifaces: map<nat, S.Interface>, list: seq<nat>, p: nat)
    requires ListFits(l, head, interfaces, list) && InterfacesFit(l, nodes, interfaces, objs, ifaces, list) && p in interfaces
    ensures var n := interfaces[p].m_list; Initialised(l, n) && n in nodes && n != head && n.obj == p
  {
    if p in list {
      var i :| 0 <= i < |l[head]| && Objs(l[head])[i] == p;
      assert l[head][i] in l[head];
    }
  }

  lemma ListDeleted(l: Lists, head: ListHead, interfaces: map<nat, AalInterface>, list: seq<nat>, p: nat)
    requires ListFits(l, head, interfaces, list) && p in interfaces && interfaces[p].m_list != head && interfaces[p].m_list.obj == p
    ensures ListFits(Deleted(l, interfaces[p].m_list)[interfaces[p].m_list := []], head, interfaces, Without(list, p))
  {
    hide Without, Objs;
    ObjsWithout(l[head], interfaces[p].m_list);
    WithoutWithin(l[head], interfaces[p].m_list);
  }

  lemma InterfacesDeleted(l: Lists, nodes: set<ListHead>, interfaces: map<nat, AalInterface>, objs: set<AalInterface>,
                          ifaces: map<nat, S.Interface>, list: seq<nat>, p: nat)
    requires InterfacesFit(l, nodes, interfaces, objs, ifaces, list) && p in interfaces
    ensures var n := interfaces[p].m_list;
      InterfacesFit(Deleted(l, n)[n := []], nodes, interfaces, objs, ifaces, Without(list, p))
  {
    hide Without;
    var n := interfaces[p].m_list;
    WithoutKeepsOthers(list, p);
    forall q | q in interfaces && q != p && q !in Without(list, p)
      ensures interfaces[q].m_list in Deleted(l, n) && Deleted(l, n)[interfaces[q].m_list] == []
    {
      WithoutAbsent(l[interfaces[q].m_list], n);
    }
  }

  lemma HeadListed(l: Lists, head: ListHead, interfaces: map<nat, AalInterface>, list: seq<nat>)
    requires ListFits(l, head, interfaces, list)
    ensures head in l && Objs(l[head]) == list
  {
  }

  method SetFlag(interfaces: map<nat, AalInterface>, p: nat, on: bool,
                 ghost l: Lists, ghost nodes: set<ListHead>, ghost objs: set<AalInterface>,
                 ghost ifaces: map<nat, S.Interface>, ghost list: seq<nat>)
    requires InterfacesFit(l, nodes, interfaces, objs, ifaces, list) && p in interfaces
    modifies objs
    ensures p in ifaces && InterfacesFit(l, nodes, interfaces, objs, ifaces[p := ifaces[p].(registered := on)], list)
  {
    interfaces[p].registered := on;
  }

  method SetCount(interfaces: map<nat, AalInterface>, p: nat, n: int,
                  ghost l: Lists, ghost nodes: set<ListHead>, ghost objs: set<AalInterface>,
                 ghost ifaces: map<nat, S.Interface>, ghost list: seq<nat>)
    requires InterfacesFit(l, nodes, interfaces, objs, ifaces, list) && p in interfaces
    modifies objs
    ensures p in ifaces && InterfacesFit(l, nodes, interfaces, objs, ifaces[p := ifaces[p].(count := n)], list)
  {
    interfaces[p].m_count := n;
  }

  class Bus {
    const space: ListSpace
    const m_servicelist: ListHead
    const m_sem: Mutex
    var interfaces: map<nat, AalInterface>
    var refs: map<nat, int>              // the references the kernel holds on each module
    ghost var objs: set<AalInterface>
    ghost var s: S.Services

    ghost predicate Valid()
      reads this, space, space.nodes, objs
    {
      space.Valid() && Fits()
    }

    ghost predicate Fits()
      reads this, space, objs
    {
      && ListFits(space.lists, m_servicelist, interfaces, s.list)
      && InterfacesFit(space.lists, space.nodes, interfaces, objs, s.ifaces, s.list)
      && s.refs == refs && (forall p :: p in s.ifaces ==> s.ifaces[p].owner in refs)
    }

    constructor ()
      ensures Valid() && fresh(space) && !m_sem.taken && s == S.Services([], map[], map[], [])
    {
      var sp := new ListSpace();
      var h := sp.NewHead(0, AT_SERVICELIST);
      space, m_servicelist := sp, h;
      m_sem := new Mutex();
      interfaces, refs, objs, s := map[], map[], {}, S.Services([], map[], map[], []);
    }

    // A module is loaded.
    method LoadModule(m: nat)
      requires Valid() && m !in s.refs
      modifies `s, `refs
      ensures Valid() && s == old(s).(refs := old(s).refs[m := 0])
    {
      hide ListFits, InterfacesFit, ListSpace.Valid;
      refs := refs[m := 0];
      s := s.(refs := refs);
    }

    // aal_interface_init
    method InitInterface(p: nat, iid: nat, owner: nat)
      requires Valid() && p !in s.ifaces && owner in s.refs
      modifies `s, `interfaces, `objs, space
      ensures Valid() && s == old(s).(ifaces := old(s).ifaces[p := S.Interface(iid, owner, 0, false)])
    {
      hide ListFits, InterfacesFit, ListSpace.Valid;
      ghost var l: Lists, nodes := space.lists, space.nodes;
      space.IsWithin();
      var n := space.NewHead(p, AT_LIST);
      var it := new AalInterface(iid, owner, n);
      InitFits(l, nodes, m_servicelist, interfaces, objs, s.ifaces, s.list, p, it);
      interfaces, objs := interfaces[p := it], objs + {it};
      s := s.(ifaces := s.ifaces[p := S.Interface(iid, owner, 0, false)]);
    }

    method FindHere(iid: nat) returns (found: Option<nat>)
      requires Valid()
      ensures found == S.Find(s.list, s.ifaces, iid)
      ensures found.Some? ==> found.value in interfaces
    {
      hide ListSpace.Valid;
      S.FindIsDirectory(s.list, s.ifaces, iid);
      found := Find(space, m_servicelist, interfaces, iid, s.ifaces);
    }

    // aal_interface_add
    method InterfaceAdd(p: nat, lost: bool) returns (ret: int)
      requires Valid() && p in s.ifaces && !m_sem.taken
      modifies `s, space, space.nodes, m_sem
      ensures Valid() && !m_sem.taken && ret == S.Registered(old(s), p, lost).1
      ensures s == if ret == 0 then old(s).(list := [p] + old(s).list) else old(s)
    {
      hide ListFits, InterfacesFit, ListSpace.Valid;
      var failed := m_sem.GetAlertable(lost);
      if failed {
        return -2;
      }
      var iid := IidOf(p);
      var already := FindHere(iid);
      if already.Some? {
        m_sem.Put();
        return -1;
      }
      NotListed(p);
      PutOn(p);
      m_sem.Put();
      ret := 0;
    }

    method IidOf(p: nat) returns (iid: nat)
      requires Valid() && p in s.ifaces
      ensures p in interfaces && iid == s.ifaces[p].iid
    {
      iid := interfaces[p].m_iid;
    }

    lemma InterfaceHere(p: nat)
      requires Valid() && p in s.ifaces
      ensures p in interfaces
    {
    }

    lemma NotListed(p: nat)
      requires p in s.ifaces && S.Find(s.list, s.ifaces, s.ifaces[p].iid).None?
      ensures p !in s.list
    {
      S.FindIsDirectory(s.list, s.ifaces, s.ifaces[p].iid);
    }

    method PutOn(p: nat)
      requires Valid() && p in interfaces && p !in s.list
      modifies `s, space, space.nodes
      ensures Valid() && s == old(s).(list := [p] + old(s).list)
    {
      hide ListFits, InterfacesFit, ListSpace.Valid, Loose, Separate, Objs;
      space.IsSeparate();
      AddedFits(space.lists, space.home, space.nodes, m_servicelist, interfaces, objs, s.ifaces, s.list, p);
      HeadListed(space.lists, m_servicelist, interfaces, s.list);
      space.HeadNodes(m_servicelist);
      space.AddHead(interfaces[p].m_list, m_servicelist);
      s := s.(list := [p] + s.list);
    }

    // aal_interface_del
    method InterfaceDel(p: nat, lost: bool) returns (ret: int)
      requires Valid() && p in s.ifaces && !m_sem.taken
      modifies `s, space, space.nodes, m_sem
      ensures Valid() && !m_sem.taken && ret == S.Unregistered(old(s), p, lost).1
      ensures s == if ret == 0 then old(s).(list := Without(old(s).list, p)) else old(s)
    {
      hide ListFits, InterfacesFit, ListSpace.Valid;
      var failed := m_sem.GetAlertable(lost);
      if failed {
        return -2;
      }
      var iid := IidOf(p);
      var there := FindHere(iid);
      if there.None? {
        m_sem.Put();
        return -1;
      }
      TakeOff(p);
      m_sem.Put();
      ret := 0;
    }

    method TakeOff(p: nat)
      requires Valid() && p in interfaces
      modifies `s, space, space.nodes
      ensures Valid() && s == old(s).(list := Without(old(s).list, p))
    {
      hide ListFits, InterfacesFit, ListSpace.Valid, Initialised, Separate, Objs, Without;
      space.IsSeparate();
      DeletedFits(space.lists, space.home, space.nodes, m_servicelist, interfaces, objs, s.ifaces, s.list, p);
      space.InitialisedNodes(interfaces[p].m_list);
      space.DelInit(interfaces[p].m_list);
      s := s.(list := Without(s.list, p));
    }

    method Flag(p: nat, on: bool)
      requires Valid() && p in interfaces
      modifies `s, objs
      ensures Valid() && p in old(s).ifaces && s == old(s).(ifaces := old(s).ifaces[p := old(s).ifaces[p].(registered := on)])
    {
      hide ListFits, InterfacesFit, ListSpace.Valid;
      SetFlag(interfaces, p, on, space.lists, space.nodes, objs, s.ifaces, s.list);
      s := s.(ifaces := s.ifaces[p := s.ifaces[p].(registered := on)]);
    }

    // aalbus_register_service_interface
    method RegisterServiceInterface(p: nat, lost: bool) returns (ret: int)
      requires Valid() && p in s.ifaces && !m_sem.taken
      modifies `s, space, space.nodes, m_sem, objs
      ensures Valid() && !m_sem.taken && (s, ret) == S.Registered(old(s), p, lost)
    {
      hide Valid;
      InterfaceHere(p);
      ret := InterfaceAdd(p, lost);
      if ret == 0 {
        Flag(p, true);
      }
    }

    // aalbus_unregister_service_interface
    method UnregisterServiceInterface(p: nat, lost: bool) returns (ret: int)
      requires Valid() && p in s.ifaces && !m_sem.taken
      modifies `s, space, space.nodes, m_sem, objs
      ensures Valid() && !m_sem.taken && (s, ret) == S.Unregistered(old(s), p, lost)
    {
      hide Valid;
      InterfaceHere(p);
      ret := InterfaceDel(p, lost);
      if ret == 0 {
        Flag(p, false);
      }
    }

    // try_module_get of the owner, when it succeeds.
    method TakeModule(p: nat)
      requires Valid() && p in interfaces
      modifies `s, `refs
      ensures Valid() && p in s.ifaces && s.ifaces[p].owner in old(s).refs
      ensures s == old(s).(refs := old(s).refs[s.ifaces[p].owner := old(s).refs[s.ifaces[p].owner] + 1], held := old(s).held + [p])
    {
      hide ListFits, InterfacesFit, ListSpace.Valid;
      var owner := OwnerOf(p);
      refs := refs[owner := refs[owner] + 1];
      s := s.(refs := refs, held := s.held + [p]);
    }

    // module_put of the owner
    method PutModule(p: nat)
      requires Valid() && p in interfaces
      modifies `s, `refs
      ensures Valid() && p in s.ifaces && s.ifaces[p].owner in old(s).refs
      ensures s == old(s).(refs := old(s).refs[s.ifaces[p].owner := old(s).refs[s.ifaces[p].owner] - 1], held := Without(old(s).held, p))
    {
      hide ListFits, InterfacesFit, ListSpace.Valid;
      var owner := OwnerOf(p);
      refs := refs[owner := refs[owner] - 1];
      s := s.(refs := refs, held := Without(s.held, p));
    }

    method OwnerOf(p: nat) returns (owner: nat)
      requires Valid() && p in interfaces
      ensures p in s.ifaces && owner == s.ifaces[p].owner && owner in refs
    {
      owner := interfaces[p].m_owner;
    }

    // aalbus_get_service_interface: once the module reference is taken, the
    // handle is given out even when the count cannot be.
    method GetServiceInterface(iid: nat, going: bool, lost: bool) returns (pinterface: Option<nat>)
      requires Valid() && !m_sem.taken
      modifies `s, `refs, objs, m_sem
      ensures Valid() && !m_sem.taken && (s, pinterface) == S.Got(old(s), iid, going, lost)
    {
      hide ListFits, InterfacesFit, ListSpace.Valid, S.Find;
      pinterface := FindHere(iid);
      if pinterface.None? {
        return;
      }
      var p := pinterface.value;
      var owner := OwnerOf(p);
      if going {
        return None;
      }
      TakeModule(p);
      var failed := m_sem.GetAlertable(lost);
      if failed {
        return;
      }
      Count(p, 1);
      m_sem.Put();
    }

    method Count(p: nat, d: int)
      requires Valid() && p in interfaces
      modifies `s, objs
      ensures Valid() && p in old(s).ifaces
      ensures s == old(s).(ifaces := old(s).ifaces[p := old(s).ifaces[p].(count := old(s).ifaces[p].count + d)])
    {
      hide ListFits, InterfacesFit, ListSpace.Valid;
      var n := CountOf(p);
      SetCount(interfaces, p, n + d, space.lists, space.nodes, objs, s.ifaces, s.list);
      s := s.(ifaces := s.ifaces[p := s.ifaces[p].(count := n + d)]);
    }

    method CountOf(p: nat) returns (n: int)
      requires Valid() && p in interfaces
      ensures p in s.ifaces && n == s.ifaces[p].count
    {
      n := interfaces[p].m_count;
    }

    // aalbus_release_service_interface
    method ReleaseServiceInterface(p: nat, lost: bool)
      requires Valid() && !m_sem.taken && S.Allowed(s, S.Release(p, lost))
      modifies `s, `refs, objs, m_sem
      ensures Valid() && !m_sem.taken && s == S.Released(old(s), p, lost)
    {
      hide Valid, Without;
      InterfaceHere(p);
      var failed := m_sem.GetAlertable(lost);
      if failed {
        PutModule(p);
        return;
      }
      var n := CountOf(p);
      if n > 0 {
        Count(p, -1);
      }
      m_sem.Put();
      PutModule(p);
    }

    // aalbus_has_interface
    method HasInterface(iid: nat) returns (there: bool)
      requires Valid()
      ensures there <==> S.Find(s.list, s.ifaces, iid).Some?
    {
      var found := FindHere(iid);
      there := found.Some?;
    }
  }
}
