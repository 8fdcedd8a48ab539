// The owner operations of aalbus-device.c with their locks, counters and
// events, each doing to memory what OwnerSpec.Step does to values.
module OwnerBus {
  import opened Options
  import opened KosalSem
  import P = OwnerProofs
  import S = OwnerSpec
  import T = OwnerTables

  // struct aal_device, as far as its owners go.
  class Device {
    const m_sem: Mutex
    const m_maxowners: S.Count
    var m_numowners: S.Count

    constructor (maxowners: S.Count)
      ensures fresh(m_sem) && !m_sem.taken && m_numowners == 0 && m_maxowners == maxowners
    {
      m_sem := new Mutex();
      m_maxowners, m_numowners := maxowners, 0;
    }
  }

  // The devices are as st says; owner tells which device a semaphore is in.
  ghost predicate DevicesFit(devices: map<nat, Device>, devs: set<Device>, owner: map<Mutex, nat>, sems: set<Mutex>, st: S.State)
    reads devs, sems
  {
    && st.t.owners.Keys == st.numowners.Keys == st.maxowners.Keys == st.log.Keys == devices.Keys && owner.Keys == sems
    && forall d :: d in devices ==> devices[d] in devs && DeviceFits(devices[d], owner, sems, st, d)
  }

  ghost predicate DeviceFits(dev: Device, owner: map<Mutex, nat>, sems: set<Mutex>, st: S.State, d: nat)
    reads dev, sems
  {
    && dev.m_sem in sems
    && d in st.numowners && dev.m_numowners == st.numowners[d]
    && d in st.maxowners && dev.m_maxowners == st.maxowners[d]
    && dev.m_sem in owner && owner[dev.m_sem] == d
    && (d in st.stuck <==> dev.m_sem.taken)
  }

  lemma StillFit(devices: map<nat, Device>, devs: set<Device>, owner: map<Mutex, nat>, sems: set<Mutex>, st: S.State, after: S.State)
    requires DevicesFit(devices, devs, owner, sems, st)
    requires after.numowners == st.numowners && after.maxowners == st.maxowners && after.stuck == st.stuck
    requires after.t.owners.Keys == st.t.owners.Keys && after.log.Keys == st.log.Keys
    ensures DevicesFit(devices, devs, owner, sems, after)
  {
  }

  lemma SameKeys(devices: map<nat, Device>, devs: set<Device>, owner: map<Mutex, nat>, sems: set<Mutex>, st: S.State)
    requires DevicesFit(devices, devs, owner, sems, st)
    ensures st.t.owners.Keys == st.log.Keys == devices.Keys
  {
  }

  lemma NewFits(devices: map<nat, Device>, devs: set<Device>, owner: map<Mutex, nat>, sems: set<Mutex>, st: S.State,
                d: nat, pdev: Device)
    requires DevicesFit(devices, devs, owner, sems, st) && d !in devices && d !in st.stuck
    requires pdev.m_numowners == 0 && !pdev.m_sem.taken && pdev.m_sem !in sems
    ensures DevicesFit(devices[d := pdev], devs + {pdev}, owner[pdev.m_sem := d], sems + {pdev.m_sem},
                       S.WithDevice(st, d, pdev.m_maxowners))
  {
  }

  method Acquire(devices: map<nat, Device>, d: nat, lost: bool,
                 ghost devs: set<Device>, ghost owner: map<Mutex, nat>, ghost sems: set<Mutex>, ghost st: S.State)
    returns (failed: bool)
    requires DevicesFit(devices, devs, owner, sems, st) && d in devices && (lost || d !in st.stuck)
    modifies sems
    ensures failed == lost
    ensures DevicesFit(devices, devs, owner, sems, if lost then st else st.(stuck := st.stuck + {d}))
  {
    failed := devices[d].m_sem.GetAlertable(lost);
  }

  method Release(devices: map<nat, Device>, d: nat,
                 ghost devs: set<Device>, ghost owner: map<Mutex, nat>, ghost sems: set<Mutex>, ghost st: S.State)
    requires DevicesFit(devices, devs, owner, sems, st) && d in devices
    modifies sems
    ensures DevicesFit(devices, devs, owner, sems, st.(stuck := st.stuck - {d}))
  {
    devices[d].m_sem.Put();
  }

  method Store(devices: map<nat, Device>, d: nat, n: S.Count,
               ghost devs: set<Device>, ghost owner: map<Mutex, nat>, ghost sems: set<Mutex>, ghost st: S.State)
    requires DevicesFit(devices, devs, owner, sems, st) && d in devices
    modifies devs
    ensures DevicesFit(devices, devs, owner, sems, st.(numowners := st.numowners[d := n]))
  {
    devices[d].m_numowners := n;
  }

  lemma DeviceHere(devices: map<nat, Device>, devs: set<Device>, owner: map<Mutex, nat>, sems: set<Mutex>, st: S.State, d: nat)
    requires DevicesFit(devices, devs, owner, sems, st) && d in devices
    ensures S.IsDevice(st, d)
  {
  }

  // ----- what a call amounts to, by how far it gets

  lemma Refused(st: S.State, c: S.Call)
    requires S.Allowed(st, c)
    ensures !S.Reaches(st, c) ==> S.Step(st, c) == (st, S.Invalid(c.op))
    ensures S.Reaches(st, c) && c.lostSem ==> S.Step(st, c) == (st, S.Interrupted(c.op))
    ensures S.Enters(st, c) ==> c.op.dev !in st.stuck
    ensures S.Enters(st, c) && S.Verdict(st, c).Done? ==> S.Step(st, c) == (st, S.Verdict(st, c).reply)
  {
  }

  lemma SessionAsked(st: S.State, c: S.Call)
    requires c.op.GetSession? && S.IsDevice(st, c.op.dev)
    ensures S.Verdict(st, c) == S.Done(S.Pointer(match S.Find(st.t, c) case None => None case Some(r) => Some(S.Embedded(r))))
  {
  }

  // The state while and after the semaphore of d is held.
  function Holding(st: S.State, d: nat): S.State {
    st.(stuck := st.stuck + {d})
  }

  lemma LetGo(st: S.State, d: nat)
    requires d !in st.stuck
    ensures Holding(st, d).(stuck := Holding(st, d).stuck - {d}) == st
  {
    assert st.stuck + {d} - {d} == st.stuck;
  }

  lemma Abandoned(st: S.State, c: S.Call)
    requires S.Allowed(st, c) && S.Enters(st, c) && S.Verdict(st, c).Link? && c.lostList
    ensures S.Step(st, c).0 == if c.op.Add? then Holding(st, c.op.dev).(leaked := st.leaked + {S.Verdict(st, c).rec})
                               else Holding(st, c.op.dev)
    ensures S.Step(st, c).1 == S.Interrupted(c.op)
  {
    assert st.leaked + {} == st.leaked;
  }

  // The state after each part of the work of a call that links r.
  function Worked(st: S.State, c: S.Call, r: nat): S.State
    requires S.Linkable(st.t, c.op, r) && S.IsDevice(st, c.op.dev)
  {
    var d := c.op.dev;
    st.(t := S.Linked(st.t, c.op, r), numowners := st.numowners[d := S.Bumped(c.op, st.numowners[d])],
        log := st.log[d := S.Told(st.handler, st.log[d], c.op)])
  }

  // The state when the list work is done, the semaphore still held.
  function Listed(st: S.State, op: S.Op, r: nat): S.State
    requires S.Linkable(st.t, op, r)
  {
    Holding(st, op.dev).(t := S.Linked(st.t, op, r))
  }

  // The state when the counter has been stepped, the semaphore still held.
  function Counted(st: S.State, op: S.Op, r: nat): S.State
    requires S.Linkable(st.t, op, r) && S.IsDevice(st, op.dev)
  {
    Listed(st, op, r).(numowners := st.numowners[op.dev := S.Bumped(op, st.numowners[op.dev])])
  }

  lemma Uncounted(st: S.State, op: S.Op, r: nat)
    requires S.Linkable(st.t, op, r) && S.IsDevice(st, op.dev) && op.Update?
    ensures Counted(st, op, r) == Listed(st, op, r)
  {
    assert st.numowners[op.dev := st.numowners[op.dev]] == st.numowners;
  }

  lemma Completed(st: S.State, c: S.Call)
    requires S.Allowed(st, c) && S.Links(st, c)
    ensures S.Linkable(st.t, c.op, S.Verdict(st, c).rec) && c.op.dev !in st.stuck
    ensures S.IsDevice(st, c.op.dev)
    ensures S.Step(st, c) == (Worked(st, c, S.Verdict(st, c).rec), S.Success(c.op))
  {
  }

  class OwnerBus {
    const tables: T.OwnerTables
    const g_listlock: Mutex
    var devices: map<nat, Device>
    var valid: set<nat>
    var handler: bool
    var log: map<nat, seq<S.Event>>
    ghost var devs: set<Device>
    ghost var owner: map<Mutex, nat>
    ghost var sems: set<Mutex>
    ghost var st: S.State

    ghost predicate Valid()
      reads this, tables, tables.space, tables.space.nodes, tables.owned, devs, sems
    {
      tables.Valid() && Fits()
    }

    ghost predicate Fits()
      reads this, tables, devs, sems
    {
      && DevicesFit(devices, devs, owner, sems, st) && g_listlock !in sems
      && st.t == tables.t && st.valid == valid && st.handler == handler && st.log == log
      && valid <= devices.Keys
    }

    // Fits, with the tables already holding the list of a new device d.
    ghost predicate FitsApartFrom(d: nat)
      reads this, tables, devs, sems
    {
      && DevicesFit(devices, devs, owner, sems, st) && g_listlock !in sems
      && st.t.(owners := st.t.owners[d := []]) == tables.t
      && st.valid == valid && st.handler == handler && st.log == log && valid <= devices.Keys
    }

    constructor ()
      ensures Valid() && !g_listlock.taken && fresh(g_listlock) && fresh(tables)
      ensures st == S.EMPTY
    {
      hide T.OwnerTables.Valid;
      tables := new T.OwnerTables();
      g_listlock := new Mutex();
      devices, valid, handler, log := map[], {}, false, map[];
      devs, owner, sems := {}, map[], {};
      st := S.EMPTY;
    }

    // aaldev_create and the registration that makes the device valid.
    method NewDevice(d: nat, maxowners: S.Count)
      requires Valid() && d !in devices && d !in st.stuck
      modifies this, tables, tables.space
      ensures Valid() && st == S.WithDevice(old(st), d, maxowners)
    {
      hide T.OwnerTables.Valid, DevicesFit;
      SameKeys(devices, devs, owner, sems, st);
      tables.NewDevice(d);
      var pdev := new Device(maxowners);
      Enrol(d, pdev);
    }

    lemma EnrolParts(d: nat, max: S.Count)
      requires FitsApartFrom(d)
      ensures var after := S.WithDevice(st, d, max);
        after.t == tables.t && after.valid == valid + {d} && after.handler == handler && after.log == log[d := []]
    {
      hide DevicesFit;
    }

    method Enrol(d: nat, pdev: Device)
      requires tables.Valid() && FitsApartFrom(d) && d !in devices && d !in st.stuck
      requires pdev.m_numowners == 0 && !pdev.m_sem.taken && pdev.m_sem !in sems && pdev.m_sem != g_listlock
      modifies this
      ensures Valid() && st == S.WithDevice(old(st), d, pdev.m_maxowners)
    {
      hide T.OwnerTables.Valid, DevicesFit, S.WithDevice;
      NewFits(devices, devs, owner, sems, st, d, pdev);
      EnrolParts(d, pdev.m_maxowners);
      devices, devs := devices[d := pdev], devs + {pdev};
      owner, sems := owner[pdev.m_sem := d], sems + {pdev.m_sem};
      valid, log := valid + {d}, log[d := []];
      st := S.WithDevice(st, d, pdev.m_maxowners);
      assert tables.Valid();
      assert Fits();
    }

    // A session starts a list of the devices it owns.
    method NewSessionList(id: nat)
      requires Valid() && id !in st.t.devlists
      modifies `st, tables, tables.space
      ensures Valid() && st == S.WithSessionList(old(st), id)
    {
      hide T.OwnerTables.Valid, DevicesFit;
      StillFit(devices, devs, owner, sems, st, S.WithSessionList(st, id));
      tables.NewSessionList(id);
      st := S.WithSessionList(st, id);
    }

    method NewSession(id: nat, context: nat)
      requires Valid() && S.Elsewhere(id) !in st.t.sess
      modifies `st, tables, tables.space
      ensures Valid() && st == S.WithSession(old(st), id, context)
    {
      hide T.OwnerTables.Valid, DevicesFit;
      StillFit(devices, devs, owner, sems, st, S.WithSession(st, id, context));
      tables.NewSession(id, context);
      st := S.WithSession(st, id, context);
    }

    // A configuration update handler is installed.
    method InstallHandler()
      requires Valid()
      modifies `st, `handler
      ensures Valid() && st == old(st).(handler := true)
    {
      hide T.OwnerTables.Valid, DevicesFit;
      StillFit(devices, devs, owner, sems, st, st.(handler := true));
      handler := true;
      st := st.(handler := true);
    }

    // kosal_sem_get_user_alertable of the semaphore of a device.
    method Lock(d: nat, lost: bool) returns (failed: bool)
      requires Valid() && d in devices && (lost || d !in st.stuck)
      modifies `st, sems
      ensures Valid() && failed == lost && g_listlock.taken == old(g_listlock.taken)
      ensures st == if lost then old(st) else old(st).(stuck := old(st).stuck + {d})
    {
      hide T.OwnerTables.Valid, DevicesFit;
      failed := Acquire(devices, d, lost, devs, owner, sems, st);
      assert tables.Valid();
      if !failed {
        st := st.(stuck := st.stuck + {d});
      }
      assert Fits();
    }

    method Unlock(d: nat)
      requires Valid() && d in devices
      modifies `st, sems
      ensures Valid() && g_listlock.taken == old(g_listlock.taken)
      ensures st == old(st).(stuck := old(st).stuck - {d})
    {
      hide T.OwnerTables.Valid, DevicesFit;
      Release(devices, d, devs, owner, sems, st);
      assert tables.Valid();
      st := st.(stuck := st.stuck - {d});
      assert Fits();
    }

    // aaldev_valid, whose own lock may be interrupted: then it answers no.
    method AaldevValid(d: nat, interrupted: bool) returns (ok: bool)
      requires Valid()
      ensures ok == (d in valid && !interrupted)
      ensures ok ==> d in devices && S.IsDevice(st, d)
      ensures S.IsDevice(st, d) <==> d in devices
      ensures st.valid == valid
    {
      hide T.OwnerTables.Valid, DeviceFits;
      ok := d in valid && !interrupted;
    }

    // aaldev_find_pid_owner
    method FindPidOwner(c: S.Call) returns (result: T.OwnerRecord?)
      requires Valid() && c.op.dev in valid && S.IsDevice(st, c.op.dev) && !c.op.RemoveDevice?
      ensures result == null <==> S.Find(st.t, c).None?
      ensures result != null ==> tables.Knows(result) && S.Find(st.t, c) == Some(result.m_ownerlist.obj)
    {
      var ok := AaldevValid(c.op.dev, c.lostNested);
      if !ok {
        return null;
      }
      result := tables.FindPid(c.op.dev, c.op.pid);
    }

    // The counters of a device, as its operations read them.
    method Numbers(d: nat) returns (num: S.Count, max: S.Count)
      requires Valid() && d in devices
      ensures S.IsDevice(st, d) && num == st.numowners[d] && max == st.maxowners[d]
    {
      hide T.OwnerTables.Valid;
      num, max := devices[d].m_numowners, devices[d].m_maxowners;
    }

    // aalbus_send_config_update_event
    method SendConfigUpdateEvent(d: nat, op: S.Op)
      requires Valid() && S.IsDevice(st, d) && (S.Works(op) || op.RemoveDevice?)
      modifies `st, `log
      ensures Valid() && st == old(st).(log := old(st).log[d := S.Told(st.handler, old(st).log[d], op)])
    {
      hide T.OwnerTables.Valid, DevicesFit;
      ghost var after := st.(log := st.log[d := S.Told(st.handler, st.log[d], op)]);
      StillFit(devices, devs, owner, sems, st, after);
      if handler {
        log := log[d := log[d] + [S.Sent(op)]];
      }
      st := after;
    }

    method StoreCount(d: nat, n: S.Count)
      requires Valid() && d in devices
      modifies `st, devs
      ensures Valid() && S.IsDevice(old(st), d) && st == old(st).(numowners := old(st).numowners[d := n])
    {
      hide T.OwnerTables.Valid, DevicesFit;
      DeviceHere(devices, devs, owner, sems, st, d);
      Store(devices, d, n, devs, owner, sems, st);
      assert tables.Valid();
      st := st.(numowners := st.numowners[d := n]);
    }

    // The list work of an add under g_listlock, on a record just prepared.
    method LinkNew(pown: T.OwnerRecord, c: S.Call)
      requires Valid() && c.op.Add? && S.Linkable(st.t, c.op, pown.m_ownerlist.obj)
      requires T.Prepared(tables.space.lists, tables.space.nodes, pown, pown.m_ownerlist.obj)
      requires pown.m_pid == c.op.pid && pown.m_device == c.op.dev && pown.m_manifest == c.op.context
      requires pown.m_sess.m_ownerContext == c.op.manifest
      modifies `st, tables, tables.space, tables.space.nodes
      ensures Valid() && st == old(st).(t := S.Linked(old(st).t, c.op, pown.m_ownerlist.obj))
    {
      hide T.OwnerTables.Valid, DevicesFit, S.Linked, T.Prepared, S.Linkable;
      P.OwnersStay(st.t, c.op, pown.m_ownerlist.obj);
      ghost var after := st.(t := S.Linked(st.t, c.op, pown.m_ownerlist.obj));
      StillFit(devices, devs, owner, sems, st, after);
      tables.Attach(pown, c.op.dev, c.op.slist, c.op);
      st := after;
    }

    method UnlinkOld(pown: T.OwnerRecord, c: S.Call)
      requires Valid() && tables.Knows(pown) && c.op.Remove? && S.Linkable(st.t, c.op, pown.m_ownerlist.obj)
      modifies `st, tables, tables.space, tables.space.nodes
      ensures Valid() && st == old(st).(t := S.Linked(old(st).t, c.op, pown.m_ownerlist.obj))
    {
      hide T.OwnerTables.Valid, DevicesFit, S.Linked, S.Linkable;
      P.OwnersStay(st.t, c.op, pown.m_ownerlist.obj);
      ghost var after := st.(t := S.Linked(st.t, c.op, pown.m_ownerlist.obj));
      StillFit(devices, devs, owner, sems, st, after);
      tables.Detach(pown, c.op);
      st := after;
    }

    method RelinkOld(pown: T.OwnerRecord, c: S.Call)
      requires Valid() && tables.Knows(pown) && c.op.Update? && S.Linkable(st.t, c.op, pown.m_ownerlist.obj)
      modifies `st, tables, tables.space, tables.space.nodes, tables.owned
      ensures Valid() && st == old(st).(t := S.Linked(old(st).t, c.op, pown.m_ownerlist.obj))
    {
      hide T.OwnerTables.Valid, DevicesFit, S.Linked, S.Linkable;
      P.OwnersStay(st.t, c.op, pown.m_ownerlist.obj);
      ghost var after := st.(t := S.Linked(st.t, c.op, pown.m_ownerlist.obj));
      StillFit(devices, devs, owner, sems, st, after);
      tables.Relist(pown, c.op.src, c.op.slist, c.op);
      st := after;
    }

    method LockList(lost: bool) returns (failed: bool)
      requires Valid() && (lost || !g_listlock.taken)
      modifies g_listlock
      ensures Valid() && failed == lost && (lost ==> g_listlock.taken == old(g_listlock.taken))
    {
      hide T.OwnerTables.Valid, DevicesFit;
      failed := g_listlock.GetAlertable(lost);
    }

    method UnlockList()
      requires Valid()
      modifies g_listlock
      ensures Valid() && !g_listlock.taken
    {
      hide T.OwnerTables.Valid, DevicesFit;
      g_listlock.Put();
    }

    method NewOwner(r: nat, pid: S.Pid, device: nat, context: nat, manifest: nat) returns (pown: T.OwnerRecord)
      requires Valid()
      modifies tables.space
      ensures Valid() && fresh(tables.space.nodes - old(tables.space.nodes)) && fresh(pown) && fresh(pown.m_sess)
      ensures pown.m_pid == pid && pown.m_device == device && pown.m_manifest == context
      ensures pown.m_sess.m_ownerContext == manifest && pown.m_ownerlist.obj == r
      ensures T.Prepared(tables.space.lists, tables.space.nodes, pown, r)
    {
      hide T.OwnerTables.Valid, DevicesFit;
      pown := tables.NewRecord(r, pid, device, context, manifest);
    }

    method ListNew(pown: T.OwnerRecord, c: S.Call, ghost was: S.State) returns (failed: bool)
      requires Valid() && !g_listlock.taken && c.op.Add? && S.Allowed(was, c) && S.Enters(was, c)
      requires S.Verdict(was, c) == S.Link(pown.m_ownerlist.obj) && st == Holding(was, c.op.dev)
      requires T.Prepared(tables.space.lists, tables.space.nodes, pown, pown.m_ownerlist.obj)
      requires pown.m_pid == c.op.pid && pown.m_device == c.op.dev && pown.m_manifest == c.op.context
      requires pown.m_sess.m_ownerContext == c.op.manifest
      modifies `st, tables, tables.space, tables.space.nodes, g_listlock
      ensures Valid() && !g_listlock.taken && failed == c.lostList
      ensures failed ==> st == old(st)
      ensures !failed ==> S.Linkable(was.t, c.op, pown.m_ownerlist.obj)
      ensures !failed ==> st == Listed(was, c.op, pown.m_ownerlist.obj)
    {
      hide Valid, S.Step, S.Linked, S.Allowed, S.Linkable, T.Prepared;
      failed := LockList(c.lostList);
      if failed {
        return;
      }
      Completed(was, c);
      LinkNew(pown, c);
      UnlockList();
    }

    // An add steps the counter unless it is at its top.
    method CountUp(c: S.Call, ghost was: S.State, ghost r: nat)
      requires Valid() && c.op.dev in devices && c.op.Add? && S.Linkable(was.t, c.op, r)
      requires S.IsDevice(was, c.op.dev) && st == Listed(was, c.op, r)
      modifies `st, devs
      ensures Valid() && g_listlock.taken == old(g_listlock.taken) && st == Counted(was, c.op, r)
    {
      hide Valid, S.Linked, S.Linkable;
      var num, max := Numbers(c.op.dev);
      if num != S.UNLIMITED {
        StoreCount(c.op.dev, num + 1);
      }
    }

    // A remove steps it down without a look: 32 bits wide, it wraps.
    method CountDown(c: S.Call, ghost was: S.State, ghost r: nat)
      requires Valid() && c.op.dev in devices && c.op.Remove? && S.Linkable(was.t, c.op, r)
      requires S.IsDevice(was, c.op.dev) && st == Listed(was, c.op, r)
      modifies `st, devs
      ensures Valid() && g_listlock.taken == old(g_listlock.taken) && st == Counted(was, c.op, r)
    {
      hide Valid, S.Linked, S.Linkable;
      var num, max := Numbers(c.op.dev);
      StoreCount(c.op.dev, if num == 0 then S.UNLIMITED else num - 1);
    }

    // What follows the counting: the event is sent, the semaphore let go.
    method Finish(c: S.Call, ghost was: S.State, ghost r: nat)
      requires Valid() && c.op.dev in devices && S.Linkable(was.t, c.op, r) && c.op.dev !in was.stuck
      requires S.IsDevice(was, c.op.dev)
      requires st == Counted(was, c.op, r)
      modifies `st, `log, sems
      ensures Valid() && g_listlock.taken == old(g_listlock.taken) && st == Worked(was, c, r)
    {
      hide Valid, S.Linked;
      P.OwnersStay(was.t, c.op, r);
      SendConfigUpdateEvent(c.op.dev, c.op);
      Unlock(c.op.dev);
      LetGo(Worked(was, c, r), c.op.dev);
    }

    // The rest of an add that has found nothing against it.
    method AddNew(c: S.Call, ghost was: S.State) returns (ret: int)
      requires Valid() && !g_listlock.taken && c.op.Add? && S.Allowed(was, c) && S.Enters(was, c)
      requires c.mem.Some? && S.Verdict(was, c) == S.Link(c.mem.value) && st == Holding(was, c.op.dev)
      requires c.op.dev in devices
      modifies this, tables, tables.space, tables.space.nodes, devs, sems, g_listlock
      ensures Valid() && !g_listlock.taken && (st, S.Code(ret)) == S.Step(was, c)
    {
      hide Valid, S.Step, S.Linked, S.Allowed, S.Linkable, T.Prepared, Counted, Worked, Listed;
      var d := c.op.dev;
      var pown := NewOwner(c.mem.value, c.op.pid, d, c.op.context, c.op.manifest);
      var failed := ListNew(pown, c, was);
      if failed {
        Abandoned(was, c);
        Leak(c.mem.value);
        return S.INTERRUPTED;
      }
      Completed(was, c);
      CountUp(c, was, c.mem.value);
      Finish(c, was, c.mem.value);
      ret := S.OK;
    }

    ghost method Leak(r: nat)
      requires Valid()
      modifies `st
      ensures Valid() && st == old(st).(leaked := old(st).leaked + {r})
    {
      hide T.OwnerTables.Valid, DevicesFit;
      ghost var after := st.(leaked := st.leaked + {r});
      StillFit(devices, devs, owner, sems, st, after);
      st := after;
    }

    method AddOwner(c: S.Call) returns (ret: int)
      requires Valid() && !g_listlock.taken && c.op.Add? && S.Allowed(st, c)
      modifies this, tables, tables.space, tables.space.nodes, devs, sems, g_listlock
      ensures Valid() && !g_listlock.taken && (st, S.Code(ret)) == S.Step(old(st), c)
    {
      hide Valid, S.Step, S.Linked, S.Allowed, S.Linkable;
      Refused(st, c);
      var d := c.op.dev;
      var ok := AaldevValid(d, c.lostValid);
      if !ok {
        return S.NOT_OWNER;
      }
      var failed := Lock(d, c.lostSem);
      if failed {
        return S.INTERRUPTED;
      }
      LetGo(old(st), d);
      var num, max := Numbers(d);
      if num != S.UNLIMITED && num >= max {
        Unlock(d);
        return S.MAX_OWNERS;
      }
      var dup := FindPidOwner(c);
      if dup != null {
        Unlock(d);
        return S.DUP_OWNER;
      }
      if c.mem.None? {
        Unlock(d);
        return S.SYS_ERR;
      }
      ret := AddNew(c, old(st));
    }

    method IsOwner(c: S.Call) returns (ret: int)
      requires Valid() && c.op.IsOwner? && S.Allowed(st, c)
      modifies `st, sems
      ensures Valid() && g_listlock.taken == old(g_listlock.taken) && (st, S.Code(ret)) == S.Step(old(st), c)
    {
      hide Valid, S.Step, S.Allowed;
      Refused(st, c);
      var d := c.op.dev;
      var ok := AaldevValid(d, c.lostValid);
      if !ok {
        return S.INVALID_DEVICE;
      }
      var failed := Lock(d, c.lostSem);
      if failed {
        return S.INTERRUPTED;
      }
      LetGo(old(st), d);
      var pown := FindPidOwner(c);
      ret := if pown == null then S.NOT_OWNER else S.OK;
      Unlock(d);
    }

    method ListOld(pown: T.OwnerRecord, c: S.Call, ghost was: S.State) returns (failed: bool)
      requires Valid() && !g_listlock.taken && (c.op.Remove? || c.op.Update?) && S.Allowed(was, c) && S.Enters(was, c)
      requires S.Verdict(was, c) == S.Link(pown.m_ownerlist.obj) && st == Holding(was, c.op.dev) && tables.Knows(pown)
      modifies `st, tables, tables.space, tables.space.nodes, tables.owned, g_listlock
      ensures Valid() && !g_listlock.taken && failed == c.lostList
      ensures failed ==> st == old(st)
      ensures !failed ==> S.Linkable(was.t, c.op, pown.m_ownerlist.obj)
      ensures !failed ==> st == Listed(was, c.op, pown.m_ownerlist.obj)
    {
      hide Valid, S.Step, S.Linked, S.Allowed, S.Linkable;
      failed := LockList(c.lostList);
      if failed {
        return;
      }
      Completed(was, c);
      if c.op.Remove? {
        UnlinkOld(pown, c);
      } else {
        RelinkOld(pown, c);
      }
      UnlockList();
    }

    method RemoveOld(pown: T.OwnerRecord, c: S.Call, ghost was: S.State) returns (ret: int)
      requires Valid() && !g_listlock.taken && c.op.Remove? && S.Allowed(was, c) && S.Enters(was, c)
      requires S.Verdict(was, c) == S.Link(pown.m_ownerlist.obj) && st == Holding(was, c.op.dev) && tables.Knows(pown)
      requires c.op.dev in devices
      modifies this, tables, tables.space, tables.space.nodes, tables.owned, devs, sems, g_listlock
      ensures Valid() && !g_listlock.taken && (st, S.Code(ret)) == S.Step(was, c)
    {
      hide Valid, S.Step, S.Linked, S.Allowed, S.Linkable, Counted, Worked, Listed;
      var failed := ListOld(pown, c, was);
      if failed {
        Abandoned(was, c);
        return S.INTERRUPTED;
      }
      Completed(was, c);
      CountDown(c, was, pown.m_ownerlist.obj);
      Finish(c, was, pown.m_ownerlist.obj);
      ret := 1;
    }

    method RemoveOwner(c: S.Call) returns (ret: int)
      requires Valid() && !g_listlock.taken && c.op.Remove? && S.Allowed(st, c)
      modifies this, tables, tables.space, tables.space.nodes, tables.owned, devs, sems, g_listlock
      ensures Valid() && !g_listlock.taken && (st, S.Code(ret)) == S.Step(old(st), c)
    {
      hide Valid, S.Step, S.Linked, S.Allowed, S.Linkable;
      Refused(st, c);
      var d := c.op.dev;
      var ok := AaldevValid(d, c.lostValid);
      if !ok {
        return S.INVALID_DEVICE;
      }
      var failed := Lock(d, c.lostSem);
      if failed {
        return S.INTERRUPTED;
      }
      LetGo(old(st), d);
      var pown := FindPidOwner(c);
      if pown == null {
        Unlock(d);
        return S.NOT_OWNER;
      }
      ret := RemoveOld(pown, c, old(st));
    }

    method UpdateOld(pown: T.OwnerRecord, c: S.Call, ghost was: S.State) returns (ret: int)
      requires Valid() && !g_listlock.taken && c.op.Update? && S.Allowed(was, c) && S.Enters(was, c)
      requires S.Verdict(was, c) == S.Link(pown.m_ownerlist.obj) && st == Holding(was, c.op.dev) && tables.Knows(pown)
      requires c.op.dev in devices
      modifies this, tables, tables.space, tables.space.nodes, tables.owned, devs, sems, g_listlock
      ensures Valid() && !g_listlock.taken && (st, S.Code(ret)) == S.Step(was, c)
    {
      hide Valid, S.Step, S.Linked, S.Allowed, S.Linkable, Counted, Worked, Listed;
      var failed := ListOld(pown, c, was);
      if failed {
        Abandoned(was, c);
        return S.INTERRUPTED;
      }
      Completed(was, c);
      Uncounted(was, c.op, pown.m_ownerlist.obj);
      Finish(c, was, pown.m_ownerlist.obj);
      ret := S.OK;
    }

    method UpdateOwner(c: S.Call) returns (ret: int)
      requires Valid() && !g_listlock.taken && c.op.Update? && S.Allowed(st, c)
      modifies this, tables, tables.space, tables.space.nodes, tables.owned, devs, sems, g_listlock
      ensures Valid() && !g_listlock.taken && (st, S.Code(ret)) == S.Step(old(st), c)
    {
      hide Valid, S.Step, S.Linked, S.Allowed, S.Linkable;
      Refused(st, c);
      var d := c.op.dev;
      var ok := AaldevValid(d, c.lostValid);
      if !ok {
        return S.INVALID_DEVICE;
      }
      var failed := Lock(d, c.lostSem);
      if failed {
        return S.INTERRUPTED;
      }
      LetGo(old(st), d);
      var pown := FindPidOwner(c);
      if pown == null {
        Unlock(d);
        return S.NOT_OWNER;
      }
      ret := UpdateOld(pown, c, old(st));
    }

    method SessionHere(c: S.Call) returns (ret: T.OwnerSession?, ghost at: Option<S.SessionRef>)
      requires Valid() && c.op.GetSession? && c.op.dev in valid && S.IsDevice(st, c.op.dev)
      ensures S.Verdict(st, c) == S.Done(S.Pointer(at))
      ensures ret == null <==> at.None?
      ensures at.Some? ==> at.value in tables.sess && ret == tables.sess[at.value]
    {
      hide Valid, S.Verdict, S.Find;
      SessionAsked(st, c);
      var pown := FindPidOwner(c);
      if pown == null {
        return null, None;
      }
      SessionOf(pown);
      return pown.m_sess, Some(S.Embedded(pown.m_ownerlist.obj));
    }

    method GetOwnerSession(c: S.Call) returns (ret: T.OwnerSession?, ghost at: Option<S.SessionRef>)
      requires Valid() && c.op.GetSession? && S.Allowed(st, c)
      modifies `st, sems
      ensures Valid() && g_listlock.taken == old(g_listlock.taken) && (st, S.Pointer(at)) == S.Step(old(st), c)
      ensures ret == null <==> at.None?
      ensures at.Some? ==> at.value in tables.sess && ret == tables.sess[at.value]
    {
      hide Valid, S.Step, S.Allowed, S.Decide, S.Find;
      Refused(st, c);
      var d := c.op.dev;
      ret, at := null, None;
      var ok := AaldevValid(d, c.lostValid);
      if !ok {
        return;
      }
      var failed := Lock(d, c.lostSem);
      if failed {
        return;
      }
      LetGo(old(st), d);
      ret, at := SessionHere(c);
      Unlock(d);
    }

    lemma SessionOf(pown: T.OwnerRecord)
      requires Valid() && tables.Knows(pown)
      ensures S.Embedded(pown.m_ownerlist.obj) in tables.sess && tables.sess[S.Embedded(pown.m_ownerlist.obj)] == pown.m_sess
    {
    }

    // aaldev_remove
    method Remove(c: S.Call) returns (ret: int)
      requires Valid() && c.op.RemoveDevice? && S.Allowed(st, c)
      modifies `st, `log, sems
      ensures Valid() && g_listlock.taken == old(g_listlock.taken) && (st, S.Code(ret)) == S.Step(old(st), c)
    {
      hide Valid, S.Allowed;
      Refused(st, c);
      var d := c.op.dev;
      var ok := AaldevValid(d, c.lostValid);
      if !ok {
        return 0;
      }
      var failed := Lock(d, c.lostSem);
      if failed {
        return 0;
      }
      LetGo(old(st), d);
      var num, max := Numbers(d);
      if num != 0 {
        Unlock(d);
        return 0;
      }
      SendConfigUpdateEvent(d, c.op);
      Unlock(d);
      LetGo(S.Step(old(st), c).0, d);
      ret := 1;
    }
  }
}
