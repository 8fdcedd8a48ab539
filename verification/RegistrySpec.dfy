// The allocation list of the bus on plain values: which device handles
// aalbus_validate_device accepts after any run of its operations.
module RegistrySpec {
  import opened Sequences

  // AAL_DEVICE_VERSION
  const VERSION := 0x0001_0000_0000_0200
  // The answers of a destroy that was interrupted and of a refused one. An
  // interrupted wait gives -EINTR cast to an unsigned char.
  const INTERRUPTED := 252
  const EINVAL := -22

  // kosal_virt_to_phys; the identity stands for the fixed map of addresses.
  function VirtToPhys(p: nat): nat {
    p
  }

  // struct aal_device, as far as its registration goes.
  datatype Dev = Dev(version: nat, validator: nat, registered: bool)

  // live are the device structures in memory, listed the allocation list from
  // its head, busTaken says that aalBus.m_sem was left taken.
  datatype Registry = Registry(live: map<nat, Dev>, listed: seq<nat>, busTaken: bool)

  const EMPTY := Registry(map[], [], false)

  // The operations, with the fate of their waits and of the calls they make:
  // mem is what kmalloc returns, fails that device_register fails, released
  // that device_unregister drops the last reference.
  datatype Op =
    | Create(mem: nat)
    | CreateDevice(mem: nat, lostAlloc: bool)
    | Register(p: nat, lostBus: bool, lostAlloc: bool, fails: bool)
    | Destroy(p: nat, lostValid: bool, lostAlloc: bool)
    | Unregister(p: nat, released: bool, lostValid: bool, lostAlloc: bool)

  predicate Accepts(r: Registry, p: nat) {
    p in r.listed && p in r.live && r.live[p].validator == VirtToPhys(p) && r.live[p].version == VERSION
  }

  // kmalloc gives out no address in use, the bus semaphore comes free, and the
  // structures there are calls on are in memory.
  predicate Possible(r: Registry, op: Op) {
    match op
    case Create(mem) => mem != 0 && mem !in r.live
    case CreateDevice(mem, _) => mem != 0 && mem !in r.live
    case Register(p, lostBus, _, _) => p in r.live && (!r.live[p].registered && !lostBus ==> !r.busTaken)
    case Destroy(_, _, _) => true
    case Unregister(p, _, _, _) => p in r.live
  }

  // The registration gets as far as linking the device.
  predicate Reaches(live: map<nat, Dev>, op: Op) {
    op.Register? && op.p in live && !live[op.p].registered && !op.lostBus && !op.lostAlloc
  }

  // A device that is on the allocation list is not linked once more; what
  // happens otherwise is in RegistryLinks.
  predicate Allowed(r: Registry, op: Op) {
    Possible(r, op) && !(Reaches(r.live, op) && op.p in r.listed)
  }

  function Created(r: Registry, mem: nat): Registry {
    r.(live := r.live[mem := Dev(VERSION, VirtToPhys(mem), false)])
  }

  // aaldev_create_device puts the device on the allocation list, too; when that
  // wait is interrupted its memory is given back.
  function CreatedListed(r: Registry, mem: nat, lostAlloc: bool): Registry {
    if lostAlloc then r else Created(r, mem).(listed := [mem] + r.listed)
  }

  // Interrupted in the second wait, the bus semaphore stays taken. A device
  // that the driver core refuses stays on the allocation list.
  function Registered(r: Registry, p: nat, lostBus: bool, lostAlloc: bool, fails: bool): (Registry, int)
    requires p in r.live
  {
    if r.live[p].registered || lostBus then (r, -1)
    else if lostAlloc then (r.(busTaken := true), -1)
    else
      var listed := r.(listed := [p] + r.listed, busTaken := false);
      if fails then (listed, -1) else (listed.(live := r.live[p := r.live[p].(registered := true)]), 0)
  }

  function Destroyed(r: Registry, p: nat, lostValid: bool, lostAlloc: bool): (Registry, int) {
    if lostValid || !Accepts(r, p) then (r, EINVAL)
    else if lostAlloc then (r, INTERRUPTED)
    else (r.(live := r.live - {p}, listed := Without(r.listed, p)), 1)
  }

  // A refusal of the remove method is ignored; what that does to the owners is
  // in DeviceLife. The driver core calls destroy when the last reference goes.
  function Unregistered(r: Registry, p: nat, released: bool, lostValid: bool, lostAlloc: bool): Registry
    requires p in r.live
  {
    if !r.live[p].registered then r
    else
      var after := if released then Destroyed(r, p, lostValid, lostAlloc).0 else r;
      if p in after.live then after.(live := after.live[p := after.live[p].(registered := false)]) else after
  }

  function Effect(r: Registry, op: Op): Registry
    requires Allowed(r, op)
  {
    match op
    case Create(mem) => Created(r, mem)
    case CreateDevice(mem, lostAlloc) => CreatedListed(r, mem, lostAlloc)
    case Register(p, lostBus, lostAlloc, fails) => Registered(r, p, lostBus, lostAlloc, fails).0
    case Destroy(p, lostValid, lostAlloc) => Destroyed(r, p, lostValid, lostAlloc).0
    case Unregister(p, released, lostValid, lostAlloc) => Unregistered(r, p, released, lostValid, lostAlloc)
  }

  // ----- what every operation keeps

  // The list has each device at most once and only devices in memory, whose
  // version and validator are as created; all registered ones are on it.
  ghost predicate Sound(r: Registry) {
    && Distinct(r.listed) && 0 !in r.live
    && (forall p :: p in r.listed ==> p in r.live)
    && (forall p :: p in r.live ==>
      r.live[p].version == VERSION && r.live[p].validator == VirtToPhys(p) && (r.live[p].registered ==> p in r.listed))
  }

  lemma EffectSound(r: Registry, op: Op)
    requires Sound(r) && Allowed(r, op)
    ensures Sound(Effect(r, op))
  {
    hide Without, Distinct;
    if op.Register? {
      FrontDistinct(op.p, r.listed);
    }
    if op.CreateDevice? {
      FrontDistinct(op.mem, r.listed);
    }
    if op.Destroy? || op.Unregister? {
      WithoutDistinct(r.listed, op.p);
      WithoutWithin(r.listed, op.p);
    }
  }

  lemma FrontDistinct(p: nat, s: seq<nat>)
    requires Distinct(s)
    ensures p !in s ==> Distinct([p] + s)
  {
  }

  // ----- runs

  predicate RunAllowed(r: Registry, ops: seq<Op>)
    decreases |ops|
  {
    ops == [] || (Allowed(r, ops[0]) && RunAllowed(Effect(r, ops[0]), ops[1..]))
  }

  function Final(r: Registry, ops: seq<Op>): Registry
    requires RunAllowed(r, ops)
    decreases |ops|
  {
    if ops == [] then r else Final(Effect(r, ops[0]), ops[1..])
  }

  // What one device goes through, told from the operations on it alone.
  datatype Standing = Standing(listed: bool, registered: bool)

  function Stands(at: Standing, op: Op, p: nat): Standing {
    match op
    case Create(mem) => if mem == p then Standing(false, false) else at
    case CreateDevice(mem, lostAlloc) => if mem == p && !lostAlloc then Standing(true, false) else at
    case Register(q, lostBus, lostAlloc, fails) =>
      if q != p || at.registered || lostBus || lostAlloc then at else Standing(true, !fails)
    case Destroy(q, lostValid, lostAlloc) =>
      if q == p && at.listed && !lostValid && !lostAlloc then Standing(false, false) else at
    case Unregister(q, released, lostValid, lostAlloc) =>
      if q != p || !at.registered then at
      else if released && !lostValid && !lostAlloc then Standing(false, false)
      else Standing(true, false)
  }

  function StandsAfter(at: Standing, ops: seq<Op>, p: nat): Standing
    decreases |ops|
  {
    if ops == [] then at else StandsAfter(Stands(at, ops[0], p), ops[1..], p)
  }

  function StandingOf(r: Registry, p: nat): Standing {
    Standing(p in r.listed, p in r.live && r.live[p].registered)
  }

  lemma StandingKept(r: Registry, op: Op, p: nat)
    requires Sound(r) && Allowed(r, op)
    ensures StandingOf(Effect(r, op), p) == Stands(StandingOf(r, p), op, p)
  {
    hide Without, Distinct;
    if op.Destroy? || op.Unregister? {
      WithoutDistinct(r.listed, op.p);
      WithoutWithin(r.listed, op.p);
    }
  }

  // After any run a handle is accepted exactly when the operations on it, and
  // no others, have left it on the allocation list.
  lemma {:induction false} RunAccepts(r: Registry, ops: seq<Op>, p: nat)
    requires Sound(r) && RunAllowed(r, ops)
    ensures Sound(Final(r, ops))
    ensures Accepts(Final(r, ops), p) <==> StandsAfter(StandingOf(r, p), ops, p).listed
    decreases |ops|
  {
    if ops != [] {
      EffectSound(r, ops[0]);
      StandingKept(r, ops[0], p);
      RunAccepts(Effect(r, ops[0]), ops[1..], p);
    }
  }

  // The operation puts p on the list, if it gets that far.
  predicate PutsOn(op: Op, p: nat) {
    (op.Register? && op.p == p) || (op.CreateDevice? && op.mem == p)
  }

  // Not on the list, a device stays off it until it is put there.
  lemma {:induction false} OffUntilRegistered(at: Standing, ops: seq<Op>, p: nat)
    requires !at.listed && !at.registered && forall op :: op in ops ==> !PutsOn(op, p)
    ensures !StandsAfter(at, ops, p).listed
    decreases |ops|
  {
    if ops != [] {
      assert ops[0] in ops && forall op :: op in ops[1..] ==> op in ops;
      OffUntilRegistered(Stands(at, ops[0], p), ops[1..], p);
    }
  }

  // A destroyed device is never accepted again until it is registered or its
  // memory is given to a device that is created on the list.
  lemma DestroyedStaysOut(r: Registry, p: nat, lostValid: bool, lostAlloc: bool, ops: seq<Op>)
    requires Sound(r) && Destroyed(r, p, lostValid, lostAlloc).1 == 1
    requires RunAllowed(Destroyed(r, p, lostValid, lostAlloc).0, ops)
    requires forall op :: op in ops ==> !PutsOn(op, p)
    ensures !Accepts(Final(Destroyed(r, p, lostValid, lostAlloc).0, ops), p)
  {
    var after := Destroyed(r, p, lostValid, lostAlloc).0;
    EffectSound(r, Destroy(p, lostValid, lostAlloc));
    StandingKept(r, Destroy(p, lostValid, lostAlloc), p);
    RunAccepts(after, ops, p);
    OffUntilRegistered(StandingOf(after, p), ops, p);
  }

  // ----- what the answers tell

  // A registration answers 0 exactly when it makes a device registered that was
  // not, and -1 otherwise.
  lemma RegisteredTells(r: Registry, p: nat, lostBus: bool, lostAlloc: bool, fails: bool)
    requires p in r.live
    ensures var (after, answer) := Registered(r, p, lostBus, lostAlloc, fails);
      && (answer == 0 <==> !StandingOf(r, p).registered && StandingOf(after, p).registered)
      && (answer != 0 ==> answer == -1)
  {
  }

  // A destroy answers 1 exactly when the device leaves memory. Otherwise
  // nothing happens, and it answers 252 when the device was accepted, -22 when not.
  lemma DestroyedTells(r: Registry, p: nat, lostValid: bool, lostAlloc: bool)
    requires Sound(r)
    ensures var (after, answer) := Destroyed(r, p, lostValid, lostAlloc);
      && (answer == 1 <==> p in r.live && p !in after.live)
      && (answer == 1 ==> p !in after.listed)
      && (answer != 1 ==> after == r && answer == if p in r.listed && !lostValid then 252 else -22)
  {
    WithoutDistinct(r.listed, p);
  }

  // What every device in memory is made as.
  lemma MadeAs(r: Registry, mem: nat, lostAlloc: bool)
    requires Allowed(r, Create(mem))
    ensures Created(r, mem).live[mem] == Dev(0x1000000000200, mem, false) && Created(r, mem).listed == r.listed
    ensures mem in CreatedListed(r, mem, lostAlloc).live <==> !lostAlloc
    ensures !lostAlloc ==> CreatedListed(r, mem, lostAlloc).live[mem] == Dev(0x1000000000200, mem, false)
  {
  }

  // ----- the bus semaphore

  // A registration interrupted in its second wait: it has the bus semaphore by
  // then, and returns with it.
  predicate KeepsBus(r: Registry, op: Op) {
    op.Register? && op.p in r.live && !r.live[op.p].registered && !op.lostBus && op.lostAlloc
  }

  predicate SomeKeepsBus(r: Registry, ops: seq<Op>)
    requires RunAllowed(r, ops)
    decreases |ops|
  {
    ops != [] && (KeepsBus(r, ops[0]) || SomeKeepsBus(Effect(r, ops[0]), ops[1..]))
  }

  // After any run the bus semaphore is taken exactly when it was or some
  // registration was interrupted like that.
  lemma {:induction false} RunTakesBus(r: Registry, ops: seq<Op>)
    requires RunAllowed(r, ops)
    ensures Final(r, ops).busTaken <==> r.busTaken || SomeKeepsBus(r, ops)
    decreases |ops|
  {
    hide Without, Accepts;
    if ops != [] {
      RunTakesBus(Effect(r, ops[0]), ops[1..]);
    }
  }

  // From then on no registration gets anywhere: over any run each one made
  // answers -1 and changes nothing.
  lemma {:induction false} TakenForGood(r: Registry, ops: seq<Op>, k: nat)
    requires r.busTaken && RunAllowed(r, ops) && k < |ops| && ops[k].Register?
    ensures RunAllowed(r, ops[..k]) && Final(r, ops[..k]).busTaken && Allowed(Final(r, ops[..k]), ops[k])
    ensures var at, op := Final(r, ops[..k]), ops[k];
      Registered(at, op.p, op.lostBus, op.lostAlloc, op.fails) == (at, -1)
    decreases k
  {
    hide Without, Accepts;
    if k > 0 {
      assert ops[..k][0] == ops[0] && ops[..k][1..] == ops[1..][..k - 1];
      TakenForGood(Effect(r, ops[0]), ops[1..], k - 1);
    }
  }

  // The least of it: a device just created whose registration is interrupted.
  lemma InterruptedRegisterKeepsBus()
    ensures var ops := [Create(8), Register(8, false, true, false)];
      && RunAllowed(EMPTY, ops) && SomeKeepsBus(EMPTY, ops)
      && Final(EMPTY, ops).busTaken && Final(EMPTY, ops).listed == []
  {
    var ops, mid := [Create(8), Register(8, false, true, false)], Created(EMPTY, 8);
    assert ops[1..][0] == ops[1] && ops[1..][1..] == [];
    assert RunAllowed(Effect(mid, ops[1]), []);
    assert RunAllowed(mid, ops[1..]);
  }
}
