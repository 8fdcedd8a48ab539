// Bringing a driver up and down, on values: the four resources it may come to
// hold, what a failure rolls back, and what a release gives back.
module DriverSpec {
  import opened Options

  const EINVAL := -22

  // What the kernel has registered, by address; regions by major number.
  datatype Kernel = Kernel(regions: set<nat>, drivers: set<nat>, cdevs: set<nat>, classdevs: set<nat>)

  // struct aal_driver with its three flags, and struct aal_classdevice.
  datatype Driver = Driver(id: nat, name: Option<nat>, m_major: nat, region: bool, registered: bool, chrdev: bool)
  datatype ClassDevice = ClassDevice(id: nat, name: Option<nat>, devtype: nat, registered: bool)

  datatype World = World(k: Kernel, d: Driver, c: Option<ClassDevice>)

  // The arguments, and what the driver core answers to each registration; dyn
  // is the major number it allocates when none is asked for.
  datatype Args = Args(owner: bool, devname: Option<nat>, devmajor: nat,
                       dyn: nat, onRegion: int, onDriver: int, onChrdev: int, onClass: int)

  // The number of the device node, 0 for none.
  function DevType(a: Args): nat {
    if a.devname.None? then 0 else if a.devmajor != 0 then a.devmajor else a.dyn
  }

  // The kernel gives out no major number twice.
  predicate Allowed(w: World, a: Args) {
    a.devname.Some? && a.onRegion >= 0 ==> DevType(a) != 0 && DevType(a) !in w.k.regions
  }

  // Before anything is registered: the checks of the arguments. The name is
  // set even when a later check fails.
  function Named(w: World, a: Args): World {
    if w.d.name.None? && a.owner then w.(d := w.d.(name := a.devname)) else w
  }

  predicate Refused(w: World, a: Args) {
    !a.owner || (a.devname.None? && (w.d.name.None? || w.c.Some?))
  }

  // A static major number is not remembered in m_major.
  function ObtainRegion(w: World, a: Args): (World, int) {
    if a.devname.None? then (w, 0)
    else if a.onRegion < 0 then (w, a.onRegion)
    else
      var k := w.k.(regions := w.k.regions + {DevType(a)});
      (World(k, w.d.(region := true, m_major := if a.devmajor != 0 then w.d.m_major else a.dyn), w.c), 0)
  }

  function RegisterDriver(w: World, a: Args): (World, int) {
    if w.d.registered then (w, EINVAL)
    else if a.onDriver < 0 then (w, a.onDriver)
    else (World(w.k.(drivers := w.k.drivers + {w.d.id}), w.d.(registered := true), w.c), 0)
  }

  function AddChrdev(w: World, a: Args): (World, int) {
    if a.devname.None? then (w, 0)
    else if a.onChrdev != 0 then (w, a.onChrdev)
    else (World(w.k.(cdevs := w.k.cdevs + {w.d.id}), w.d.(chrdev := true), w.c), 0)
  }

  function RegisterClass(w: World, a: Args): (World, int) {
    if w.c.None? then (w, 0)
    else
      var c := w.c.value.(name := a.devname, devtype := DevType(a));
      if c.registered then (w.(c := Some(c)), EINVAL)
      else if a.onClass < 0 then (w.(c := Some(c)), a.onClass)
      else (World(w.k.(classdevs := w.k.classdevs + {c.id}), w.d, Some(c.(registered := true))), 0)
  }

  // Everything the flags say is held is given back; the region by its number.
  function GiveBack(w: World, devtype: nat): World {
    World(Kernel(if w.d.region then w.k.regions - {devtype} else w.k.regions,
                 if w.d.registered then w.k.drivers - {w.d.id} else w.k.drivers,
                 if w.d.chrdev then w.k.cdevs - {w.d.id} else w.k.cdevs,
                 if w.c.Some? && w.c.value.registered then w.k.classdevs - {w.c.value.id} else w.k.classdevs),
          w.d.(region := false, registered := false, chrdev := false),
          if w.c.Some? then Some(w.c.value.(registered := false)) else None)
  }

  // aalbus_init_driver
  function Init(w: World, a: Args): (World, int) {
    var named := Named(w, a);
    if Refused(w, a) then (named, EINVAL)
    else
      var (w1, r1) := ObtainRegion(named, a);
      if r1 < 0 then (w1, r1)
      else
        var (w2, r2) := RegisterDriver(w1, a);
        if r2 < 0 then (GiveBack(w2, DevType(a)), r2)
        else
          var (w3, r3) := AddChrdev(w2, a);
          if r3 != 0 then (GiveBack(w3, DevType(a)), r3)
          else
            var (w4, r4) := RegisterClass(w3, a);
            if r4 < 0 then (GiveBack(w4, DevType(a)), r4) else (w4, r4)
  }

  // aalbus_release_driver gives the region of m_major back.
  function Release(w: World): World {
    GiveBack(w, w.d.m_major)
  }

  // ----- what a failed and a released bring-up leave

  // Nothing of this driver or class device is registered yet.
  predicate Clean(w: World) {
    && !w.d.region && !w.d.registered && !w.d.chrdev
    && w.d.id !in w.k.drivers && w.d.id !in w.k.cdevs
    && (w.c.Some? ==> !w.c.value.registered && w.c.value.id !in w.k.classdevs)
  }

  // Whichever step fails, a failed bring-up leaves the kernel as it was, and
  // the driver and class device as clean as they were.
  lemma FailedInitRestores(w: World, a: Args)
    requires Allowed(w, a) && Clean(w) && Init(w, a).1 != 0
    ensures var after := Init(w, a).0;
      && after.k == w.k && Clean(after)
      && after.d.id == w.d.id && (after.c.Some? <==> w.c.Some?) && (w.c.Some? ==> after.c.value.id == w.c.value.id)
  {
  }

  // A successful one holds exactly what was asked for.
  lemma InitHolds(w: World, a: Args)
    requires Allowed(w, a) && Clean(w) && Init(w, a).1 == 0
    ensures var after := Init(w, a).0;
      && after.k == Kernel(w.k.regions + (if a.devname.Some? then {DevType(a)} else {}),
                           w.k.drivers + {w.d.id},
                           w.k.cdevs + (if a.devname.Some? then {w.d.id} else {}),
                           w.k.classdevs + (if w.c.Some? then {w.c.value.id} else {}))
      && after.d.registered && (after.d.region <==> a.devname.Some?) && (after.d.chrdev <==> a.devname.Some?)
      && (after.c.Some? <==> w.c.Some?) && (w.c.Some? ==> after.c.value.registered && after.c.value.id == w.c.value.id)
  {
  }

  // A release after a successful bring-up restores the kernel exactly when no
  // number was asked for, or it was dynamic, or m_major happens to be the one
  // that was asked for: the number of a static region is not kept.
  lemma ReleaseRestores(w: World, a: Args)
    requires Allowed(w, a) && Clean(w) && Init(w, a).1 == 0
    ensures Clean(Release(Init(w, a).0))
    ensures Release(Init(w, a).0).k == w.k <==> a.devname.None? || a.devmajor == 0 || w.d.m_major == a.devmajor
  {
  }

  // What is left behind otherwise: the static region stays taken, and the
  // region whose number m_major has, whoever's it is, is given back.
  lemma ReleaseOfStatic(w: World, a: Args)
    requires Allowed(w, a) && Clean(w) && Init(w, a).1 == 0
    requires a.devname.Some? && a.devmajor != 0 && w.d.m_major != a.devmajor
    ensures Release(Init(w, a).0).k == w.k.(regions := w.k.regions - {w.d.m_major} + {a.devmajor})
  {
  }

  // ----- answers and names

  // The answer is that of the first thing that goes wrong, in this order: the
  // arguments (-22), the region, a driver registered already (-22) or refused, the
  // char device, a class device registered already (-22) or refused; 0 when
  // nothing does.
  lemma FirstFailureAnswers(w: World, a: Args)
    ensures var node, cls := a.devname.Some?, w.c.Some?;
      Init(w, a).1 ==
        if !a.owner || (w.d.name.None? && !node) || (cls && !node) then -22
        else if node && a.onRegion < 0 then a.onRegion
        else if w.d.registered then -22
        else if a.onDriver < 0 then a.onDriver
        else if node && a.onChrdev != 0 then a.onChrdev
        else if cls && w.c.value.registered then -22
        else if cls && a.onClass < 0 then a.onClass
        else 0
  {
  }

  // A stage answers 0 exactly when its flag is set afterwards that was not, or
  // nothing was asked of it; a driver or class device registered already gets -22.
  lemma StageAnswers(w: World, a: Args)
    ensures var (after, answer) := ObtainRegion(w, a);
      (answer == 0 <==> a.devname.None? || a.onRegion >= 0) && (answer != 0 ==> after == w && answer == a.onRegion)
    ensures var (after, answer) := RegisterDriver(w, a);
      && (answer == 0 <==> !w.d.registered && after.d.registered)
      && (answer != 0 ==> after == w && answer == if w.d.registered then -22 else a.onDriver)
    ensures var (after, answer) := AddChrdev(w, a);
      (answer == 0 <==> a.devname.None? || a.onChrdev == 0) && (answer != 0 ==> after == w && answer == a.onChrdev)
    ensures w.c.Some? ==> var (after, answer) := RegisterClass(w, a);
      && after.c.Some? && (answer == 0 <==> !w.c.value.registered && after.c.value.registered)
      && (answer != 0 ==> after.k == w.k && answer == if w.c.value.registered then -22 else a.onClass)
  {
  }

  // The driver keeps its name, or gets that of the call when it has none and
  // the call comes from a module.
  lemma InitNames(w: World, a: Args)
    ensures var after := Init(w, a).0;
      && after.d.name == (if w.d.name.None? && a.owner then a.devname else w.d.name)
      && after.d.id == w.d.id && (after.c.Some? <==> w.c.Some?)
  {
    hide ObtainRegion, RegisterDriver, AddChrdev, RegisterClass, GiveBack;
    var w0 := Named(w, a);
    StagesKeepNames(w0, a);
    var w1 := ObtainRegion(w0, a).0;
    StagesKeepNames(w1, a);
    var w2 := RegisterDriver(w1, a).0;
    StagesKeepNames(w2, a);
    var w3 := AddChrdev(w2, a).0;
    StagesKeepNames(w3, a);
    StagesKeepNames(RegisterClass(w3, a).0, a);
  }

  predicate SameNames(w: World, after: World) {
    after.d.name == w.d.name && after.d.id == w.d.id && (after.c.Some? <==> w.c.Some?)
  }

  lemma StagesKeepNames(w: World, a: Args)
    ensures SameNames(w, ObtainRegion(w, a).0) && SameNames(w, RegisterDriver(w, a).0)
    ensures SameNames(w, AddChrdev(w, a).0) && SameNames(w, RegisterClass(w, a).0)
    ensures SameNames(w, GiveBack(w, DevType(a)))
  {
  }

  // m_major changes only to a number given out dynamically.
  lemma InitMajor(w: World, a: Args)
    ensures var after := Init(w, a).0;
      && (a.devmajor != 0 || a.devname.None? ==> after.d.m_major == w.d.m_major)
      && (Init(w, a).1 == 0 && a.devname.Some? && a.devmajor == 0 ==> after.d.m_major == a.dyn)
  {
  }

  // A class device brought up has the name of the call and the number of its node.
  lemma ClassDeviceIs(w: World, a: Args)
    requires Init(w, a).1 == 0 && w.c.Some?
    ensures var after := Init(w, a).0;
      && after.c.Some? && after.c.value.name == a.devname && a.devname.Some?
      && after.c.value.devtype == (if a.devmajor != 0 then a.devmajor else a.dyn)
      && after.c.value.devtype in after.k.regions && after.c.value.id == w.c.value.id && after.c.value.id in after.k.classdevs
  {
  }

  // ----- many drivers

  datatype System = System(k: Kernel, drivers: map<nat, Driver>, classes: map<nat, ClassDevice>)

  datatype Op =
    | Up(id: nat, cls: Option<nat>, a: Args)
    | Down(id: nat, cls: Option<nat>)

  predicate Known(s: System, op: Op) {
    op.id in s.drivers && (op.cls.Some? ==> op.cls.value in s.classes)
  }

  function WorldOf(s: System, op: Op): World
    requires Known(s, op)
  {
    World(s.k, s.drivers[op.id], if op.cls.Some? then Some(s.classes[op.cls.value]) else None)
  }

  predicate StepAllowed(s: System, op: Op) {
    Known(s, op) && (op.Up? ==> Allowed(WorldOf(s, op), op.a))
  }

  function Step(s: System, op: Op): System
    requires StepAllowed(s, op)
  {
    var w := if op.Up? then Init(WorldOf(s, op), op.a).0 else Release(WorldOf(s, op));
    System(w.k, s.drivers[op.id := w.d],
           if op.cls.Some? && w.c.Some? then s.classes[op.cls.value := w.c.value] else s.classes)
  }

  predicate RunAllowed(s: System, ops: seq<Op>)
    decreases |ops|
  {
    ops == [] || (StepAllowed(s, ops[0]) && RunAllowed(Step(s, ops[0]), ops[1..]))
  }

  function Final(s: System, ops: seq<Op>): System
    requires RunAllowed(s, ops)
    decreases |ops|
  {
    if ops == [] then s else Final(Step(s, ops[0]), ops[1..])
  }

  // The kernel has exactly the drivers, char devices and class devices that
  // the flags of the drivers and class devices say.
  ghost predicate FlagsTrue(s: System) {
    && (forall i {:trigger s.drivers[i]} :: i in s.drivers ==>
      s.drivers[i].id == i && (i in s.k.drivers <==> s.drivers[i].registered) && (i in s.k.cdevs <==> s.drivers[i].chrdev))
    && (forall i {:trigger s.classes[i]} :: i in s.classes ==>
      s.classes[i].id == i && (i in s.k.classdevs <==> s.classes[i].registered))
    && s.k.drivers <= s.drivers.Keys && s.k.cdevs <= s.drivers.Keys && s.k.classdevs <= s.classes.Keys
  }

  // One driver's bring-up or release, clean or not, touches no other driver's
  // registrations and keeps its own flags true.
  predicate OnlyOwn(k: Kernel, after: Kernel, d: Driver, now: Driver) {
    && now.id == d.id
    && after.drivers - {d.id} == k.drivers - {d.id} && after.cdevs - {d.id} == k.cdevs - {d.id}
    && ((d.id in k.drivers <==> d.registered) ==> (d.id in after.drivers <==> now.registered))
    && ((d.id in k.cdevs <==> d.chrdev) ==> (d.id in after.cdevs <==> now.chrdev))
  }

  predicate OnlyOwnClass(k: Kernel, after: Kernel, c: Option<ClassDevice>, now: Option<ClassDevice>) {
    && (c.Some? <==> now.Some?)
    && (c.None? ==> after.classdevs == k.classdevs)
    && (c.Some? ==>
      && now.value.id == c.value.id && after.classdevs - {c.value.id} == k.classdevs - {c.value.id}
      && ((c.value.id in k.classdevs <==> c.value.registered) ==> (c.value.id in after.classdevs <==> now.value.registered)))
  }

  lemma GiveBackOwn(w: World, devtype: nat)
    ensures OnlyOwn(w.k, GiveBack(w, devtype).k, w.d, GiveBack(w, devtype).d)
    ensures OnlyOwnClass(w.k, GiveBack(w, devtype).k, w.c, GiveBack(w, devtype).c)
  {
  }

  lemma StagesOwn(w: World, a: Args)
    ensures OnlyOwn(w.k, ObtainRegion(w, a).0.k, w.d, ObtainRegion(w, a).0.d)
    ensures OnlyOwnClass(w.k, ObtainRegion(w, a).0.k, w.c, ObtainRegion(w, a).0.c)
    ensures OnlyOwn(w.k, RegisterDriver(w, a).0.k, w.d, RegisterDriver(w, a).0.d)
    ensures OnlyOwnClass(w.k, RegisterDriver(w, a).0.k, w.c, RegisterDriver(w, a).0.c)
    ensures OnlyOwn(w.k, AddChrdev(w, a).0.k, w.d, AddChrdev(w, a).0.d)
    ensures OnlyOwnClass(w.k, AddChrdev(w, a).0.k, w.c, AddChrdev(w, a).0.c)
    ensures OnlyOwn(w.k, RegisterClass(w, a).0.k, w.d, RegisterClass(w, a).0.d)
    ensures OnlyOwnClass(w.k, RegisterClass(w, a).0.k, w.c, RegisterClass(w, a).0.c)
  {
  }

  lemma OwnThenOwn(a: World, b: World, c: World)
    requires OnlyOwn(a.k, b.k, a.d, b.d) && OnlyOwnClass(a.k, b.k, a.c, b.c)
    requires OnlyOwn(b.k, c.k, b.d, c.d) && OnlyOwnClass(b.k, c.k, b.c, c.c)
    ensures OnlyOwn(a.k, c.k, a.d, c.d) && OnlyOwnClass(a.k, c.k, a.c, c.c)
  {
  }

  lemma InitOwn(w: World, a: Args)
    ensures OnlyOwn(w.k, Init(w, a).0.k, w.d, Init(w, a).0.d)
    ensures OnlyOwnClass(w.k, Init(w, a).0.k, w.c, Init(w, a).0.c)
  {
    hide ObtainRegion, RegisterDriver, AddChrdev, RegisterClass, GiveBack, OnlyOwn, OnlyOwnClass;
    var w0 := Named(w, a);
    NamedOwn(w, a);
    if !Refused(w, a) {
      var w1 := ObtainRegion(w0, a).0;
      var w2 := RegisterDriver(w1, a).0;
      var w3 := AddChrdev(w2, a).0;
      var w4 := RegisterClass(w3, a).0;
      StagesOwn(w0, a);
      StagesOwn(w1, a);
      StagesOwn(w2, a);
      StagesOwn(w3, a);
      OwnThenOwn(w, w0, w1);
      OwnThenOwn(w, w1, w2);
      OwnThenOwn(w, w2, w3);
      OwnThenOwn(w, w3, w4);
      GiveBackOwn(w2, DevType(a));
      GiveBackOwn(w3, DevType(a));
      GiveBackOwn(w4, DevType(a));
      OwnThenOwn(w, w2, GiveBack(w2, DevType(a)));
      OwnThenOwn(w, w3, GiveBack(w3, DevType(a)));
      OwnThenOwn(w, w4, GiveBack(w4, DevType(a)));
    }
  }

  lemma NamedOwn(w: World, a: Args)
    ensures OnlyOwn(w.k, Named(w, a).k, w.d, Named(w, a).d) && OnlyOwnClass(w.k, Named(w, a).k, w.c, Named(w, a).c)
  {
  }

  lemma StepKeepsFlags(s: System, op: Op)
    requires FlagsTrue(s) && StepAllowed(s, op)
    ensures FlagsTrue(Step(s, op))
  {
    hide Init, GiveBack;
    var w := WorldOf(s, op);
    if op.Up? {
      InitOwn(w, op.a);
    } else {
      GiveBackOwn(w, w.d.m_major);
    }
    var now := if op.Up? then Init(w, op.a).0 else Release(w);
    assert forall i :: i != op.id ==> (i in now.k.drivers <==> i in now.k.drivers - {op.id});
    assert forall i :: i != op.id ==> (i in s.k.drivers <==> i in s.k.drivers - {op.id});
    assert forall i :: i != op.id ==> (i in now.k.cdevs <==> i in now.k.cdevs - {op.id});
    assert forall i :: i != op.id ==> (i in s.k.cdevs <==> i in s.k.cdevs - {op.id});
    if op.cls.Some? {
      var c := op.cls.value;
      assert forall i :: i != c ==> (i in now.k.classdevs <==> i in now.k.classdevs - {c});
      assert forall i :: i != c ==> (i in s.k.classdevs <==> i in s.k.classdevs - {c});
    }
  }

  // For any number of drivers and any pattern of failing steps these flags are
  // true to the kernel. The number regions are another matter.
  lemma {:induction false} RunKeepsFlags(s: System, ops: seq<Op>)
    requires FlagsTrue(s) && RunAllowed(s, ops)
    ensures FlagsTrue(Final(s, ops))
    decreases |ops|
  {
    if ops != [] {
      StepKeepsFlags(s, ops[0]);
      RunKeepsFlags(Step(s, ops[0]), ops[1..]);
    }
  }

  // ----- the number regions

  // The region a driver has obtained and not given back, by what its calls
  // were asked for and answered.
  function Obtained(s: System, held: map<nat, nat>, op: Op): map<nat, nat>
    requires StepAllowed(s, op)
  {
    if op.Down? then held - {op.id}
    else if op.a.devname.Some? && Init(WorldOf(s, op), op.a).1 == 0 then held[op.id := DevType(op.a)]
    else held
  }

  // Each driver whose flag says so holds one region, the one its m_major names,
  // no two the same, and the kernel has these besides base and no others.
  ghost predicate RegionsTrue(s: System, base: set<nat>, held: map<nat, nat>) {
    && held.Keys <= s.drivers.Keys
    && (forall i {:trigger s.drivers[i]} :: i in s.drivers ==>
      (s.drivers[i].region <==> i in held) && (i in held ==> s.drivers[i].m_major == held[i] && held[i] !in base))
    && (forall i, j :: i in held && j in held && i != j ==> held[i] != held[j])
    && s.k.regions == base + held.Values
  }

  // The stages after the region: the driver, the char device and the class
  // device are not registered yet, and the kernel takes them.
  predicate StagesPass(w: World, a: Args) {
    && !w.d.registered && a.onDriver >= 0
    && (a.devname.Some? ==> a.onChrdev == 0)
    && (w.c.Some? ==> !w.c.value.registered && a.onClass >= 0)
  }

  // A bring-up succeeds exactly when its arguments are in order and every stage passes.
  lemma InitSucceeds(w: World, a: Args)
    ensures Init(w, a).1 == 0 <==> !Refused(w, a) && (a.devname.Some? ==> a.onRegion >= 0) && StagesPass(w, a)
  {
  }

  // What a bring-up and the answers it gets may be without upsetting the
  // regions: a driver without one obtains one whose number m_major has
  // afterwards, or none; one that has a region stops before it obtains
  // another, and before anything is rolled back.
  predicate KeepsRegions(w: World, a: Args) {
    if w.d.region then
      Refused(w, a) || (if a.devname.Some? then a.onRegion < 0 else StagesPass(w, a))
    else
      || a.devname.None? || a.devmajor == 0 || w.d.m_major == a.devmajor
      || Refused(w, a) || a.onRegion < 0 || !StagesPass(w, a)
  }

  // What a caller can see before the call. The request is refused, or fails for
  // the number it asks for; or else the driver has no region, and asks for no
  // number, a dynamic one or the one in m_major, or has something registered
  // that makes a later stage fail.
  predicate Safe(w: World, a: Args) {
    || Refused(w, a)
    || (a.devname.Some? && a.devmajor != 0 && a.devmajor in w.k.regions)
    || (!w.d.region &&
      (a.devname.None? || a.devmajor == 0 || w.d.m_major == a.devmajor || w.d.registered
      || (w.c.Some? && w.c.value.registered)))
  }

  // Two bring-ups that differ in the answers of the kernel only.
  predicate SameAsked(a: Args, b: Args) {
    a.owner == b.owner && a.devname == b.devname && a.devmajor == b.devmajor
  }

  // A major number the kernel has not given out.
  lemma FreeMajor(taken: set<nat>) returns (n: nat)
    ensures n != 0 && n !in taken
  {
    n := 1;
    var below := {};
    while n in taken
      invariant n != 0 && below <= taken && |below| == n - 1 && forall i :: i in below ==> 0 < i < n
      decreases |taken| - |below|
    {
      assert below + {n} <= taken;
      CardinalOfSubset(below + {n}, taken);
      below, n := below + {n}, n + 1;
    }
  }

  lemma {:induction false} CardinalOfSubset(a: set<nat>, b: set<nat>)
    requires a <= b
    ensures |a| <= |b|
  {
    if a != {} {
      var x :| x in a;
      CardinalOfSubset(a - {x}, b - {x});
    }
  }

  // Whatever the kernel answers a safe request, the regions stay true; any
  // other request can get answers that upset them.
  lemma SafeWhateverAnswered(w: World, a: Args)
    ensures Safe(w, a) <==> forall b :: SameAsked(a, b) && Allowed(w, b) ==> KeepsRegions(w, b)
  {
    if !Safe(w, a) {
      var dyn := FreeMajor(w.k.regions);
      var b := Args(a.owner, a.devname, a.devmajor, dyn, 0, if a.devname.None? then -1 else 0, 0, 0);
      assert SameAsked(a, b) && Allowed(w, b) && !KeepsRegions(w, b);
    }
  }

  // What a bring-up of a driver without a region does to the regions.
  lemma InitObtains(w: World, a: Args)
    requires Allowed(w, a) && !w.d.region
    ensures var after, up := Init(w, a).0, a.devname.Some? && Init(w, a).1 == 0;
      && (after.d.region <==> up)
      && (up ==> DevType(a) !in w.k.regions && after.k.regions == w.k.regions + {DevType(a)})
      && (up ==> after.d.m_major == if a.devmajor != 0 then w.d.m_major else DevType(a))
      && (!up ==> after.k.regions == w.k.regions)
  {
  }

  // And of one that has a region: it stops early, succeeds without a name, or
  // loses track of a region.
  lemma InitObtainsAgain(w: World, a: Args)
    requires Allowed(w, a) && w.d.region
    ensures var after := Init(w, a).0;
      && (KeepsRegions(w, a) ==> after.d.region && after.d.m_major == w.d.m_major && after.k.regions == w.k.regions)
      && (KeepsRegions(w, a) ==> a.devname.None? || Init(w, a).1 != 0)
      && (!KeepsRegions(w, a) && Init(w, a).1 == 0 ==> a.devname.Some? && DevType(a) !in w.k.regions)
      && (!KeepsRegions(w, a) && Init(w, a).1 == 0 ==> after.k.regions == w.k.regions + {DevType(a)})
      && (!KeepsRegions(w, a) && Init(w, a).1 != 0 ==> !after.d.region)
  {
  }

  lemma ValuesAdded(m: map<nat, nat>, k: nat, v: nat)
    requires k !in m
    ensures m[k := v].Values == m.Values + {v}
  {
    assert m[k := v][k] == v;
    forall x | x in m.Values
      ensures x in m[k := v].Values
    {
      var j :| j in m && m[j] == x;
      assert m[k := v][j] == x;
    }
  }

  lemma ValuesDropped(m: map<nat, nat>, k: nat)
    requires k in m && forall i, j :: i in m && j in m && i != j ==> m[i] != m[j]
    ensures (m - {k}).Values == m.Values - {m[k]}
  {
    forall x | x in m.Values - {m[k]}
      ensures x in (m - {k}).Values
    {
      var j :| j in m && m[j] == x;
      assert (m - {k})[j] == x;
    }
  }

  lemma RegionIsHeld(s: System, base: set<nat>, held: map<nat, nat>, i: nat)
    requires RegionsTrue(s, base, held) && i in held
    ensures i in s.drivers && s.drivers[i].region && s.drivers[i].m_major == held[i] && held[i] in s.k.regions
  {
    assert held[i] in held.Values;
  }

  lemma FirstRegionKept(s: System, op: Op, base: set<nat>, held: map<nat, nat>)
    requires RegionsTrue(s, base, held) && StepAllowed(s, op) && op.Up? && !WorldOf(s, op).d.region
    ensures RegionsTrue(Step(s, op), base, Obtained(s, held, op)) <==> KeepsRegions(WorldOf(s, op), op.a)
  {
    hide Init, Allowed, StagesPass;
    InitObtains(WorldOf(s, op), op.a);
    InitSucceeds(WorldOf(s, op), op.a);
    ValuesAdded(held, op.id, DevType(op.a));
    forall i | i in held
      ensures held[i] in s.k.regions
    {
      RegionIsHeld(s, base, held, i);
    }
  }

  lemma SecondRegionLost(s: System, op: Op, base: set<nat>, held: map<nat, nat>)
    requires RegionsTrue(s, base, held) && StepAllowed(s, op) && op.Up? && WorldOf(s, op).d.region
    ensures RegionsTrue(Step(s, op), base, Obtained(s, held, op)) <==> KeepsRegions(WorldOf(s, op), op.a)
  {
    hide Init, Allowed, KeepsRegions;
    var w, after := WorldOf(s, op), Obtained(s, held, op);
    InitObtainsAgain(w, op.a);
    RegionIsHeld(s, base, held, op.id);
    if !KeepsRegions(w, op.a) && Init(w, op.a).1 == 0 {
      assert held[op.id] in Step(s, op).k.regions && held[op.id] !in base;
      assert held[op.id] !in after.Values;
    }
  }

  // A bring-up keeps the regions true exactly when it is of that kind.
  lemma UpKeepsRegions(s: System, op: Op, base: set<nat>, held: map<nat, nat>)
    requires RegionsTrue(s, base, held) && StepAllowed(s, op) && op.Up?
    ensures RegionsTrue(Step(s, op), base, Obtained(s, held, op)) <==> KeepsRegions(WorldOf(s, op), op.a)
  {
    hide RegionsTrue, KeepsRegions, Init, Obtained;
    if WorldOf(s, op).d.region {
      SecondRegionLost(s, op, base, held);
    } else {
      FirstRegionKept(s, op, base, held);
    }
  }

  // A release always does, and gives back exactly the region of its driver.
  lemma DownKeepsRegions(s: System, op: Op, base: set<nat>, held: map<nat, nat>)
    requires RegionsTrue(s, base, held) && StepAllowed(s, op) && op.Down?
    ensures RegionsTrue(Step(s, op), base, Obtained(s, held, op))
    ensures Step(s, op).k.regions == s.k.regions - if op.id in held then {held[op.id]} else {}
  {
    if op.id in held {
      ValuesDropped(held, op.id);
      assert base + held.Values - {held[op.id]} == base + (held.Values - {held[op.id]});
    } else {
      assert held - {op.id} == held;
    }
  }

  // Every bring-up of the run is of that kind when it comes.
  predicate AllKeepRegions(s: System, ops: seq<Op>)
    requires RunAllowed(s, ops)
    decreases |ops|
  {
    ops == [] ||
    ((ops[0].Up? ==> KeepsRegions(WorldOf(s, ops[0]), ops[0].a)) && AllKeepRegions(Step(s, ops[0]), ops[1..]))
  }

  function ObtainedAfter(s: System, held: map<nat, nat>, ops: seq<Op>): map<nat, nat>
    requires RunAllowed(s, ops)
    decreases |ops|
  {
    if ops == [] then held else ObtainedAfter(Step(s, ops[0]), Obtained(s, held, ops[0]), ops[1..])
  }

  // For any number of drivers, any order and any failing steps: when every
  // bring-up is of that kind, the kernel has besides the regions at the start
  // exactly those obtained and not given back, each with its own driver.
  lemma {:induction false} RunKeepsRegions(s: System, ops: seq<Op>, base: set<nat>, held: map<nat, nat>)
    requires RegionsTrue(s, base, held) && RunAllowed(s, ops) && AllKeepRegions(s, ops)
    ensures RegionsTrue(Final(s, ops), base, ObtainedAfter(s, held, ops))
    decreases |ops|
  {
    hide RegionsTrue, StepAllowed, Step, KeepsRegions, Obtained;
    if ops != [] {
      if ops[0].Up? {
        UpKeepsRegions(s, ops[0], base, held);
      } else {
        DownKeepsRegions(s, ops[0], base, held);
      }
      RunKeepsRegions(Step(s, ops[0]), ops[1..], base, Obtained(s, held, ops[0]));
    }
  }

  // ----- what a caller can promise

  // With answers b of the kernel, the bring-up op keeps the regions true.
  ghost predicate KeepsWith(s: System, op: Op, b: Args, base: set<nat>, held: map<nat, nat>)
    requires Known(s, op) && op.Up? && Allowed(WorldOf(s, op), b)
  {
    RegionsTrue(Step(s, op.(a := b)), base, Obtained(s, held, op.(a := b)))
  }

  // A bring-up keeps the regions true whatever the kernel answers exactly when
  // it is safe, which its caller can see.
  lemma SafeKeepsRegions(s: System, op: Op, base: set<nat>, held: map<nat, nat>)
    requires RegionsTrue(s, base, held) && Known(s, op) && op.Up?
    ensures Safe(WorldOf(s, op), op.a) <==>
      forall b :: SameAsked(op.a, b) && Allowed(WorldOf(s, op), b) ==> KeepsWith(s, op, b, base, held)
  {
    hide RegionsTrue, Allowed, KeepsRegions, SameAsked, Safe, Step, Obtained;
    SafeWhateverAnswered(WorldOf(s, op), op.a);
    forall b | SameAsked(op.a, b) && Allowed(WorldOf(s, op), b)
      ensures KeepsWith(s, op, b, base, held) <==> KeepsRegions(WorldOf(s, op), b)
    {
      UpKeepsRegions(s, op.(a := b), base, held);
    }
  }

  // Every bring-up of the run is safe when it comes.
  predicate AllSafe(s: System, ops: seq<Op>)
    requires RunAllowed(s, ops)
    decreases |ops|
  {
    ops == [] ||
    ((ops[0].Up? ==> Safe(WorldOf(s, ops[0]), ops[0].a)) && AllSafe(Step(s, ops[0]), ops[1..]))
  }

  lemma {:induction false} SafeRunKeepsRegions(s: System, ops: seq<Op>)
    requires RunAllowed(s, ops) && AllSafe(s, ops)
    ensures AllKeepRegions(s, ops)
    decreases |ops|
  {
    hide Step, Safe, KeepsRegions;
    if ops != [] {
      if ops[0].Up? {
        SafeWhateverAnswered(WorldOf(s, ops[0]), ops[0].a);
      }
      SafeRunKeepsRegions(Step(s, ops[0]), ops[1..]);
    }
  }

  predicate SameRequest(op: Op, q: Op) {
    if op.Up? && q.Up? then op.id == q.id && op.cls == q.cls && SameAsked(q.a, op.a) else op == q
  }

  // The run makes the first of the requests, with any answers of the kernel.
  ghost predicate Answers(run: seq<Op>, requests: seq<Op>) {
    |run| <= |requests| && forall i :: 0 <= i < |run| ==> SameRequest(run[i], requests[i])
  }

  ghost predicate StaysTrue(s: System, run: seq<Op>, base: set<nat>, held: map<nat, nat>)
    requires RunAllowed(s, run)
  {
    RegionsTrue(Final(s, run), base, ObtainedAfter(s, held, run))
  }

  lemma StaysOn(s: System, op: Op, rest: seq<Op>, base: set<nat>, held: map<nat, nat>)
    requires StepAllowed(s, op) && RunAllowed(Step(s, op), rest)
    ensures RunAllowed(s, [op] + rest)
    ensures StaysTrue(s, [op] + rest, base, held) == StaysTrue(Step(s, op), rest, base, Obtained(s, held, op))
  {
    hide RegionsTrue, StepAllowed, Step, Obtained;
    assert ([op] + rest)[0] == op && ([op] + rest)[1..] == rest;
  }

  // A run that is not safe all along has a beginning after which other answers upset the regions.
  lemma {:induction false} UnsafeRunFails(s: System, run: seq<Op>, base: set<nat>, held: map<nat, nat>) returns (bad: seq<Op>)
    requires RegionsTrue(s, base, held) && RunAllowed(s, run) && !AllSafe(s, run)
    ensures RunAllowed(s, bad) && Answers(bad, run) && !StaysTrue(s, bad, base, held)
    decreases |run|
  {
    hide RegionsTrue, Safe, Step, Obtained, Init;
    var op, rest := run[0], run[1..];
    if op.Up? && !Safe(WorldOf(s, op), op.a) {
      SafeKeepsRegions(s, op, base, held);
      var b :| SameAsked(op.a, b) && Allowed(WorldOf(s, op), b) && !KeepsWith(s, op, b, base, held);
      bad := [op.(a := b)];
      StaysOn(s, bad[0], [], base, held);
      assert bad == [bad[0]] + [];
      assert SameRequest(bad[0], op);
    } else {
      if op.Up? {
        SafeKeepsRegions(s, op, base, held);
        assert KeepsWith(s, op, op.a, base, held) && op.(a := op.a) == op;
      } else {
        DownKeepsRegions(s, op, base, held);
      }
      var more := UnsafeRunFails(Step(s, op), rest, base, Obtained(s, held, op));
      bad := [op] + more;
      StaysOn(s, op, more, base, held);
      forall i | 0 < i < |bad|
        ensures SameRequest(bad[i], run[i])
      {
        assert SameRequest(more[i - 1], rest[i - 1]);
      }
      assert SameRequest(op, op);
    }
  }

  // For any sequence of requests: the regions are true at every moment of every
  // run of them, whatever the kernel answers, exactly when in every such run
  // each bring-up is safe when it comes.
  lemma RequestsKeepRegions(s: System, requests: seq<Op>, base: set<nat>, held: map<nat, nat>)
    requires RegionsTrue(s, base, held)
    ensures (forall run :: Answers(run, requests) && RunAllowed(s, run) ==> StaysTrue(s, run, base, held)) <==>
      (forall run :: Answers(run, requests) && RunAllowed(s, run) ==> AllSafe(s, run))
  {
    hide RegionsTrue, RunAllowed, AllSafe;
    if run :| Answers(run, requests) && RunAllowed(s, run) && !AllSafe(s, run) {
      var bad := UnsafeRunFails(s, run, base, held);
      forall i | 0 <= i < |bad|
        ensures SameRequest(bad[i], requests[i])
      {
        assert SameRequest(bad[i], run[i]) && SameRequest(run[i], requests[i]);
      }
      assert Answers(bad, requests);
    } else {
      forall run | Answers(run, requests) && RunAllowed(s, run)
        ensures AllSafe(s, run) && StaysTrue(s, run, base, held)
      {
        SafeRunKeepsRegions(s, run);
        RunKeepsRegions(s, run, base, held);
      }
    }
  }

  // ----- a driver and its own region

  lemma {:induction false} OthersLeaveHeld(s: System, held: map<nat, nat>, ops: seq<Op>, i: nat)
    requires RunAllowed(s, ops) && i in held && forall op :: op in ops ==> op.id != i
    ensures i in ObtainedAfter(s, held, ops) && ObtainedAfter(s, held, ops)[i] == held[i]
    decreases |ops|
  {
    hide Init, StepAllowed, Step;
    if ops != [] {
      assert ops[0] in ops && forall op :: op in ops[1..] ==> op in ops;
      OthersLeaveHeld(Step(s, ops[0]), Obtained(s, held, ops[0]), ops[1..], i);
    }
  }

  // So a driver that has obtained a region gives that one back, and no other,
  // whatever other drivers have done in between.
  lemma ReleaseGivesBackOwn(s: System, up: Op, ops: seq<Op>, down: Op, base: set<nat>, held: map<nat, nat>)
    requires RegionsTrue(s, base, held) && RunAllowed(s, [up]) && AllKeepRegions(s, [up])
    requires up.Up? && up.a.devname.Some? && Init(WorldOf(s, up), up.a).1 == 0
    requires RunAllowed(Step(s, up), ops) && AllKeepRegions(Step(s, up), ops)
    requires (forall op :: op in ops ==> op.id != up.id) && down.Down? && down.id == up.id
    requires Known(Final(Step(s, up), ops), down)
    ensures var mid := Final(Step(s, up), ops);
      DevType(up.a) in mid.k.regions && Step(mid, down).k.regions == mid.k.regions - {DevType(up.a)}
  {
    hide RegionsTrue, Init, KeepsRegions, Step;
    var now, mid := Obtained(s, held, up), Final(Step(s, up), ops);
    assert up == [up][0];
    UpKeepsRegions(s, up, base, held);
    RunKeepsRegions(Step(s, up), ops, base, now);
    OthersLeaveHeld(Step(s, up), now, ops, up.id);
    RegionIsHeld(mid, base, ObtainedAfter(Step(s, up), now, ops), up.id);
    DownKeepsRegions(mid, down, base, ObtainedAfter(Step(s, up), now, ops));
  }

  // ----- two ways to go wrong

  function NewDriver(id: nat, m_major: nat): Driver {
    Driver(id, Some(id), m_major, false, false, false)
  }

  // A driver that is brought up twice keeps no flag and no number, and the
  // kernel keeps its first region.
  lemma SecondBringUpLeaks()
    ensures var s := System(Kernel({}, {}, {}, {}), map[1 := NewDriver(1, 0)], map[]);
      var ops := [Up(1, None, Args(true, Some(1), 0, 5, 0, 0, 0, 0)), Up(1, None, Args(true, Some(1), 0, 6, 0, 0, 0, 0))];
      && FlagsTrue(s) && RunAllowed(s, ops)
      && Final(s, ops).k.regions == {5} && !Final(s, ops).drivers[1].region && FlagsTrue(Final(s, ops))
  {
    var s := System(Kernel({}, {}, {}, {}), map[1 := NewDriver(1, 0)], map[]);
    var first, second := Args(true, Some(1), 0, 5, 0, 0, 0, 0), Args(true, Some(1), 0, 6, 0, 0, 0, 0);
    var mid := Step(s, Up(1, None, first));
    assert mid == System(Kernel({5}, {1}, {1}, {}), map[1 := Driver(1, Some(1), 5, true, true, true)], map[]);
    var end := Step(mid, Up(1, None, second));
    assert end == System(Kernel({5}, {}, {}, {}), map[1 := Driver(1, Some(1), 6, false, false, false)], map[]);
    var ops := [Up(1, None, first), Up(1, None, second)];
    assert ops[1..] == [Up(1, None, second)] && ops[1..][1..] == [];
  }

  // A driver whose m_major is the number of another one's region, and that
  // asks for a static number of its own, gives back the other's region.
  lemma StaticReleaseTakesAnothers()
    ensures var s := System(Kernel({}, {}, {}, {}), map[1 := NewDriver(1, 0), 2 := NewDriver(2, 5)], map[]);
      var ops := [Up(1, None, Args(true, Some(1), 0, 5, 0, 0, 0, 0)), Up(2, None, Args(true, Some(2), 9, 0, 0, 0, 0, 0)), Down(2, None)];
      && RunAllowed(s, ops) && Final(s, ops).drivers[1].region && Final(s, ops).drivers[1].m_major == 5
      && Final(s, ops).k.regions == {9}
  {
    var s := System(Kernel({}, {}, {}, {}), map[1 := NewDriver(1, 0), 2 := NewDriver(2, 5)], map[]);
    var first, second := Args(true, Some(1), 0, 5, 0, 0, 0, 0), Args(true, Some(2), 9, 0, 0, 0, 0, 0);
    var up1 := Driver(1, Some(1), 5, true, true, true);
    var mid := Step(s, Up(1, None, first));
    assert mid == System(Kernel({5}, {1}, {1}, {}), map[1 := up1, 2 := NewDriver(2, 5)], map[]);
    var both := Step(mid, Up(2, None, second));
    assert both == System(Kernel({5, 9}, {1, 2}, {1, 2}, {}), map[1 := up1, 2 := Driver(2, Some(2), 5, true, true, true)], map[]);
    var end := Step(both, Down(2, None));
    assert end == System(Kernel({9}, {1}, {1}, {}), map[1 := up1, 2 := NewDriver(2, 5)], map[]);
    var ops := [Up(1, None, first), Up(2, None, second), Down(2, None)];
    assert ops[1..] == [Up(2, None, second), Down(2, None)] && ops[1..][1..] == [Down(2, None)] && ops[1..][1..][1..] == [];
  }
}
