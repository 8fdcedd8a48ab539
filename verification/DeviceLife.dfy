// Devices over their whole life: created, registered, owned, unregistered and
// destroyed in any order, with the owner calls in between.
module DeviceLife {
  import opened Options
  import opened Sequences
  import opened OwnerSpec
  import opened OwnerProofs
  import opened OwnerRuns
  import R = RegistrySpec

  // What the bus core knows of owners and of devices.
  datatype Core = Core(o: State, r: R.Registry)

  const NOTHING := Core(EMPTY, R.EMPTY)

  // Everything that happens, with the fate of the waits in it; removal is the
  // call of the remove method that an unregistration makes first.
  datatype Act =
    | Create(mem: nat, max: Count)
    | CreateDevice(mem: nat, max: Count, lostAlloc: bool)
    | Register(p: nat, lostBus: bool, lostAlloc: bool, fails: bool)
    | Destroy(p: nat, lostValid: bool, lostAlloc: bool)
    | Unregister(p: nat, removal: Call, released: bool, lostValid: bool, lostAlloc: bool)
    | Owner(c: Call)
    | SessionList(id: nat)
    | Session(id: nat, context: nat)
    | Handler
  {
    predicate OnBus() {
      Create? || CreateDevice? || Register? || Destroy? || Unregister?
    }

    // What it is to the registry.
    function Op(): R.Op
      requires OnBus()
    {
      match this
      case Create(mem, _) => R.Create(mem)
      case CreateDevice(mem, _, lostAlloc) => R.CreateDevice(mem, lostAlloc)
      case Register(p, lostBus, lostAlloc, fails) => R.Register(p, lostBus, lostAlloc, fails)
      case Destroy(p, lostValid, lostAlloc) => R.Destroy(p, lostValid, lostAlloc)
      case Unregister(p, _, released, lostValid, lostAlloc) => R.Unregister(p, released, lostValid, lostAlloc)
    }
  }

  // A device as aaldev_create makes it: nobody owns it and its semaphore is free.
  function Fresh(o: State, d: nat, max: Count): State {
    WithDevice(o, d, max).(valid := o.valid, stuck := o.stuck - {d})
  }

  predicate Can(s: Core, a: Act) {
    match a
    case Owner(c) => Allowed(s.o, c)
    case SessionList(id) => id !in s.o.t.devlists
    case Session(id, _) => Elsewhere(id) !in s.o.t.sess
    case Handler => true
    case Register(p, _, _, _) => p in s.o.t.owners && R.Allowed(s.r, a.Op())
    case Unregister(p, removal, _, _, _) =>
      && R.Allowed(s.r, a.Op())
      && (s.r.live[p].registered ==> removal.op == RemoveDevice(p) && Allowed(s.o, removal))
    case _ => R.Allowed(s.r, a.Op())
  }

  // aalbus_register_device initialises the device before it looks whether it
  // is registered; aalbus_unregister_device goes on whatever the remove method
  // answers.
  function OwnersAfterAct(s: Core, a: Act): State
    requires Can(s, a)
  {
    match a
    case Create(mem, max) => Fresh(s.o, mem, max)
    case CreateDevice(mem, max, lostAlloc) =>
      if lostAlloc then s.o else Fresh(s.o, mem, max).(valid := s.o.valid + {mem})
    case Register(p, _, _, _) =>
      if R.Reaches(s.r.live, a.Op()) then Reinit(s.o, p).(valid := s.o.valid + {p}) else Reinit(s.o, p)
    case Destroy(p, _, _) => if Frees(s.r, a) then WithoutDevice(s.o, p) else s.o
    case Unregister(p, removal, _, _, _) =>
      if !s.r.live[p].registered then s.o
      else if Frees(s.r, a) then WithoutDevice(Step(s.o, removal).0, p)
      else Step(s.o, removal).0
    case Owner(c) => Step(s.o, c).0
    case SessionList(id) => WithSessionList(s.o, id)
    case Session(id, context) => WithSession(s.o, id, context)
    case Handler => s.o.(handler := true)
  }

  function After(s: Core, a: Act): Core
    requires Can(s, a)
  {
    Core(OwnersAfterAct(s, a), if a.OnBus() then R.Effect(s.r, a.Op()) else s.r)
  }

  // The act gives the memory of its device back.
  predicate Frees(r: R.Registry, a: Act) {
    || (a.Destroy? && R.Accepts(r, a.p) && !a.lostValid && !a.lostAlloc)
    || (a.Unregister? && a.p in r.live && r.live[a.p].registered && R.Accepts(r, a.p)
      && a.released && !a.lostValid && !a.lostAlloc)
  }

  // ----- the two halves fit

  // aaldev_valid accepts the devices on the allocation list, and the devices
  // that can have owners are those in memory.
  ghost predicate Joined(s: Core) {
    && R.Sound(s.r) && OwnersFit(s.o)
    && s.o.t.owners.Keys == s.r.live.Keys
    && forall p :: p in s.o.valid <==> R.Accepts(s.r, p)
  }

  ghost predicate OwnersFit(o: State) {
    Devices(o) && o.stuck <= o.t.owners.Keys
  }

  lemma NothingIsJoined()
    ensures Joined(NOTHING) && Good(NOTHING.o)
  {
  }

  lemma StepKeepsKeys(st: State, c: Call)
    requires Allowed(st, c) && OwnersFit(st)
    ensures var after := Step(st, c).0;
      OwnersFit(after) && after.t.owners.Keys == st.t.owners.Keys && after.valid == st.valid
  {
    hide Linked, Linkable, Decide, Bumped, Told;
    if Links(st, c) {
      LinkedKeys(st.t, c.op, Verdict(st, c).rec);
    }
    if Enters(st, c) && Verdict(st, c).Link? {
      VerdictIsNew(st, c);
    }
  }

  lemma FreshFits(o: State, d: nat, max: Count, valid: set<nat>)
    requires OwnersFit(o)
    ensures OwnersFit(Fresh(o, d, max).(valid := valid)) && Fresh(o, d, max).t.owners.Keys == o.t.owners.Keys + {d}
  {
  }

  lemma ReinitFits(o: State, d: nat, valid: set<nat>)
    requires OwnersFit(o) && d in o.t.owners
    ensures OwnersFit(Reinit(o, d).(valid := valid)) && Reinit(o, d).t.owners.Keys == o.t.owners.Keys
  {
  }

  lemma WithoutFits(o: State, d: nat)
    requires OwnersFit(o)
    ensures OwnersFit(WithoutDevice(o, d)) && WithoutDevice(o, d).t.owners.Keys == o.t.owners.Keys - {d}
  {
  }

  lemma SessionsFit(o: State, id: nat, context: nat)
    requires OwnersFit(o)
    ensures OwnersFit(WithSessionList(o, id)) && OwnersFit(WithSession(o, id, context)) && OwnersFit(o.(handler := true))
  {
  }

  // What an add is about to list is neither listed nor lost.
  lemma VerdictIsNew(st: State, c: Call)
    requires Allowed(st, c) && Devices(st) && Enters(st, c) && Verdict(st, c).Link?
    ensures c.op.Add? ==> Verdict(st, c).rec !in st.t.recs && Verdict(st, c).rec !in st.leaked
  {
  }

  // What a new device is to the registry.
  lemma MadeIsListed(s: Core, a: Act)
    requires R.Sound(s.r) && Can(s, a) && (a.Create? || a.CreateDevice?)
    ensures var lost, after := a.CreateDevice? && a.lostAlloc, After(s, a).r;
      && after.live.Keys == (if lost then s.r.live.Keys else s.r.live.Keys + {a.mem})
      && (forall q :: R.Accepts(after, q) <==> R.Accepts(s.r, q) || (q == a.mem && a.CreateDevice? && !lost))
  {
  }

  lemma RegisteredIsListed(s: Core, a: Act)
    requires R.Sound(s.r) && Can(s, a) && a.Register?
    ensures After(s, a).r.live.Keys == s.r.live.Keys
    ensures forall q :: R.Accepts(After(s, a).r, q) <==> R.Accepts(s.r, q) || (q == a.p && R.Reaches(s.r.live, a.Op()))
  {
  }

  // An act frees its device exactly when that leaves memory.
  lemma FreesIsFreed(s: Core, a: Act)
    requires R.Sound(s.r) && Can(s, a) && (a.Destroy? || a.Unregister?)
    ensures After(s, a).r.live.Keys == if Frees(s.r, a) then s.r.live.Keys - {a.p} else s.r.live.Keys
    ensures forall q :: R.Accepts(After(s, a).r, q) <==> R.Accepts(s.r, q) && !(Frees(s.r, a) && q == a.p)
  {
    hide Step, Allowed;
    WithoutDistinct(s.r.listed, a.p);
    WithoutWithin(s.r.listed, a.p);
  }

  // Over any run the owner calls see a device as valid exactly when it is on
  // the allocation list with the fields it was created with.
  lemma ActKeepsJoined(s: Core, a: Act)
    requires Joined(s) && Can(s, a)
    ensures Joined(After(s, a))
  {
    hide Step, Allowed, R.Effect, R.Accepts, R.Sound, OwnersFit;
    if a.OnBus() {
      R.EffectSound(s.r, a.Op());
    }
    match a
    case Create(mem, max) =>
      MadeIsListed(s, a);
      FreshFits(s.o, mem, max, s.o.valid);
    case CreateDevice(mem, max, _) =>
      MadeIsListed(s, a);
      FreshFits(s.o, mem, max, s.o.valid + {mem});
    case Register(p, _, _, _) =>
      RegisteredIsListed(s, a);
      ReinitFits(s.o, p, s.o.valid);
      ReinitFits(s.o, p, s.o.valid + {p});
    case Destroy(p, _, _) =>
      FreesIsFreed(s, a);
      WithoutFits(s.o, p);
    case Unregister(p, removal, _, _, _) =>
      FreesIsFreed(s, a);
      if s.r.live[p].registered {
        StepKeepsKeys(s.o, removal);
        WithoutFits(Step(s.o, removal).0, p);
      }
    case Owner(c) => StepKeepsKeys(s.o, c);
    case SessionList(id) => SessionsFit(s.o, id, 0);
    case Session(id, context) => SessionsFit(s.o, id, context);
    case Handler => SessionsFit(s.o, 0, 0);
  }

  // ----- sound lists

  // The act puts a device out of use, or makes it anew, that somebody owns.
  predicate Strips(s: Core, a: Act) {
    && (a.Register? || ((a.Destroy? || a.Unregister?) && Frees(s.r, a)))
    && a.p in s.o.t.owners && s.o.t.owners[a.p] != []
  }

  lemma GrownWf(t: Tables, id: nat, context: nat)
    requires Wf(t)
    ensures id !in t.owners ==> Wf(t.(owners := t.owners[id := []]))
    ensures id !in t.devlists ==> Wf(t.(devlists := t.devlists[id := []]))
    ensures Wf(t.(sess := t.sess[Elsewhere(id) := OwnerSpec.Session(0, 0, context, 0, [], 0)]))
  {
    hide Indexed;
    if id !in t.owners {
      IndexedGrown(t.owners, DeviceOf(t.recs), id);
    }
    if id !in t.devlists {
      IndexedGrown(t.devlists, SlistOf(t.recs), id);
    }
  }

  // The call of the remove method leaves all lists alone.
  lemma RemovalLeavesTables(o: State, removal: Call)
    requires Allowed(o, removal) && removal.op.RemoveDevice?
    ensures Step(o, removal).0.t == o.t
  {
  }

  lemma StepKeepsWf(o: State, c: Call)
    requires Allowed(o, c) && OwnersFit(o) && Wf(o.t)
    ensures Wf(Step(o, c).0.t)
  {
    hide Step, Allowed, Wf;
    StepKeepsSound(o, c);
  }

  // An act keeps the lists sound exactly when it does not do that.
  lemma ActKeepsWf(s: Core, a: Act)
    requires Joined(s) && Wf(s.o.t) && Can(s, a)
    ensures Wf(After(s, a).o.t) <==> !Strips(s, a)
  {
    hide Step, Allowed, R.Effect, R.Accepts, R.Sound, OwnersFit, Wf;
    match a
    case Create(mem, _) => GrownWf(s.o.t, mem, 0);
    case CreateDevice(mem, _, _) => GrownWf(s.o.t, mem, 0);
    case Register(p, _, _, _) => EmptiedWf(s.o.t, p);
    case Destroy(p, _, _) =>
      FreedIsDevice(s, a);
      if Frees(s.r, a) {
        ShrunkWf(s.o.t, p);
      }
    case Unregister(p, removal, _, _, _) =>
      FreedIsDevice(s, a);
      if s.r.live[p].registered {
        RemovalLeavesTables(s.o, removal);
        if Frees(s.r, a) {
          ShrunkWf(s.o.t, p);
        }
      }
    case Owner(c) => StepKeepsWf(s.o, c);
    case SessionList(id) => GrownWf(s.o.t, id, 0);
    case Session(id, context) => GrownWf(s.o.t, id, context);
    case Handler =>
  }

  lemma FreedIsDevice(s: Core, a: Act)
    requires Joined(s) && (a.Destroy? || a.Unregister?)
    ensures Frees(s.r, a) ==> a.p in s.o.t.owners
  {
  }

  // A record on no owner list stays so, and on its session's list.
  lemma ActKeepsStranded(s: Core, a: Act, r: nat, rec: Record)
    requires Stranded(s.o.t, r, rec) && Can(s, a)
    ensures Stranded(After(s, a).o.t, r, rec)
  {
    hide Step, Allowed, R.Effect, R.Accepts, Frees;
    match a
    case Unregister(p, removal, _, _, _) =>
      if s.r.live[p].registered {
        StepKeepsStranded(s.o, removal, r, rec);
      }
    case Owner(c) => StepKeepsStranded(s.o, c, r, rec);
    case _ =>
  }

  // And that is what becomes of every owner of a device put out of use.
  lemma StripsStrands(s: Core, a: Act, r: nat)
    requires Joined(s) && Wf(s.o.t) && Can(s, a) && Strips(s, a) && r in s.o.t.owners[a.p]
    ensures r in s.o.t.recs && Stranded(After(s, a).o.t, r, s.o.t.recs[r])
  {
    hide Step, Allowed, R.Effect, R.Accepts, R.Sound, OwnersFit, Wf, Stranded;
    if a.Unregister? {
      RemovalLeavesTables(s.o, a.removal);
    }
    OwnersStranded(s.o, a.p, r);
  }

  // ----- runs

  predicate RunCan(s: Core, acts: seq<Act>)
    decreases |acts|
  {
    acts == [] || (Can(s, acts[0]) && RunCan(After(s, acts[0]), acts[1..]))
  }

  function Final(s: Core, acts: seq<Act>): Core
    requires RunCan(s, acts)
    decreases |acts|
  {
    if acts == [] then s else Final(After(s, acts[0]), acts[1..])
  }

  predicate SomeStrips(s: Core, acts: seq<Act>)
    requires RunCan(s, acts)
    decreases |acts|
  {
    acts != [] && (Strips(s, acts[0]) || SomeStrips(After(s, acts[0]), acts[1..]))
  }

  lemma {:induction false} RunKeepsStranded(s: Core, acts: seq<Act>, r: nat, rec: Record)
    requires Stranded(s.o.t, r, rec) && RunCan(s, acts)
    ensures Stranded(Final(s, acts).o.t, r, rec)
    decreases |acts|
  {
    hide Stranded, Can, After;
    if acts != [] {
      ActKeepsStranded(s, acts[0], r, rec);
      RunKeepsStranded(After(s, acts[0]), acts[1..], r, rec);
    }
  }

  lemma {:induction false} RunKeepsJoined(s: Core, acts: seq<Act>)
    requires Joined(s) && RunCan(s, acts)
    ensures Joined(Final(s, acts))
    decreases |acts|
  {
    hide Joined, Can, After;
    if acts != [] {
      ActKeepsJoined(s, acts[0]);
      RunKeepsJoined(After(s, acts[0]), acts[1..]);
    }
  }

  // Over any run of all of this the lists are sound at the end exactly when no
  // device was unregistered to its last reference, destroyed or registered
  // while somebody owned it. Once that has happened they never are again.
  lemma {:induction false} RunSound(s: Core, acts: seq<Act>)
    requires Joined(s) && Wf(s.o.t) && RunCan(s, acts)
    ensures Wf(Final(s, acts).o.t) <==> !SomeStrips(s, acts)
    decreases |acts|
  {
    hide Joined, Can, After, Wf, Strips;
    if acts != [] {
      var next, rest := After(s, acts[0]), acts[1..];
      ActKeepsWf(s, acts[0]);
      ActKeepsJoined(s, acts[0]);
      if Strips(s, acts[0]) {
        var r := SomeOwner(s, acts[0]);
        StripsStrands(s, acts[0], r);
        RunKeepsStranded(next, rest, r, s.o.t.recs[r]);
        StrandedIsUnsound(Final(next, rest).o.t, r, s.o.t.recs[r]);
      } else {
        RunSound(next, rest);
      }
    }
  }

  lemma SomeOwner(s: Core, a: Act) returns (r: nat)
    requires Strips(s, a)
    ensures a.p in s.o.t.owners && r in s.o.t.owners[a.p]
  {
    r := s.o.t.owners[a.p][0];
  }

  // ----- exact counts, distinct pids

  lemma GoodApart(o: State, valid: set<nat>, stuck: set<nat>, handler: bool)
    requires Good(o)
    ensures Good(o.(valid := valid, stuck := stuck, handler := handler))
  {
    hide Wf, PidsDistinct;
  }

  lemma GoodIsWf(o: State)
    requires Good(o)
    ensures Wf(o.t)
  {
  }

  // The act adds a pid to a device twice.
  predicate Repeats(s: Core, a: Act) {
    a.Owner? && Doubles(s.o, a.c)
  }

  lemma RemovalKeepsGood(o: State, removal: Call)
    requires Good(o) && Allowed(o, removal) && removal.op.RemoveDevice?
    ensures Good(Step(o, removal).0)
  {
    hide Step, Allowed, Good;
    StepKeepsGood(o, removal);
  }

  lemma HarmlessKeepsGood(s: Core, a: Act)
    requires Joined(s) && Good(s.o) && Can(s, a) && !Strips(s, a) && !Repeats(s, a)
    ensures Good(After(s, a).o)
  {
    hide Step, Allowed, R.Effect, R.Accepts, R.Sound, OwnersFit, Wf, Good, Doubles;
    var o := s.o;
    match a
    case Create(mem, max) =>
      DeviceKeepsGood(o, mem, max);
      GoodApart(WithDevice(o, mem, max), o.valid, o.stuck - {mem}, o.handler);
    case CreateDevice(mem, max, _) =>
      DeviceKeepsGood(o, mem, max);
      GoodApart(WithDevice(o, mem, max), o.valid + {mem}, o.stuck - {mem}, o.handler);
    case Register(p, _, _, _) =>
      ReinitKeepsSound(o, p);
      GoodApart(Reinit(o, p), o.valid + {p}, o.stuck - {p}, o.handler);
    case Destroy(p, _, _) =>
      FreedIsDevice(s, a);
      if Frees(s.r, a) {
        DestroyKeepsSound(o, p);
      }
    case Unregister(p, removal, _, _, _) =>
      FreedIsDevice(s, a);
      if s.r.live[p].registered {
        RemovalLeavesTables(o, removal);
        RemovalKeepsGood(o, removal);
        if Frees(s.r, a) {
          DestroyKeepsSound(Step(o, removal).0, p);
        }
      }
    case Owner(c) => StepKeepsGood(o, c);
    case SessionList(id) => SessionsKeepGood(o, id, 0);
    case Session(id, context) => SessionsKeepGood(o, id, context);
    case Handler => GoodApart(o, o.valid, o.stuck, true);
  }

  // An act keeps counts, pids and lists good exactly when it does neither.
  lemma ActKeepsGood(s: Core, a: Act)
    requires Joined(s) && Good(s.o) && Can(s, a)
    ensures Good(After(s, a).o) <==> !Strips(s, a) && !Repeats(s, a)
  {
    hide Allowed, Good, Joined, Strips, Wf, Doubles, Step, R.Allowed;
    if Strips(s, a) {
      GoodIsWf(s.o);
      ActKeepsWf(s, a);
      if Good(After(s, a).o) {
        GoodIsWf(After(s, a).o);
      }
    } else if Repeats(s, a) {
      StepKeepsGood(s.o, a.c);
    } else {
      HarmlessKeepsGood(s, a);
    }
  }

  predicate SomeRepeats(s: Core, acts: seq<Act>)
    requires RunCan(s, acts)
    decreases |acts|
  {
    acts != [] && (Repeats(s, acts[0]) || SomeRepeats(After(s, acts[0]), acts[1..]))
  }

  // ----- the events over the life of the devices

  // With a handler, replaying what it was told of a device since that was made
  // gives its owners, and every event made sense when it was sent.
  ghost predicate LogTells(o: State) {
    && o.handler
    && forall d :: d in o.t.owners ==> d in o.log && DeviceTold(o, d)
  }

  ghost predicate DeviceTold(o: State, d: nat)
    requires d in o.t.owners && d in o.log
  {
    Pids(o.t, d) == Replay({}, o.log[d]) && Sensible({}, o.log[d])
  }

  lemma StepKeepsTold(o: State, c: Call)
    requires Good(o) && Allowed(o, c) && LogTells(o) && !Doubles(o, c)
    ensures LogTells(Step(o, c).0)
  {
    hide Good, Allowed, Step, Pids, Replay, Sensible, EventsOf;
    HandlerStays(o, c);
    forall d | d in o.t.owners
      ensures d in Step(o, c).0.log && DeviceTold(Step(o, c).0, d)
    {
      StepReplays(o, c, d, {}, o.log[d]);
      StepLogs(o, c, d);
    }
  }

  lemma RemovalDoublesNothing(o: State, removal: Call)
    requires removal.op.RemoveDevice?
    ensures !Doubles(o, removal)
  {
  }

  lemma HandlerStays(o: State, c: Call)
    requires Good(o) && Allowed(o, c)
    ensures Step(o, c).0.handler == o.handler && Step(o, c).0.t.owners.Keys == o.t.owners.Keys
  {
    hide Linked, Linkable, Decide, Bumped, Told;
    if Links(o, c) {
      LinkedKeys(o.t, c.op, Verdict(o, c).rec);
    }
  }

  // Devices that stay as they were, and devices just made.
  lemma OthersTold(o: State, after: State)
    requires LogTells(o) && after.handler && after.t.recs == o.t.recs
    requires forall d :: d in after.t.owners ==>
      d in after.log &&
      if d in o.t.owners && d in o.log && after.t.owners[d] == o.t.owners[d] then after.log[d] == o.log[d]
      else after.t.owners[d] == [] && after.log[d] == []
    ensures LogTells(after)
  {
    hide Replay;
    forall d | d in after.t.owners
      ensures DeviceTold(after, d)
    {
      NoEvents({});
    }
  }

  lemma ActKeepsTold(s: Core, a: Act)
    requires Joined(s) && Good(s.o) && Can(s, a) && LogTells(s.o) && !Strips(s, a) && !Repeats(s, a)
    ensures LogTells(After(s, a).o)
  {
    hide Step, Allowed, R.Effect, R.Accepts, R.Sound, OwnersFit, Wf, Good, Doubles, DeviceTold;
    var o, after := s.o, After(s, a).o;
    match a
    case Unregister(p, removal, _, _, _) =>
      FreedIsDevice(s, a);
      if s.r.live[p].registered {
        RemovalDoublesNothing(o, removal);
        StepKeepsTold(o, removal);
        OthersTold(Step(o, removal).0, after);
      }
    case Owner(c) => StepKeepsTold(o, c);
    case _ => OthersTold(o, after);
  }

  // Over any run with neither of the two: the lists are sound, the counts
  // exact and within their limits, the pids distinct; and if a handler has been
  // there from the first device on, its events tell who owns each one.
  lemma {:induction false} RunStaysGood(s: Core, acts: seq<Act>)
    requires Joined(s) && Good(s.o) && RunCan(s, acts) && !SomeStrips(s, acts) && !SomeRepeats(s, acts)
    ensures Good(Final(s, acts).o)
    ensures LogTells(s.o) ==> LogTells(Final(s, acts).o)
    decreases |acts|
  {
    hide Joined, Good, Can, After, Strips, Repeats, LogTells;
    if acts != [] {
      ActKeepsJoined(s, acts[0]);
      ActKeepsGood(s, acts[0]);
      if LogTells(s.o) {
        ActKeepsTold(s, acts[0]);
      }
      RunStaysGood(After(s, acts[0]), acts[1..]);
    }
  }

  // So from an empty bus on.
  lemma FromNothing(acts: seq<Act>)
    requires RunCan(NOTHING, acts)
    ensures Joined(Final(NOTHING, acts)) && (Wf(Final(NOTHING, acts).o.t) <==> !SomeStrips(NOTHING, acts))
    ensures !SomeStrips(NOTHING, acts) && !SomeRepeats(NOTHING, acts) ==> Good(Final(NOTHING, acts).o)
    ensures !SomeStrips(NOTHING, acts) && !SomeRepeats(NOTHING, acts) && acts != [] && acts[0].Handler? ==>
      LogTells(Final(NOTHING, acts).o)
  {
    hide Joined, Can, Strips, Repeats;
    NothingIsJoined();
    RunKeepsJoined(NOTHING, acts);
    RunSound(NOTHING, acts);
    if !SomeStrips(NOTHING, acts) && !SomeRepeats(NOTHING, acts) {
      RunStaysGood(NOTHING, acts);
      if acts != [] && acts[0].Handler? {
        ActKeepsJoined(NOTHING, acts[0]);
        ActKeepsGood(NOTHING, acts[0]);
        RunStaysGood(After(NOTHING, acts[0]), acts[1..]);
      }
    }
  }

  // Unregistering a device with no wait interrupted announces its removal
  // exactly when nobody owns it; as long as a reference is left it stays valid.
  lemma UnregisterAnnounces(s: Core, a: Act)
    requires Joined(s) && Good(s.o) && Can(s, a) && a.Unregister? && s.r.live[a.p].registered && !a.released
    requires s.o.handler && Enters(s.o, a.removal)
    ensures a.p in s.o.t.owners && a.p in s.o.log && a.p in After(s, a).o.log && a.p in After(s, a).o.valid
    ensures After(s, a).o.log[a.p] == s.o.log[a.p] + if s.o.t.owners[a.p] == [] then [DevRemoved] else []
    ensures !After(s, a).r.live[a.p].registered
  {
    hide Linked, R.Accepts, Without;
    assert s.o.numowners[a.p] == |s.o.t.owners[a.p]|;
  }

  // ----- the least of it

  // A device is made, registered and owned by process 5, and then registered
  // once more: that answers -1, and the owner is on the list of no device.
  const MADE := Core(Fresh(EMPTY, 8, 2), R.Created(R.EMPTY, 8))
  const LISTED := Core(Fresh(EMPTY, 8, 2).(valid := {8}), R.Registry(map[8 := R.Dev(R.VERSION, 8, true)], [8], false))
  const JOINABLE := Core(WithSessionList(LISTED.o, 9), LISTED.r)
  const ADDING := Call(Add(8, 5, 0, 0, 9), false, false, false, false, Some(100))
  const AGAIN := Register(8, false, false, false)

  lemma Begins(s: Core, a: Act, rest: seq<Act>)
    requires Can(s, a) && RunCan(After(s, a), rest)
    ensures RunCan(s, [a] + rest) && Final(s, [a] + rest) == Final(After(s, a), rest)
  {
    hide Can, After;
    assert ([a] + rest)[0] == a && ([a] + rest)[1..] == rest;
  }

  lemma FirstSteps()
    ensures Can(NOTHING, Create(8, 2)) && After(NOTHING, Create(8, 2)) == MADE
    ensures Can(MADE, AGAIN) && After(MADE, AGAIN) == LISTED && !Strips(MADE, AGAIN)
    ensures Can(LISTED, SessionList(9)) && After(LISTED, SessionList(9)) == JOINABLE
  {
  }

  lemma LastStep()
    ensures Can(JOINABLE, Owner(ADDING)) && !Repeats(JOINABLE, Owner(ADDING))
    ensures var owned := After(JOINABLE, Owner(ADDING));
      owned.o.t.owners == map[8 := [100]] && owned.r == LISTED.r
  {
    var o := JOINABLE.o;
    assert o.t == Tables(map[8 := []], map[9 := []], map[], map[]);
    assert o.numowners == map[8 := 0] && o.maxowners == map[8 := 2] && o.log == map[8 := []] && o.stuck == {};
    assert Verdict(o, ADDING) == Link(100);
    assert Links(o, ADDING) && Linkable(o.t, ADDING.op, 100);
    assert Step(o, ADDING).0.t.owners == map[8 := [100] + []];
    assert [100] + [] == [100];
  }

  lemma SecondRegistrationStrips()
    ensures var acts := [Create(8, 2), AGAIN, SessionList(9), Owner(ADDING)];
      && RunCan(NOTHING, acts) && Good(Final(NOTHING, acts).o) && Can(Final(NOTHING, acts), AGAIN)
      && R.Registered(Final(NOTHING, acts).r, 8, false, false, false).1 == -1
      && !Wf(After(Final(NOTHING, acts), AGAIN).o.t)
  {
    hide Joined, Good, Wf, Can, After, Strips, Repeats, R.Registered;
    FirstSteps();
    LastStep();
    var owned := After(JOINABLE, Owner(ADDING));
    StepsJoined(owned);
    StrippedAgain(owned);
    FourSteps(NOTHING, MADE, LISTED, JOINABLE, Create(8, 2), AGAIN, SessionList(9), Owner(ADDING));
  }

  lemma FourSteps(s: Core, s1: Core, s2: Core, s3: Core, a: Act, b: Act, c: Act, d: Act)
    requires Can(s, a) && After(s, a) == s1 && Can(s1, b) && After(s1, b) == s2
    requires Can(s2, c) && After(s2, c) == s3 && Can(s3, d)
    ensures RunCan(s, [a, b, c, d]) && Final(s, [a, b, c, d]) == After(s3, d)
  {
    hide Can, After;
    assert RunCan(After(s3, d), []);
    Begins(s3, d, []);
    Begins(s2, c, [d]);
    assert [c] + [d] == [c, d];
    Begins(s1, b, [c, d]);
    assert [b] + [c, d] == [b, c, d];
    Begins(s, a, [b, c, d]);
    assert [a] + [b, c, d] == [a, b, c, d];
  }

  lemma StepsJoined(owned: Core)
    requires Can(JOINABLE, Owner(ADDING)) && !Repeats(JOINABLE, Owner(ADDING)) && owned == After(JOINABLE, Owner(ADDING))
    ensures Joined(owned) && Good(owned.o)
  {
    hide Joined, Good, Can, After, Strips, Repeats;
    NothingIsJoined();
    FirstSteps();
    OnlySomeStrip();
    ActKeepsJoined(NOTHING, Create(8, 2));
    ActKeepsGood(NOTHING, Create(8, 2));
    ActKeepsJoined(MADE, AGAIN);
    ActKeepsGood(MADE, AGAIN);
    ActKeepsJoined(LISTED, SessionList(9));
    ActKeepsGood(LISTED, SessionList(9));
    ActKeepsJoined(JOINABLE, Owner(ADDING));
    ActKeepsGood(JOINABLE, Owner(ADDING));
  }

  lemma OnlySomeStrip()
    ensures !Strips(NOTHING, Create(8, 2)) && !Strips(LISTED, SessionList(9)) && !Strips(JOINABLE, Owner(ADDING))
    ensures !Repeats(NOTHING, Create(8, 2)) && !Repeats(MADE, AGAIN) && !Repeats(LISTED, SessionList(9))
  {
  }

  lemma StrippedAgain(owned: Core)
    requires Joined(owned) && Good(owned.o) && owned.o.t.owners == map[8 := [100]] && owned.r == LISTED.r
    ensures Can(owned, AGAIN) && R.Registered(owned.r, 8, false, false, false).1 == -1
    ensures !Wf(After(owned, AGAIN).o.t)
  {
    hide Joined, Wf;
    assert owned.o.t.owners[8] == [100];
    GoodIsWf(owned.o);
    ActKeepsWf(owned, AGAIN);
  }
}
