// The service interfaces of the bus on plain values: the list of registered
// interfaces, the references on their modules, and the handles given out.
module ServiceSpec {
  import opened Options
  import opened Sequences

  // struct aal_interface; owner is the module it belongs to.
  datatype Interface = Interface(iid: nat, owner: nat, count: int, registered: bool)

  // list is m_servicelist from its head, refs the references taken on each
  // module, held the handles got and not yet released, by address.
  datatype Services = Services(list: seq<nat>, ifaces: map<nat, Interface>, refs: map<nat, int>, held: seq<nat>)

  // An operation with the fate of its wait for the semaphore; going says that
  // the module is being unloaded, so that try_module_get fails.
  datatype Op =
    | Register(p: nat, lost: bool)
    | Unregister(p: nat, lost: bool)
    | Get(iid: nat, going: bool, lost: bool)
    | Release(p: nat, lost: bool)

  // Interfaces are registered and released by address; only what was got is released.
  predicate Allowed(s: Services, op: Op) {
    match op
    case Register(p, _) => p in s.ifaces
    case Unregister(p, _) => p in s.ifaces
    case Get(_, _, _) => true
    case Release(p, _) => p in s.ifaces && s.ifaces[p].owner in s.refs && p in s.held
  }

  // aal_interface_find: the first interface on the list with this ID.
  function Find(list: seq<nat>, ifaces: map<nat, Interface>, iid: nat): Option<nat> {
    if list == [] then None
    else if list[0] in ifaces && ifaces[list[0]].iid == iid then Some(list[0])
    else Find(list[1..], ifaces, iid)
  }

  function Registered(s: Services, p: nat, lost: bool): (Services, int)
    requires p in s.ifaces
  {
    if lost then (s, -2)
    else if Find(s.list, s.ifaces, s.ifaces[p].iid).Some? then (s, -1)
    else (s.(list := [p] + s.list, ifaces := s.ifaces[p := s.ifaces[p].(registered := true)]), 0)
  }

  // The list is searched for the ID, but the interface passed is the one that
  // is taken off.
  function Unregistered(s: Services, p: nat, lost: bool): (Services, int)
    requires p in s.ifaces
  {
    if lost then (s, -2)
    else if Find(s.list, s.ifaces, s.ifaces[p].iid).None? then (s, -1)
    else (s.(list := Without(s.list, p), ifaces := s.ifaces[p := s.ifaces[p].(registered := false)]), 0)
  }

  // The module reference is taken first, and kept when the wait is interrupted.
  function Got(s: Services, iid: nat, going: bool, lost: bool): (Services, Option<nat>) {
    var found := Find(s.list, s.ifaces, iid);
    if found.None? || found.value !in s.ifaces || s.ifaces[found.value].owner !in s.refs || going then (s, None)
    else
      var p := found.value;
      var i := s.ifaces[p];
      (s.(refs := s.refs[i.owner := s.refs[i.owner] + 1], held := s.held + [p],
          ifaces := if lost then s.ifaces else s.ifaces[p := i.(count := i.count + 1)]), Some(p))
  }

  function Released(s: Services, p: nat, lost: bool): Services
    requires p in s.ifaces && s.ifaces[p].owner in s.refs
  {
    var i := s.ifaces[p];
    s.(refs := s.refs[i.owner := s.refs[i.owner] - 1], held := Without(s.held, p),
       ifaces := if lost || i.count <= 0 then s.ifaces else s.ifaces[p := i.(count := i.count - 1)])
  }

  function Effect(s: Services, op: Op): Services
    requires Allowed(s, op)
  {
    match op
    case Register(p, lost) => Registered(s, p, lost).0
    case Unregister(p, lost) => Unregistered(s, p, lost).0
    case Get(iid, going, lost) => Got(s, iid, going, lost).0
    case Release(p, lost) => Released(s, p, lost)
  }

  predicate RunAllowed(s: Services, ops: seq<Op>)
    decreases |ops|
  {
    ops == [] || (Allowed(s, ops[0]) && RunAllowed(Effect(s, ops[0]), ops[1..]))
  }

  function Final(s: Services, ops: seq<Op>): Services
    requires RunAllowed(s, ops)
    decreases |ops|
  {
    if ops == [] then s else Final(Effect(s, ops[0]), ops[1..])
  }

  // ----- the IDs

  // The list as a map from ID to interface.
  function Directory(list: seq<nat>, ifaces: map<nat, Interface>): map<nat, nat> {
    if list == [] then map[]
    else if list[0] in ifaces then Directory(list[1..], ifaces)[ifaces[list[0]].iid := list[0]]
    else Directory(list[1..], ifaces)
  }

  // No two interfaces on the list have the same ID.
  ghost predicate OneEach(list: seq<nat>, ifaces: map<nat, Interface>) {
    && (forall p :: p in list ==> p in ifaces)
    && forall i, j :: 0 <= i < j < |list| ==> ifaces[list[i]].iid != ifaces[list[j]].iid
  }

  // What happens to the map: an ID is entered when it is free, and removed
  // when it is there for this interface.
  function Entered(dir: map<nat, nat>, ifaces: map<nat, Interface>, op: Op): map<nat, nat> {
    match op
    case Register(p, lost) =>
      if lost || p !in ifaces || ifaces[p].iid in dir then dir else dir[ifaces[p].iid := p]
    case Unregister(p, lost) =>
      if lost || p !in ifaces || ifaces[p].iid !in dir || dir[ifaces[p].iid] != p then dir else dir - {ifaces[p].iid}
    case Get(_, _, _) => dir
    case Release(_, _) => dir
  }

  function EnteredAll(dir: map<nat, nat>, ifaces: map<nat, Interface>, ops: seq<Op>): map<nat, nat>
    decreases |ops|
  {
    if ops == [] then dir else EnteredAll(Entered(dir, ifaces, ops[0]), ifaces, ops[1..])
  }

  lemma {:induction false} FindIsDirectory(list: seq<nat>, ifaces: map<nat, Interface>, iid: nat)
    ensures var dir := Directory(list, ifaces);
      Find(list, ifaces, iid) == if iid in dir then Some(dir[iid]) else None
    ensures Find(list, ifaces, iid).Some? ==>
      var p := Find(list, ifaces, iid).value; p in list && p in ifaces && ifaces[p].iid == iid
    ensures Find(list, ifaces, iid).None? ==> forall p :: p in list && p in ifaces ==> ifaces[p].iid != iid
  {
    if list != [] {
      FindIsDirectory(list[1..], ifaces, iid);
    }
  }

  // IDs and addresses stay what they are, whatever else of an interface changes.
  ghost predicate SameIds(a: map<nat, Interface>, b: map<nat, Interface>) {
    a.Keys == b.Keys && forall p :: p in a && p in b ==> a[p].iid == b[p].iid && a[p].owner == b[p].owner
  }

  lemma EffectKeepsIds(s: Services, op: Op)
    requires Allowed(s, op)
    ensures SameIds(s.ifaces, Effect(s, op).ifaces)
  {
    hide Find;
  }

  lemma {:induction false} DirectoryKept(list: seq<nat>, a: map<nat, Interface>, b: map<nat, Interface>)
    requires SameIds(a, b)
    ensures Directory(list, a) == Directory(list, b)
  {
    if list != [] {
      DirectoryKept(list[1..], a, b);
    }
  }

  lemma EnteredKept(dir: map<nat, nat>, a: map<nat, Interface>, b: map<nat, Interface>, op: Op)
    requires SameIds(a, b)
    ensures Entered(dir, a, op) == Entered(dir, b, op)
  {
  }

  lemma {:induction false} EnteredAllKept(dir: map<nat, nat>, a: map<nat, Interface>, b: map<nat, Interface>, ops: seq<Op>)
    requires SameIds(a, b)
    ensures EnteredAll(dir, a, ops) == EnteredAll(dir, b, ops)
    decreases |ops|
  {
    if ops != [] {
      EnteredKept(dir, a, b, ops[0]);
      EnteredAllKept(Entered(dir, a, ops[0]), a, b, ops[1..]);
    }
  }

  lemma OneEachTail(list: seq<nat>, ifaces: map<nat, Interface>)
    requires OneEach(list, ifaces) && list != []
    ensures OneEach(list[1..], ifaces)
    ensures list[0] in ifaces && forall p :: p in list[1..] ==> p in ifaces && ifaces[p].iid != ifaces[list[0]].iid
  {
    assert list[0] in list && forall p :: p in list[1..] ==> p in list;
  }

  lemma OneEachCons(p: nat, list: seq<nat>, ifaces: map<nat, Interface>)
    requires OneEach(list, ifaces) && p in ifaces && forall q :: q in list ==> q in ifaces && ifaces[q].iid != ifaces[p].iid
    ensures OneEach([p] + list, ifaces)
  {
    assert forall q :: q in [p] + list ==> q == p || q in list;
  }

  lemma {:induction false} DirectoryWithout(list: seq<nat>, ifaces: map<nat, Interface>, p: nat)
    requires OneEach(list, ifaces) && p in ifaces
    ensures OneEach(Without(list, p), ifaces)
    ensures Directory(Without(list, p), ifaces) == if p in list then Directory(list, ifaces) - {ifaces[p].iid} else Directory(list, ifaces)
  {
    hide OneEach;
    if list != [] {
      OneEachTail(list, ifaces);
      DirectoryWithout(list[1..], ifaces, p);
      FindIsDirectory(list[1..], ifaces, ifaces[list[0]].iid);
      if list[0] != p {
        WithoutWithin(list[1..], p);
        OneEachCons(list[0], Without(list[1..], p), ifaces);
        assert ([list[0]] + Without(list[1..], p))[1..] == Without(list[1..], p);
      }
    }
  }

  lemma RegisterKeeps(s: Services, p: nat, lost: bool)
    requires OneEach(s.list, s.ifaces) && p in s.ifaces
    ensures var after := Registered(s, p, lost).0;
      && OneEach(after.list, after.ifaces)
      && Directory(after.list, after.ifaces) == Entered(Directory(s.list, s.ifaces), s.ifaces, Register(p, lost))
  {
    var after := Registered(s, p, lost).0;
    FindIsDirectory(s.list, s.ifaces, s.ifaces[p].iid);
    DirectoryKept(s.list, s.ifaces, after.ifaces);
    if after.list != s.list {
      assert after.list[1..] == s.list;
    }
  }

  lemma UnregisterKeeps(s: Services, p: nat, lost: bool)
    requires OneEach(s.list, s.ifaces) && p in s.ifaces
    ensures var after := Unregistered(s, p, lost).0;
      && OneEach(after.list, after.ifaces)
      && Directory(after.list, after.ifaces) == Entered(Directory(s.list, s.ifaces), s.ifaces, Unregister(p, lost))
  {
    var after := Unregistered(s, p, lost).0;
    FindIsDirectory(s.list, s.ifaces, s.ifaces[p].iid);
    DirectoryWithout(s.list, s.ifaces, p);
    DirectoryKept(after.list, s.ifaces, after.ifaces);
    InDirectory(s.list, s.ifaces, p);
    WithoutAbsentOr(s.list, p);
  }

  lemma WithoutAbsentOr(s: seq<nat>, x: nat)
    ensures x !in s ==> Without(s, x) == s
  {
  }

  lemma {:induction false} InDirectory(list: seq<nat>, ifaces: map<nat, Interface>, p: nat)
    requires OneEach(list, ifaces) && p in ifaces
    ensures var dir := Directory(list, ifaces); p in list <==> ifaces[p].iid in dir && dir[ifaces[p].iid] == p
  {
    FindIsDirectory(list, ifaces, ifaces[p].iid);
    if list != [] {
      assert OneEach(list[1..], ifaces);
      assert list[0] in list;
      InDirectory(list[1..], ifaces, p);
      FindIsDirectory(list[1..], ifaces, ifaces[p].iid);
    }
  }

  // After any run no two registered interfaces share an ID, and looking up an
  // ID finds what the map of entries has.
  lemma {:induction false} RunIsDirectory(s: Services, ops: seq<Op>, iid: nat)
    requires OneEach(s.list, s.ifaces) && RunAllowed(s, ops)
    ensures var end, dir := Final(s, ops), EnteredAll(Directory(s.list, s.ifaces), s.ifaces, ops);
      && OneEach(end.list, end.ifaces) && SameIds(s.ifaces, end.ifaces)
      && Directory(end.list, end.ifaces) == dir
      && Find(end.list, end.ifaces, iid) == if iid in dir then Some(dir[iid]) else None
    decreases |ops|
  {
    FindIsDirectory(Final(s, ops).list, Final(s, ops).ifaces, iid);
    if ops != [] {
      var next, dir := Effect(s, ops[0]), Directory(s.list, s.ifaces);
      EffectKeepsIds(s, ops[0]);
      StepIsDirectory(s, ops[0]);
      RunIsDirectory(next, ops[1..], iid);
      EnteredAllKept(Entered(dir, s.ifaces, ops[0]), s.ifaces, next.ifaces, ops[1..]);
    }
  }

  lemma StepIsDirectory(s: Services, op: Op)
    requires OneEach(s.list, s.ifaces) && Allowed(s, op)
    ensures var after := Effect(s, op);
      && OneEach(after.list, after.ifaces)
      && Directory(after.list, after.ifaces) == Entered(Directory(s.list, s.ifaces), s.ifaces, op)
  {
    hide Find, Directory;
    if op.Register? {
      RegisterKeeps(s, op.p, op.lost);
    } else if op.Unregister? {
      UnregisterKeeps(s, op.p, op.lost);
    } else {
      EffectKeepsIds(s, op);
      DirectoryKept(s.list, s.ifaces, Effect(s, op).ifaces);
    }
  }

  // An unregister that answers 0 frees the ID exactly when the interface
  // passed was the one registered: the ID is looked for, not the interface.
  lemma UnregisterFreesItsOwnId(s: Services, p: nat)
    requires OneEach(s.list, s.ifaces) && p in s.ifaces && Unregistered(s, p, false).1 == 0
    ensures var after := Unregistered(s, p, false).0;
      Find(after.list, after.ifaces, s.ifaces[p].iid).None? <==> p in s.list
  {
    var after := Unregistered(s, p, false).0;
    UnregisterKeeps(s, p, false);
    FindIsDirectory(after.list, after.ifaces, s.ifaces[p].iid);
    FindIsDirectory(s.list, s.ifaces, s.ifaces[p].iid);
    InDirectory(s.list, s.ifaces, p);
  }

  // Two interfaces with ID 7: unregistering the one that is not on the list
  // answers 0, and the other one stays.
  lemma UnregisterOfAnother()
    ensures var s := Services([1], map[1 := Interface(7, 0, 0, true), 2 := Interface(7, 0, 0, false)], map[0 := 0], []);
      && OneEach(s.list, s.ifaces) && Unregistered(s, 2, false).1 == 0
      && Find(Unregistered(s, 2, false).0.list, Unregistered(s, 2, false).0.ifaces, 7) == Some(1)
  {
    var s := Services([1], map[1 := Interface(7, 0, 0, true), 2 := Interface(7, 0, 0, false)], map[0 := 0], []);
    assert Unregistered(s, 2, false).0.list == [1];
  }

  // ----- what the answers tell

  // A registration answers 0 exactly when it puts the interface on the list, -2
  // when it is interrupted, -1 when the ID is taken; only the first changes anything.
  lemma RegisteredTells(s: Services, p: nat, lost: bool)
    requires OneEach(s.list, s.ifaces) && p in s.ifaces
    ensures var (after, answer), taken := Registered(s, p, lost), s.ifaces[p].iid in Directory(s.list, s.ifaces);
      && (answer == 0 <==> after.list == [p] + s.list)
      && (answer == 0 ==> after.ifaces[p].registered && after.refs == s.refs && after.held == s.held)
      && (answer != 0 ==> after == s && answer == if lost then -2 else -1)
      && (answer == 0 <==> !lost && !taken)
  {
    FindIsDirectory(s.list, s.ifaces, s.ifaces[p].iid);
    assert |[p] + s.list| == |s.list| + 1;
  }

  // Likewise when one is taken off.
  lemma UnregisteredTells(s: Services, p: nat, lost: bool)
    requires OneEach(s.list, s.ifaces) && p in s.ifaces
    ensures var (after, answer), taken := Unregistered(s, p, lost), s.ifaces[p].iid in Directory(s.list, s.ifaces);
      && (answer == 0 ==> p !in after.list && !after.ifaces[p].registered && after.refs == s.refs && after.held == s.held)
      && (answer == 0 ==> forall q :: q != p ==> (q in after.list <==> q in s.list))
      && (answer != 0 ==> after == s && answer == if lost then -2 else -1)
      && (answer == 0 <==> !lost && taken)
  {
    FindIsDirectory(s.list, s.ifaces, s.ifaces[p].iid);
    ListedOnce(s.list, s.ifaces);
    WithoutDistinct(s.list, p);
  }

  lemma ListedOnce(list: seq<nat>, ifaces: map<nat, Interface>)
    requires OneEach(list, ifaces)
    ensures Distinct(list)
  {
  }

  // The flag of every interface says whether it is on the list.
  ghost predicate FlagsTrue(s: Services) {
    forall p :: p in s.ifaces ==> (s.ifaces[p].registered <==> p in s.list)
  }

  lemma StepKeepsFlags(s: Services, op: Op)
    requires OneEach(s.list, s.ifaces) && FlagsTrue(s) && Allowed(s, op)
    ensures FlagsTrue(Effect(s, op))
  {
    hide Find, OneEach;
    if op.Unregister? {
      ListedOnce(s.list, s.ifaces);
      WithoutDistinct(s.list, op.p);
      WithoutWithin(s.list, op.p);
    }
  }

  lemma {:induction false} RunKeepsFlags(s: Services, ops: seq<Op>)
    requires OneEach(s.list, s.ifaces) && FlagsTrue(s) && RunAllowed(s, ops)
    ensures FlagsTrue(Final(s, ops))
    decreases |ops|
  {
    hide OneEach, FlagsTrue, Effect;
    if ops != [] {
      StepKeepsFlags(s, ops[0]);
      StepIsDirectory(s, ops[0]);
      RunKeepsFlags(Effect(s, ops[0]), ops[1..]);
    }
  }

  // A get answers an interface exactly when it hands it out, and none exactly
  // when it changes nothing, interrupted or not.
  lemma GotTells(s: Services, iid: nat, going: bool, lost: bool)
    ensures var (after, answer) := Got(s, iid, going, lost);
      && (forall p :: answer == Some(p) <==> after.held == s.held + [p])
      && (answer == None <==> after == s)
      && (answer == None ==> after.held == s.held)
  {
    var (after, answer) := Got(s, iid, going, lost);
    forall p
      ensures answer == Some(p) <==> after.held == s.held + [p]
    {
      assert (s.held + [p])[|s.held|] == p;
      if answer.Some? {
        assert (s.held + [answer.value])[|s.held|] == answer.value;
      }
    }
    assert answer.Some? ==> |after.held| == |s.held| + 1;
  }

  // When all modules are there and this one is not going, it answers what the
  // directory has for the ID, interrupted or not; of a module that is going none.
  lemma GotIsDirectory(s: Services, iid: nat, going: bool, lost: bool)
    requires OneEach(s.list, s.ifaces) && forall p :: p in s.ifaces ==> s.ifaces[p].owner in s.refs
    ensures var dir := Directory(s.list, s.ifaces);
      Got(s, iid, going, lost).1 == if iid in dir && !going then Some(dir[iid]) else None
  {
    FindIsDirectory(s.list, s.ifaces, iid);
  }

  // ----- references and counts

  // The handles held on interfaces of module m.
  function HeldOf(held: seq<nat>, ifaces: map<nat, Interface>, m: nat): nat {
    if held == [] then 0
    else (if held[0] in ifaces && ifaces[held[0]].owner == m then 1 else 0) + HeldOf(held[1..], ifaces, m)
  }

  lemma {:induction false} HeldOfConcat(a: seq<nat>, b: seq<nat>, ifaces: map<nat, Interface>, m: nat)
    ensures HeldOf(a + b, ifaces, m) == HeldOf(a, ifaces, m) + HeldOf(b, ifaces, m)
  {
    if a == [] {
      assert a + b == b;
    } else {
      assert (a + b)[1..] == a[1..] + b;
      HeldOfConcat(a[1..], b, ifaces, m);
    }
  }

  lemma {:induction false} HeldOfWithout(held: seq<nat>, p: nat, ifaces: map<nat, Interface>, m: nat)
    requires p in held && p in ifaces
    ensures HeldOf(Without(held, p), ifaces, m) == HeldOf(held, ifaces, m) - if ifaces[p].owner == m then 1 else 0
  {
    if held[0] != p {
      HeldOfWithout(held[1..], p, ifaces, m);
      assert Without(held, p)[1..] == Without(held[1..], p);
    }
  }

  lemma {:induction false} HeldOfKept(held: seq<nat>, a: map<nat, Interface>, b: map<nat, Interface>, m: nat)
    requires SameIds(a, b)
    ensures HeldOf(held, a, m) == HeldOf(held, b, m)
  {
    if held != [] {
      HeldOfKept(held[1..], a, b, m);
    }
  }

  // Whatever is interrupted, a module has exactly one reference more for each
  // handle out on its interfaces.
  lemma StepKeepsRefs(s: Services, op: Op, m: nat)
    requires Allowed(s, op) && m in s.refs
    ensures var after := Effect(s, op);
      m in after.refs && after.refs[m] - HeldOf(after.held, after.ifaces, m) == s.refs[m] - HeldOf(s.held, s.ifaces, m)
  {
    hide Find, HeldOf;
    var after := Effect(s, op);
    EffectKeepsIds(s, op);
    HeldOfKept(after.held, s.ifaces, after.ifaces, m);
    if op.Get? && after.held != s.held {
      var p := Got(s, op.iid, op.going, op.lost).1.value;
      HeldOfConcat(s.held, [p], s.ifaces, m);
      HeldOfOne(p, s.ifaces, m);
    } else if op.Release? {
      HeldOfWithout(s.held, op.p, s.ifaces, m);
    }
  }

  lemma HeldOfOne(p: nat, ifaces: map<nat, Interface>, m: nat)
    requires p in ifaces
    ensures HeldOf([p], ifaces, m) == if ifaces[p].owner == m then 1 else 0
  {
    assert HeldOf([p][1..], ifaces, m) == 0;
  }

  lemma {:induction false} RunKeepsRefs(s: Services, ops: seq<Op>, m: nat)
    requires RunAllowed(s, ops) && m in s.refs
    ensures var end := Final(s, ops);
      m in end.refs && end.refs[m] - HeldOf(end.held, end.ifaces, m) == s.refs[m] - HeldOf(s.held, s.ifaces, m)
    decreases |ops|
  {
    if ops != [] {
      StepKeepsRefs(s, ops[0], m);
      RunKeepsRefs(Effect(s, ops[0]), ops[1..], m);
    }
  }

  // m_count of every interface is the number of handles out on it.
  ghost predicate CountsExact(s: Services) {
    forall p :: p in s.ifaces ==> s.ifaces[p].count == multiset(s.held)[p]
  }

  // The wait was interrupted in an operation that gives or takes a handle: a
  // get of an ID that is there, of a module that is staying, or any release.
  ghost predicate Miscounts(s: Services, op: Op) {
    || (op.Get? && op.lost && !op.going
      && var p := Find(s.list, s.ifaces, op.iid);
        p.Some? && p.value in s.ifaces && s.ifaces[p.value].owner in s.refs)
    || (op.Release? && op.lost)
  }

  // The least of it: one interface, and a get whose wait is interrupted.
  lemma InterruptedGetMiscounts()
    ensures var s, get := Services([1], map[1 := Interface(7, 0, 0, true)], map[0 := 0], []), Get(7, false, true);
      && CountsExact(s) && Miscounts(s, get) && !CountsExact(Effect(s, get))
      && Effect(s, get).held == [1] && Effect(s, get).ifaces[1].count == 0
  {
    var s := Services([1], map[1 := Interface(7, 0, 0, true)], map[0 := 0], []);
    assert Find(s.list, s.ifaces, 7) == Some(1);
    assert s.held + [1] == [1] && multiset([1])[1] == 1;
  }

  lemma {:induction false} MultisetWithout(s: seq<nat>, x: nat)
    ensures multiset(Without(s, x)) == multiset(s) - multiset{x}
  {
    if s != [] {
      assert s == [s[0]] + s[1..];
      if s[0] != x {
        MultisetWithout(s[1..], x);
        assert multiset(Without(s, x)) == multiset{s[0]} + multiset(Without(s[1..], x));
      }
    }
  }

  // A step keeps the counts exact exactly when it does not lose a count to an interruption.
  lemma StepKeepsCounts(s: Services, op: Op)
    requires Allowed(s, op) && CountsExact(s)
    ensures CountsExact(Effect(s, op)) <==> !Miscounts(s, op)
  {
    hide Find, Without, CountsExact;
    if op.Release? {
      ReleaseCounts(s, op.p, op.lost);
    } else if op.Get? {
      GetCounts(s, op.iid, op.going, op.lost);
    } else {
      assert Effect(s, op).held == s.held;
      SameCounts(s, Effect(s, op));
    }
  }

  lemma SameCounts(s: Services, after: Services)
    requires CountsExact(s) && after.held == s.held && after.ifaces.Keys == s.ifaces.Keys
    requires forall p :: p in s.ifaces ==> after.ifaces[p].count == s.ifaces[p].count
    ensures CountsExact(after)
  {
  }

  lemma ReleaseCounts(s: Services, p: nat, lost: bool)
    requires Allowed(s, Release(p, lost)) && CountsExact(s)
    ensures CountsExact(Released(s, p, lost)) <==> !lost
  {
    hide Without;
    MultisetWithout(s.held, p);
    assert s.ifaces[p].count == multiset(s.held)[p] > 0;
  }

  lemma GetCounts(s: Services, iid: nat, going: bool, lost: bool)
    requires CountsExact(s)
    ensures CountsExact(Got(s, iid, going, lost).0) <==> !(lost && Got(s, iid, going, lost).1.Some?)
  {
    hide Find;
    var p := Got(s, iid, going, lost).1;
    if p.Some? {
      assert multiset(s.held + [p.value]) == multiset(s.held) + multiset{p.value};
    }
  }

  // Whatever is interrupted, no count goes below 0, and a release takes one off
  // exactly when there is one and its wait is not interrupted.
  ghost predicate CountsNotBelow(s: Services) {
    forall p :: p in s.ifaces ==> s.ifaces[p].count >= 0
  }

  lemma {:induction false} RunKeepsCountsUp(s: Services, ops: seq<Op>)
    requires RunAllowed(s, ops) && CountsNotBelow(s)
    ensures CountsNotBelow(Final(s, ops))
    decreases |ops|
  {
    hide Find, Without;
    if ops != [] {
      RunKeepsCountsUp(Effect(s, ops[0]), ops[1..]);
    }
  }

  lemma ReleasedTells(s: Services, p: nat, lost: bool)
    requires Allowed(s, Release(p, lost)) && CountsNotBelow(s)
    ensures var after := Released(s, p, lost);
      && after.ifaces.Keys == s.ifaces.Keys && after.list == s.list
      && after.ifaces[p].count == s.ifaces[p].count - (if s.ifaces[p].count > 0 && !lost then 1 else 0)
      && (forall q :: q in s.ifaces && q != p ==> after.ifaces[q] == s.ifaces[q])
  {
  }

  predicate Uninterrupted(ops: seq<Op>) {
    forall op :: op in ops && (op.Get? || op.Release?) ==> !op.lost
  }

  lemma {:induction false} RunKeepsCounts(s: Services, ops: seq<Op>)
    requires RunAllowed(s, ops) && CountsExact(s) && Uninterrupted(ops)
    ensures CountsExact(Final(s, ops))
    decreases |ops|
  {
    if ops != [] {
      assert ops[0] in ops && forall op :: op in ops[1..] ==> op in ops;
      StepKeepsCounts(s, ops[0]);
      RunKeepsCounts(Effect(s, ops[0]), ops[1..]);
    }
  }
}
