// The allocation list as the pointers it is made of, so that a device may be
// linked again that is on the list already.
module RegistryLinks {
  import opened Sequences
  import opened RegistrySpec

  // next and prev of the list head, at address 0, and of the link in each
  // device, by the address of the device.
  datatype Raw = Raw(live: map<nat, Dev>, next: map<nat, nat>, prev: map<nat, nat>, busTaken: bool)

  const NONE := Raw(map[], map[0 := 0], map[0 := 0], false)

  // A new device, its link initialised.
  function Made(raw: Raw, mem: nat): Raw {
    Raw(raw.live[mem := Dev(VERSION, VirtToPhys(mem), false)], raw.next[mem := mem], raw.prev[mem := mem], raw.busTaken)
  }

  // list_add at the head
  function Added(raw: Raw, p: nat): (after: Raw)
    requires 0 in raw.next
    ensures after.live == raw.live && after.busTaken == raw.busTaken
  {
    var n := raw.next[0];
    raw.(next := raw.next[p := n][0 := p], prev := raw.prev[n := p][p := 0])
  }

  // list_del, and the memory of the device is given back.
  function Deleted(raw: Raw, p: nat): Raw
    requires p in raw.next && p in raw.prev
  {
    var n, m := raw.next[p], raw.prev[p];
    raw.(live := raw.live - {p}, next := raw.next[m := n] - {p}, prev := raw.prev[n := m] - {p})
  }

  // Where the walk from the head is after k steps; in freed memory it stops.
  function Hop(next: map<nat, nat>, k: nat): nat {
    if k == 0 then 0 else
      var m := Hop(next, k - 1);
      if m in next then next[m] else m
  }

  // The walk comes back to the head.
  ghost predicate Ends(next: map<nat, nat>) {
    exists k: nat :: k > 0 && Hop(next, k) == 0
  }

  // The walk comes to p before it comes back.
  ghost predicate Finds(next: map<nat, nat>, p: nat) {
    exists k: nat :: FindsAt(next, p, k)
  }

  ghost predicate FindsAt(next: map<nat, nat>, p: nat, k: nat) {
    k > 0 && Hop(next, k) == p && p != 0 && forall j :: 0 < j < k ==> Hop(next, j) != 0
  }

  ghost predicate RawAccepts(raw: Raw, p: nat) {
    p in raw.live && Finds(raw.next, p) && raw.live[p].validator == VirtToPhys(p) && raw.live[p].version == VERSION
  }

  // ----- the operations, with no condition on what is on the list

  ghost predicate InMemory(raw: Raw) {
    0 in raw.next && 0 !in raw.live && raw.live.Keys <= raw.next.Keys && raw.live.Keys <= raw.prev.Keys
  }

  predicate RawPossible(raw: Raw, op: Op) {
    Possible(Registry(raw.live, [], raw.busTaken), op)
  }

  ghost function RawDestroyed(raw: Raw, p: nat, lostValid: bool, lostAlloc: bool): Raw
    requires InMemory(raw)
  {
    if lostValid || !RawAccepts(raw, p) || lostAlloc then raw else Deleted(raw, p)
  }

  ghost function RawEffect(raw: Raw, op: Op): Raw
    requires InMemory(raw) && RawPossible(raw, op)
  {
    match op
    case Create(mem) => Made(raw, mem)
    case CreateDevice(mem, lostAlloc) => if lostAlloc then raw else Added(Made(raw, mem), mem)
    case Register(p, lostBus, lostAlloc, fails) =>
      if raw.live[p].registered || lostBus then raw
      else if lostAlloc then raw.(busTaken := true)
      else Added(raw, p).(live := raw.live[p := raw.live[p].(registered := !fails)], busTaken := false)
    case Destroy(p, lostValid, lostAlloc) => RawDestroyed(raw, p, lostValid, lostAlloc)
    case Unregister(p, released, lostValid, lostAlloc) =>
      if !raw.live[p].registered then raw
      else
        var after := if released then RawDestroyed(raw, p, lostValid, lostAlloc) else raw;
        if p in after.live then after.(live := after.live[p := after.live[p].(registered := false)]) else after
  }

  // The operation links a device that is on the list.
  ghost predicate Relists(raw: Raw, op: Op) {
    Reaches(raw.live, op) && Finds(raw.next, op.p)
  }

  // ----- lists in order

  // Position i of the circle through the head: the head at 0 and at |s| + 1.
  function At(s: seq<nat>, i: nat): nat
    requires i <= |s| + 1
  {
    if i == 0 || i == |s| + 1 then 0 else s[i - 1]
  }

  predicate LinkedAt(raw: Raw, s: seq<nat>, i: nat)
    requires i <= |s|
  {
    && At(s, i) in raw.next && raw.next[At(s, i)] == At(s, i + 1)
    && At(s, i + 1) in raw.prev && raw.prev[At(s, i + 1)] == At(s, i)
  }

  // The pointers spell out s.
  ghost predicate Spells(raw: Raw, s: seq<nat>) {
    Distinct(s) && 0 !in s && forall i :: 0 <= i <= |s| ==> LinkedAt(raw, s, i)
  }

  ghost predicate Refines(raw: Raw, r: Registry) {
    InMemory(raw) && raw.live == r.live && raw.busTaken == r.busTaken && Spells(raw, r.listed)
  }

  lemma {:induction false} HopSpells(raw: Raw, s: seq<nat>, k: nat)
    requires Spells(raw, s) && k <= |s| + 1
    ensures Hop(raw.next, k) == At(s, k)
  {
    if k > 0 {
      HopSpells(raw, s, k - 1);
      assert LinkedAt(raw, s, k - 1);
    }
  }

  // A walk over a list in order ends, and finds what is on it.
  lemma SpellsFinds(raw: Raw, s: seq<nat>, p: nat)
    requires Spells(raw, s)
    ensures Ends(raw.next) && (Finds(raw.next, p) <==> p in s)
  {
    HopSpells(raw, s, |s| + 1);
    if p in s {
      var i :| 0 <= i < |s| && s[i] == p;
      forall j | 0 < j <= i + 1
        ensures Hop(raw.next, j) == s[j - 1]
      {
        HopSpells(raw, s, j);
      }
      assert FindsAt(raw.next, p, i + 1);
    }
    if k: nat :| FindsAt(raw.next, p, k) {
      assert k <= |s| + 1;
      HopSpells(raw, s, k);
    }
  }

  lemma AddedSpells(raw: Raw, s: seq<nat>, p: nat)
    requires InMemory(raw) && Spells(raw, s) && p !in s && p != 0
    ensures Spells(Added(raw, p), [p] + s)
  {
    var after, t := Added(raw, p), [p] + s;
    assert LinkedAt(raw, s, 0);
    forall i | 0 <= i <= |t|
      ensures LinkedAt(after, t, i)
    {
      if i > 0 {
        assert LinkedAt(raw, s, i - 1);
      }
    }
  }

  lemma DeletedSpells(raw: Raw, s: seq<nat>, k: nat)
    requires Spells(raw, s) && k < |s| && s[k] in raw.next && s[k] in raw.prev
    ensures Spells(Deleted(raw, s[k]), s[..k] + s[k + 1..])
  {
    var after, t := Deleted(raw, s[k]), s[..k] + s[k + 1..];
    assert LinkedAt(raw, s, k) && LinkedAt(raw, s, k + 1);
    forall i | 0 <= i <= |t|
      ensures LinkedAt(after, t, i)
    {
      assert LinkedAt(raw, s, if i < k then i else i + 1);
    }
  }

  lemma EffectInMemory(raw: Raw, op: Op)
    requires InMemory(raw) && RawPossible(raw, op)
    ensures InMemory(RawEffect(raw, op))
  {
  }

  lemma ListChanged(raw: Raw, now: Raw, s: seq<nat>)
    requires Spells(raw, s) && now.next == raw.next && now.prev == raw.prev
    ensures Spells(now, s)
  {
    forall i | 0 <= i <= |s|
      ensures LinkedAt(now, s, i)
    {
      assert LinkedAt(raw, s, i);
    }
  }

  lemma MadeSpells(raw: Raw, s: seq<nat>, mem: nat)
    requires Spells(raw, s) && mem != 0 && mem !in s
    ensures Spells(Made(raw, mem), s)
  {
    forall i | 0 <= i <= |s|
      ensures LinkedAt(Made(raw, mem), s, i)
    {
      assert LinkedAt(raw, s, i);
    }
  }

  lemma DestroyedRefines(raw: Raw, r: Registry, p: nat, lostValid: bool, lostAlloc: bool)
    requires Refines(raw, r) && Sound(r)
    ensures Refines(RawDestroyed(raw, p, lostValid, lostAlloc), Destroyed(r, p, lostValid, lostAlloc).0)
  {
    SpellsFinds(raw, r.listed, p);
    if !lostValid && RawAccepts(raw, p) && !lostAlloc {
      var k :| 0 <= k < |r.listed| && r.listed[k] == p;
      DeletedSpells(raw, r.listed, k);
      WithoutAt(r.listed, p, k);
    }
  }

  lemma ListedIsLive(r: Registry, p: nat)
    requires Sound(r) && p !in r.live
    ensures p !in r.listed
  {
  }

  // As long as no device is linked again, the pointers do what the list does.
  lemma EffectRefines(raw: Raw, r: Registry, op: Op)
    requires Refines(raw, r) && Sound(r) && RawPossible(raw, op) && !Relists(raw, op)
    ensures Allowed(r, op) && Refines(RawEffect(raw, op), Effect(r, op)) && Sound(Effect(r, op))
  {
    hide RawDestroyed, Spells, Finds, Added, Sound, Without;
    EffectInMemory(raw, op);
    if op.Register? {
      SpellsFinds(raw, r.listed, op.p);
    }
    EffectSound(r, op);
    match op
    case Create(mem) =>
      ListedIsLive(r, mem);
      MadeSpells(raw, r.listed, mem);
    case CreateDevice(mem, lostAlloc) =>
      ListedIsLive(r, mem);
      MadeSpells(raw, r.listed, mem);
      AddedSpells(Made(raw, mem), r.listed, mem);
    case Register(p, lostBus, lostAlloc, fails) =>
      if Reaches(raw.live, op) {
        AddedSpells(raw, r.listed, p);
        ListChanged(Added(raw, p), RawEffect(raw, op), [p] + r.listed);
      } else {
        ListChanged(raw, RawEffect(raw, op), r.listed);
      }
    case Destroy(p, lostValid, lostAlloc) =>
      DestroyedRefines(raw, r, p, lostValid, lostAlloc);
    case Unregister(p, released, lostValid, lostAlloc) =>
      DestroyedRefines(raw, r, p, lostValid, lostAlloc);
      var mid := if released then RawDestroyed(raw, p, lostValid, lostAlloc) else raw;
      if raw.live[p].registered {
        ListChanged(mid, RawEffect(raw, op), Effect(r, op).listed);
      }
  }

  // ----- lists that go round

  // The walk from the head has gone into a place it does not come back from.
  ghost predicate GoesRound(next: map<nat, nat>, c: set<nat>) {
    && 0 in next && 0 !in c && next[0] in c
    && forall x :: x in c && x in next ==> next[x] in c
  }

  lemma {:induction false} HopsRound(next: map<nat, nat>, c: set<nat>, k: nat)
    requires GoesRound(next, c) && k > 0
    ensures Hop(next, k) in c
  {
    if k > 1 {
      HopsRound(next, c, k - 1);
    }
  }

  lemma RoundDoesNotEnd(next: map<nat, nat>, c: set<nat>)
    requires GoesRound(next, c)
    ensures !Ends(next) && forall p :: Finds(next, p) ==> p in c
  {
    forall k: nat | k > 0
      ensures Hop(next, k) in c
    {
      HopsRound(next, c, k);
    }
  }

  // Linking a device that is on the list makes the walk go round, from the
  // device through what was in front of it and back.
  lemma RelistGoesRound(raw: Raw, s: seq<nat>, k: nat)
    requires InMemory(raw) && Spells(raw, s) && k < |s|
    ensures GoesRound(Added(raw, s[k]).next, set i | 0 <= i <= k :: s[i])
  {
    var after, c := Added(raw, s[k]), set i | 0 <= i <= k :: s[i];
    assert LinkedAt(raw, s, 0);
    forall i | 0 <= i < k
      ensures s[i] in after.next && after.next[s[i]] == s[i + 1]
    {
      assert LinkedAt(raw, s, i + 1);
    }
    forall x | x in c && x in after.next
      ensures after.next[x] in c
    {
      var i :| 0 <= i <= k && s[i] == x;
      assert after.next[x] == if i < k then s[i + 1] else s[0];
    }
    assert s[k] in c;
  }

  lemma DestroyedGoesRound(raw: Raw, c: set<nat>, p: nat, lostValid: bool, lostAlloc: bool)
    requires InMemory(raw) && GoesRound(raw.next, c)
    ensures GoesRound(RawDestroyed(raw, p, lostValid, lostAlloc).next, c)
  {
    RoundDoesNotEnd(raw.next, c);
  }

  // No operation brings it back.
  lemma EffectGoesRound(raw: Raw, op: Op, c: set<nat>) returns (d: set<nat>)
    requires InMemory(raw) && RawPossible(raw, op) && GoesRound(raw.next, c)
    ensures GoesRound(RawEffect(raw, op).next, d)
  {
    d := c;
    if Reaches(raw.live, op) {
      d := c + {op.p};
    } else if op.CreateDevice? && !op.lostAlloc {
      d := c + {op.mem};
    } else if op.Destroy? || op.Unregister? {
      DestroyedGoesRound(raw, c, op.p, op.lostValid, op.lostAlloc);
    }
  }

  // ----- runs

  ghost predicate RawRunPossible(raw: Raw, ops: seq<Op>)
    decreases |ops|
  {
    ops == [] || (InMemory(raw) && RawPossible(raw, ops[0]) && RawRunPossible(RawEffect(raw, ops[0]), ops[1..]))
  }

  ghost function RawFinal(raw: Raw, ops: seq<Op>): Raw
    requires RawRunPossible(raw, ops)
    decreases |ops|
  {
    if ops == [] then raw else RawFinal(RawEffect(raw, ops[0]), ops[1..])
  }

  ghost predicate SomeRelists(raw: Raw, ops: seq<Op>)
    requires RawRunPossible(raw, ops)
    decreases |ops|
  {
    ops != [] && (Relists(raw, ops[0]) || SomeRelists(RawEffect(raw, ops[0]), ops[1..]))
  }

  lemma {:induction false} RunGoesRound(raw: Raw, ops: seq<Op>, c: set<nat>)
    requires InMemory(raw) && GoesRound(raw.next, c) && RawRunPossible(raw, ops)
    ensures !Ends(RawFinal(raw, ops).next)
    decreases |ops|
  {
    hide GoesRound, Ends, RawEffect, RawPossible;
    RoundDoesNotEnd(raw.next, c);
    if ops != [] {
      EffectInMemory(raw, ops[0]);
      var d := EffectGoesRound(raw, ops[0], c);
      RunGoesRound(RawEffect(raw, ops[0]), ops[1..], d);
    }
  }

  // Over any run of create, register, unregister and destroy: the walk over
  // the allocation list still ends exactly when no device was linked that was on
  // it; then a handle is accepted exactly when the operations on it alone have
  // left it there.
  lemma {:induction false} RunTells(raw: Raw, r: Registry, ops: seq<Op>, p: nat)
    requires Refines(raw, r) && Sound(r) && RawRunPossible(raw, ops)
    ensures Ends(RawFinal(raw, ops).next) <==> !SomeRelists(raw, ops)
    ensures !SomeRelists(raw, ops) ==>
      && RunAllowed(r, ops) && Refines(RawFinal(raw, ops), Final(r, ops))
      && (RawAccepts(RawFinal(raw, ops), p) <==> StandsAfter(StandingOf(r, p), ops, p).listed)
    decreases |ops|
  {
    hide RawEffect, Effect, Ends, Finds, Sound, Spells, RawPossible, Possible, Reaches;
    if ops == [] {
      SpellsFinds(raw, r.listed, p);
      RunAccepts(r, ops, p);
    } else if Relists(raw, ops[0]) {
      RelistGoes(raw, r, ops[0], ops[1..]);
    } else {
      EffectRefines(raw, r, ops[0]);
      StandingKept(r, ops[0], p);
      RunTells(RawEffect(raw, ops[0]), Effect(r, ops[0]), ops[1..], p);
    }
  }

  lemma RelistGoes(raw: Raw, r: Registry, op: Op, rest: seq<Op>)
    requires Refines(raw, r) && RawPossible(raw, op) && Relists(raw, op) && RawRunPossible(RawEffect(raw, op), rest)
    ensures !Ends(RawFinal(RawEffect(raw, op), rest).next)
  {
    hide Spells, Finds;
    SpellsFinds(raw, r.listed, op.p);
    var k :| 0 <= k < |r.listed| && r.listed[k] == op.p;
    RelistGoesRound(raw, r.listed, k);
    EffectInMemory(raw, op);
    RunGoesRound(RawEffect(raw, op), rest, set i | 0 <= i <= k :: r.listed[i]);
  }

  // aaldev_create_device has linked the device already when it registers it,
  // unless it is asked not to: whatever is on the list, that links it again.
  lemma CreatedThenRegistered(raw: Raw, mem: nat, fails: bool)
    requires InMemory(raw) && mem != 0 && mem !in raw.live && !raw.busTaken
    ensures var ops := [CreateDevice(mem, false), Register(mem, false, false, fails)];
      RawRunPossible(raw, ops) && SomeRelists(raw, ops)
  {
    var ops := [CreateDevice(mem, false), Register(mem, false, false, fails)];
    var mid := RawEffect(raw, ops[0]);
    EffectInMemory(raw, ops[0]);
    assert Hop(mid.next, 1) == mem;
    assert FindsAt(mid.next, mem, 1);
    assert ops[1..][0] == ops[1] && ops[1..][1..] == [];
    assert Relists(mid, ops[1]);
    assert RawRunPossible(RawEffect(mid, ops[1]), []);
    assert RawRunPossible(mid, ops[1..]);
  }

  // The least of it without that: a device that the driver core has refused is
  // registered once more.
  lemma RefusedThenRegistered()
    ensures var ops := [Create(8), Register(8, false, false, true), Register(8, false, false, false)];
      RawRunPossible(NONE, ops) && SomeRelists(NONE, ops)
  {
    var ops := [Create(8), Register(8, false, false, true), Register(8, false, false, false)];
    var made, mid := RawEffect(NONE, ops[0]), RawEffect(RawEffect(NONE, ops[0]), ops[1]);
    assert Hop(mid.next, 1) == 8;
    assert FindsAt(mid.next, 8, 1);
    assert ops[1..][0] == ops[1] && ops[1..][1..][0] == ops[2] && ops[1..][1..][1..] == [];
    assert Relists(mid, ops[2]);
    assert RawRunPossible(RawEffect(mid, ops[2]), []);
    assert RawRunPossible(mid, ops[1..][1..]);
    assert RawRunPossible(made, ops[1..]);
  }
}
