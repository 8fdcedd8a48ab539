// Runs of owner calls: the invariants over all of them, the events as a replay
// of the owner set, and what one call undoes of another.
module OwnerRuns {
  import opened Options
  import opened Sequences
  import opened OwnerSpec
  import opened OwnerProofs

  // ----- the invariants of a state

  ghost predicate Devices(st: State) {
    && (forall d :: d in st.t.owners ==> IsDevice(st, d))
    && st.leaked !! st.t.recs.Keys
  }

  // The counter of a device is the number of its owners, and within its limit.
  ghost predicate CountsExact(st: State) {
    forall d :: d in st.t.owners && IsDevice(st, d) ==> st.numowners[d] == |st.t.owners[d]| <= st.maxowners[d]
  }

  ghost predicate PidsDistinct(t: Tables) {
    forall d :: d in t.owners ==> OnePidEach(t.recs, t.owners[d])
  }

  ghost predicate Sound(st: State) {
    Wf(st.t) && Devices(st)
  }

  ghost predicate Good(st: State) {
    Sound(st) && CountsExact(st) && PidsDistinct(st.t)
  }

  // The add that puts a second record for one pid on a device: its search for
  // the pid gave up because the nested validation was interrupted.
  predicate Doubles(st: State, c: Call) {
    Links(st, c) && c.op.Add? && c.lostNested && FirstWithPid(st.t.recs, st.t.owners[c.op.dev], c.op.pid).Some?
  }

  lemma EmptyIsGood()
    ensures Good(EMPTY)
  {
  }

  lemma DeviceKeepsGood(st: State, d: nat, max: Count)
    requires Good(st) && d !in st.t.owners
    ensures Good(WithDevice(st, d, max))
  {
    hide Indexed, CountsExact, PidsDistinct;
    IndexedGrown(st.t.owners, DeviceOf(st.t.recs), d);
    DeviceKeepsCounts(st, d, max);
    DeviceKeepsPids(st.t, d);
  }

  lemma DeviceKeepsCounts(st: State, d: nat, max: Count)
    requires CountsExact(st) && d !in st.t.owners && forall e :: e in st.t.owners ==> IsDevice(st, e)
    ensures CountsExact(WithDevice(st, d, max))
  {
  }

  lemma DeviceKeepsPids(t: Tables, d: nat)
    requires PidsDistinct(t)
    ensures PidsDistinct(t.(owners := t.owners[d := []]))
  {
  }

  lemma SessionsKeepGood(st: State, id: nat, context: nat)
    requires Good(st)
    ensures id !in st.t.devlists ==> Good(WithSessionList(st, id))
    ensures Elsewhere(id) !in st.t.sess ==> Good(WithSession(st, id, context))
  {
    if id !in st.t.devlists {
      IndexedGrown(st.t.devlists, SlistOf(st.t.recs), id);
    }
  }

  // ----- one call

  lemma VerdictFits(t: Tables, num: Count, max: Count, c: Call)
    requires Wf(t) && c.op.dev in t.owners && Decide(t, num, max, c).Link?
    ensures Works(c.op)
    ensures c.op.Add? ==> !AtLimit(num, max) && (c.lostNested || !HasPid(t.recs, t.owners[c.op.dev], c.op.pid))
    ensures !c.op.Add? ==> var r := Decide(t, num, max, c).rec;
      r in t.owners[c.op.dev] && r in t.recs && t.recs[r].device == c.op.dev && t.recs[r].pid == c.op.pid
  {
    OwnersKnown(t, c.op.dev);
    var i := FoundIsFirst(t.recs, t.owners[c.op.dev], c.op.pid);
  }

  lemma LinkedKeys(t: Tables, op: Op, r: nat)
    requires Linkable(t, op, r)
    ensures Linked(t, op, r).owners.Keys == t.owners.Keys && Linked(t, op, r).recs.Keys <= t.recs.Keys + {r}
    ensures !op.Add? ==> Linked(t, op, r).recs.Keys <= t.recs.Keys
  {
  }

  lemma StepKeepsSound(st: State, c: Call)
    requires Sound(st) && Allowed(st, c)
    ensures Sound(Step(st, c).0)
  {
    if Links(st, c) {
      LinkedWf(st.t, c.op, Verdict(st, c).rec);
    }
  }

  lemma NumbersStayExact(t: Tables, num: Count, max: Count, c: Call)
    requires Wf(t) && PidsDistinct(t) && c.op.dev in t.owners && Decide(t, num, max, c).Link?
    requires num == |t.owners[c.op.dev]| <= max
    ensures Bumped(c.op, num) == |OwnersAfter(c.op, t.owners[c.op.dev], Decide(t, num, max, c).rec)| <= max
  {
    var s, r := t.owners[c.op.dev], Decide(t, num, max, c).rec;
    OwnersKnown(t, c.op.dev);
    CounterNeverSaturates(t.recs, s);
    VerdictFits(t, num, max, c);
    WithoutLength(s, r);
  }

  lemma StepKeepsCounts(st: State, c: Call)
    requires Good(st) && Allowed(st, c)
    ensures CountsExact(Step(st, c).0)
  {
    if Links(st, c) {
      var d := c.op.dev;
      NumbersStayExact(st.t, st.numowners[d], st.maxowners[d], c);
      LinkedOwners(st.t, c.op, Verdict(st, c).rec);
    }
  }

  // The tables after list work keep one record a pid, unless a pid is added that there is.
  lemma LinkedKeepsPids(t: Tables, op: Op, r: nat)
    requires Wf(t) && PidsDistinct(t) && Linkable(t, op, r)
    ensures PidsDistinct(Linked(t, op, r)) <==> !(op.Add? && HasPid(t.recs, t.owners[op.dev], op.pid))
  {
    hide Wf, Linked, Linkable, HasPid, OnePidEach;
    LinkedOwners(t, op, r);
    var after := Linked(t, op, r);
    forall d | d in t.owners
      ensures OnePidEach(after.recs, after.owners[d]) <==> !(op.Add? && d == op.dev && HasPid(t.recs, t.owners[d], op.pid))
    {
      OwnersKnown(t, d);
      LinkedOnePid(t, op, r, d);
    }
    LinkedDevice(t, op, r);
  }

  lemma LinkedDevice(t: Tables, op: Op, r: nat)
    requires Linkable(t, op, r)
    ensures op.dev in t.owners
  {
  }

  lemma StepKeepsPidsUnlessDoubled(st: State, c: Call)
    requires Good(st) && Allowed(st, c)
    ensures PidsDistinct(Step(st, c).0.t) <==> !Doubles(st, c)
  {
    hide Wf, PidsDistinct, Linked, CountsExact, Devices, HasPid;
    if Links(st, c) {
      var dev := c.op.dev;
      LinkedKeepsPids(st.t, c.op, Verdict(st, c).rec);
      VerdictFits(st.t, st.numowners[dev], st.maxowners[dev], c);
      var i := FoundIsFirst(st.t.recs, st.t.owners[dev], c.op.pid);
    }
  }

  // The least that has to happen for a pid to be doubled: device 1 gets pid 5
  // twice, the search of the second add having been interrupted.
  function OneDevice(): State {
    WithSessionList(WithDevice(EMPTY, 1, 2), 9)
  }

  function AddFive(lostNested: bool, mem: nat): Call {
    Call(Op.Add(1, 5, 0, 0, 9), false, false, lostNested, false, Some(mem))
  }

  lemma InterruptedSearchDoubles()
    ensures var st, first, second := OneDevice(), AddFive(false, 100), AddFive(true, 101);
      && Good(st) && RunAllowed(st, [first, second])
      && Doubles(Step(st, first).0, second) && !Good(Final(st, [first, second]))
  {
    hide Good, Doubles, Step, Allowed;
    EmptyIsGood();
    DeviceKeepsGood(EMPTY, 1, 2);
    SessionsKeepGood(WithDevice(EMPTY, 1, 2), 9, 0);
    SecondAddDoubles();
    hide OneDevice, AddFive;
    TwoCalls(OneDevice(), AddFive(false, 100), AddFive(true, 101));
  }

  lemma TwoCalls(st: State, first: Call, second: Call)
    requires Good(st) && Allowed(st, first) && !Doubles(st, first)
    requires Allowed(Step(st, first).0, second) && Doubles(Step(st, first).0, second)
    ensures RunAllowed(st, [first, second]) && !Good(Final(st, [first, second]))
  {
    hide Good, Doubles, Step, Allowed;
    StepKeepsGood(st, first);
    StepKeepsGood(Step(st, first).0, second);
    var both, rest, mid := [first, second], [second], Step(st, first).0;
    assert both[0] == first && both[1..] == rest && rest[0] == second && rest[1..] == [];
    assert RunAllowed(Step(mid, second).0, []);
    assert RunAllowed(mid, rest);
    assert Final(mid, rest) == Final(Step(mid, second).0, []);
  }

  lemma SecondAddDoubles()
    ensures var st, first, second := OneDevice(), AddFive(false, 100), AddFive(true, 101);
      Allowed(st, first) && !Doubles(st, first) && Allowed(Step(st, first).0, second) && Doubles(Step(st, first).0, second)
  {
    var mid := Step(OneDevice(), AddFive(false, 100)).0;
    assert mid.t.owners[1] == [100] && mid.t.recs[100].pid == 5;
  }

  // A call keeps a good state good exactly when it does not double a pid.
  lemma StepKeepsGood(st: State, c: Call)
    requires Good(st) && Allowed(st, c)
    ensures Good(Step(st, c).0) <==> !Doubles(st, c)
  {
    StepKeepsSound(st, c);
    StepKeepsCounts(st, c);
    StepKeepsPidsUnlessDoubled(st, c);
  }

  // ----- runs

  predicate RunAllowed(st: State, cs: seq<Call>)
    decreases |cs|
  {
    cs == [] || (Allowed(st, cs[0]) && RunAllowed(Step(st, cs[0]).0, cs[1..]))
  }

  function Final(st: State, cs: seq<Call>): State
    requires RunAllowed(st, cs)
    decreases |cs|
  {
    if cs == [] then st else Final(Step(st, cs[0]).0, cs[1..])
  }

  predicate NoneDoubles(st: State, cs: seq<Call>)
    requires RunAllowed(st, cs)
    decreases |cs|
  {
    cs == [] || (!Doubles(st, cs[0]) && NoneDoubles(Step(st, cs[0]).0, cs[1..]))
  }

  // Whatever is interrupted, the lists stay sound over every run.
  lemma {:induction false} RunKeepsSound(st: State, cs: seq<Call>)
    requires Sound(st) && RunAllowed(st, cs)
    ensures Sound(Final(st, cs))
    decreases |cs|
  {
    if cs != [] {
      StepKeepsSound(st, cs[0]);
      RunKeepsSound(Step(st, cs[0]).0, cs[1..]);
    }
  }

  lemma {:induction false} RunKeepsGood(st: State, cs: seq<Call>)
    requires Good(st) && RunAllowed(st, cs) && NoneDoubles(st, cs)
    ensures Good(Final(st, cs))
    decreases |cs|
  {
    if cs != [] {
      StepKeepsGood(st, cs[0]);
      RunKeepsGood(Step(st, cs[0]).0, cs[1..]);
    }
  }

  // ----- events

  ghost function PidsIn(recs: map<nat, Record>, s: seq<nat>): set<Pid> {
    set r | r in s && r in recs :: recs[r].pid
  }

  ghost function Pids(t: Tables, d: nat): set<Pid>
    requires d in t.owners
  {
    PidsIn(t.recs, t.owners[d])
  }

  // What a listener makes of one event, and of all events, of a device.
  function Noted(pids: set<Pid>, e: Event): set<Pid> {
    match e
    case OwnerAdded(p) => pids + {p}
    case OwnerRemoved(p) => pids - {p}
    case OwnerUpdated(_) => pids
    case DevRemoved => pids
  }

  function Replay(pids: set<Pid>, es: seq<Event>): set<Pid> {
    if es == [] then pids else Noted(Replay(pids, es[..|es| - 1]), es[|es| - 1])
  }

  // An event makes sense to a listener that knows of these owners: an owner is
  // added that was none, removed or updated that was one, and a device is
  // removed only when it has none.
  predicate MakesSense(pids: set<Pid>, e: Event) {
    match e
    case OwnerAdded(p) => p !in pids
    case OwnerRemoved(p) => p in pids
    case OwnerUpdated(p) => p in pids
    case DevRemoved => pids == {}
  }

  ghost predicate Sensible(pids: set<Pid>, es: seq<Event>) {
    forall i :: 0 <= i < |es| ==> MakesSense(Replay(pids, es[..i]), es[i])
  }

  lemma NoEvents(pids: set<Pid>)
    ensures Replay(pids, []) == pids && Sensible(pids, [])
  {
  }

  // The one event of a call that does its work; refused calls send nothing.
  function EventsOf(st: State, c: Call, d: nat): seq<Event> {
    if d == c.op.dev && (Links(st, c) || (Enters(st, c) && Verdict(st, c).Announce?))
    then Told(st.handler, [], c.op) else []
  }

  lemma StepLogs(st: State, c: Call, d: nat)
    requires Allowed(st, c) && d in st.log
    ensures d in Step(st, c).0.log && Step(st, c).0.log[d] == st.log[d] + EventsOf(st, c, d)
    ensures Step(st, c).0.handler == st.handler
  {
  }

  lemma PidsAdded(recs: map<nat, Record>, s: seq<nat>, r: nat, rec: Record)
    requires r !in recs && forall q :: q in s ==> q in recs
    ensures PidsIn(recs[r := rec], [r] + s) == PidsIn(recs, s) + {rec.pid}
  {
    assert forall q :: q in [r] + s <==> q == r || q in s;
  }

  lemma PidsRemoved(recs: map<nat, Record>, s: seq<nat>, r: nat)
    requires Distinct(s) && OnePidEach(recs, s) && r in s && forall q :: q in s ==> q in recs
    ensures PidsIn(recs - {r}, Without(s, r)) == PidsIn(recs, s) - {recs[r].pid}
  {
    var t := Without(s, r);
    assert forall q :: q in t <==> q in s && q != r by {
      WithoutDistinct(s, r);
      WithoutWithin(s, r);
    }
    forall p | p in PidsIn(recs, s) && p != recs[r].pid
      ensures p in PidsIn(recs - {r}, t)
    {
      var q :| q in s && q in recs && recs[q].pid == p;
      assert q in t && q in recs - {r};
    }
  }

  lemma PidsKept(recs: map<nat, Record>, after: map<nat, Record>, s: seq<nat>)
    requires forall q :: q in s ==> q in recs && q in after && after[q].pid == recs[q].pid
    ensures PidsIn(after, s) == PidsIn(recs, s)
  {
  }

  lemma LinkedPidSet(t: Tables, op: Op, r: nat, d: nat)
    requires Linkable(t, op, r) && d in t.owners
    requires Linked(t, op, r).owners == t.owners[op.dev := OwnersAfter(op, t.owners[op.dev], r)]
    requires OnePidEach(t.recs, t.owners[d]) && Distinct(t.owners[d])
    requires forall q :: q in t.owners[d] ==> q in t.recs && t.recs[q].device == d
    requires !op.Add? ==> r in t.owners[op.dev]
    ensures Pids(Linked(t, op, r), d) == if d == op.dev then Noted(Pids(t, d), Sent(op)) else Pids(t, d)
  {
    if op.Update? || d != op.dev {
      PidsKept(t.recs, Linked(t, op, r).recs, t.owners[d]);
    } else if op.Add? {
      PidsAdded(t.recs, t.owners[d], r, Record(op.pid, op.dev, op.context, op.slist));
    } else {
      PidsRemoved(t.recs, t.owners[d], r);
    }
  }

  lemma StepPids(st: State, c: Call, d: nat)
    requires Good(st) && Allowed(st, c) && d in st.t.owners
    ensures d in Step(st, c).0.t.owners
    ensures Pids(Step(st, c).0.t, d) ==
      if d == c.op.dev && Links(st, c) then Noted(Pids(st.t, d), Sent(c.op)) else Pids(st.t, d)
  {
    if Links(st, c) {
      var dev, r := c.op.dev, Verdict(st, c).rec;
      VerdictFits(st.t, st.numowners[dev], st.maxowners[dev], c);
      OwnersKnown(st.t, d);
      LinkedOwners(st.t, c.op, r);
      LinkedPidSet(st.t, c.op, r, d);
    }
  }

  lemma StepReplays(st: State, c: Call, d: nat, start: set<Pid>, es: seq<Event>)
    requires Good(st) && Allowed(st, c) && st.handler && d in st.t.owners && !Doubles(st, c)
    requires Pids(st.t, d) == Replay(start, es) && Sensible(start, es)
    ensures var after, more := Step(st, c).0, es + EventsOf(st, c, d);
      d in after.t.owners && Pids(after.t, d) == Replay(start, more) && Sensible(start, more)
  {
    hide Good, Allowed, Step, Links, Enters, Replay, Sensible, Pids, Told;
    StepPids(st, c, d);
    var more := es + EventsOf(st, c, d);
    OneEvent(st, c, d);
    if EventsOf(st, c, d) == [] {
      assert more == es;
    } else {
      ReplayOneMore(start, es, Sent(c.op));
    }
  }

  lemma ReplayOneMore(start: set<Pid>, es: seq<Event>, e: Event)
    ensures Replay(start, es + [e]) == Noted(Replay(start, es), e)
    ensures Sensible(start, es) && MakesSense(Replay(start, es), e) ==> Sensible(start, es + [e])
  {
    assert (es + [e])[..|es|] == es;
    assert forall i :: 0 <= i < |es| ==> (es + [e])[..i] == es[..i];
  }

  // What a call on d sends when there is a handler, and what it means.
  lemma OneEvent(st: State, c: Call, d: nat)
    requires Good(st) && Allowed(st, c) && st.handler && d in st.t.owners && !Doubles(st, c)
    ensures EventsOf(st, c, d) == [] || (d == c.op.dev && (Works(c.op) || c.op.RemoveDevice?) && EventsOf(st, c, d) == [Sent(c.op)])
    ensures d == c.op.dev && Links(st, c) ==> EventsOf(st, c, d) == [Sent(c.op)]
    ensures EventsOf(st, c, d) != [] ==> MakesSense(Pids(st.t, d), Sent(c.op))
    ensures EventsOf(st, c, d) != [] && !Links(st, c) ==> Sent(c.op) == DevRemoved
  {
    hide Linked, Linkable, Bumped, Indexed;
    if d == c.op.dev && Enters(st, c) && Verdict(st, c).Announce? {
      assert st.numowners[d] == |st.t.owners[d]|;
    }
    if d == c.op.dev && Links(st, c) {
      VerdictFits(st.t, st.numowners[d], st.maxowners[d], c);
      PidsAreOwners(st.t, d, c.op.pid);
      var i := FoundIsFirst(st.t.recs, st.t.owners[d], c.op.pid);
    }
  }

  // While a handler is installed, replaying what it was sent about a device
  // over the owners at the start gives the owners at the end, and every event
  // made sense when it was sent.
  lemma {:induction false} RunReplays(st: State, cs: seq<Call>, d: nat, start: set<Pid>, es: seq<Event>)
    returns (more: seq<Event>)
    requires Good(st) && RunAllowed(st, cs) && NoneDoubles(st, cs) && st.handler && d in st.t.owners
    requires Pids(st.t, d) == Replay(start, es) && Sensible(start, es)
    ensures var after := Final(st, cs);
      && d in after.t.owners && d in after.log && after.log[d] == st.log[d] + more
      && Pids(after.t, d) == Replay(start, es + more)
      && Sensible(start, es + more)
    decreases |cs|
  {
    assert IsDevice(st, d);
    if cs == [] {
      more := [];
      assert es + more == es;
    } else {
      var next, first := Step(st, cs[0]).0, EventsOf(st, cs[0], d);
      StepKeepsGood(st, cs[0]);
      StepLogs(st, cs[0], d);
      StepReplays(st, cs[0], d, start, es);
      var rest := RunReplays(next, cs[1..], d, start, es + first);
      more := first + rest;
      ConcatAssoc(es, first, rest);
      ConcatAssoc(st.log[d], first, rest);
    }
  }

  // A call that does no work leaves lists, counts and events alone; the most it
  // can do is leave its device's semaphore taken and lose a record.
  lemma RefusedChangesNothing(st: State, c: Call)
    requires Allowed(st, c) && !Links(st, c) && !(Enters(st, c) && Verdict(st, c).Announce?)
    ensures var after := Step(st, c).0;
      && after == st.(stuck := after.stuck, leaked := after.leaked)
      && (after.stuck == st.stuck && after.leaked == st.leaked <==> !Strands(st, c))
      && after.stuck == st.stuck + (if Strands(st, c) then {c.op.dev} else {})
      && after.leaked == st.leaked + (if Strands(st, c) && c.op.Add? then {Verdict(st, c).rec} else {})
  {
  }

  // The call returns with the semaphore of its device still taken.
  predicate Strands(st: State, c: Call) {
    Enters(st, c) && Verdict(st, c).Link? && c.lostList
  }

  // An add to a free device, interrupted in its last wait: nothing happens but
  // that the semaphore stays taken and the record is lost.
  lemma InterruptedAddStrands()
    ensures var st, c := OneDevice(), AddFive(false, 100).(lostList := true);
      && Allowed(st, c) && Strands(st, c)
      && Step(st, c) == (st.(stuck := {1}, leaked := {100}), Code(INTERRUPTED))
  {
    var st, c := OneDevice(), AddFive(false, 100).(lostList := true);
    assert st.stuck + {1} == {1} && st.leaked + {100} == {100};
    assert Enters(st, c) && Verdict(st, c) == Link(100);
  }

  // Without a handler nothing is logged, over any run.
  lemma {:induction false} RunWithoutHandler(st: State, cs: seq<Call>)
    requires RunAllowed(st, cs) && !st.handler
    ensures Final(st, cs).log == st.log && !Final(st, cs).handler
    decreases |cs|
  {
    if cs != [] {
      var next := Step(st, cs[0]).0;
      assert next.log == st.log;
      RunWithoutHandler(next, cs[1..]);
    }
  }

  // ----- what the answers tell

  // With no wait interrupted, the answers tell exactly who owns the device.
  lemma AnswersTellOwners(st: State, c: Call)
    requires Sound(st) && Allowed(st, c) && Enters(st, c) && !c.lostNested && !c.lostList && !c.op.RemoveDevice?
    ensures var owns, reply, full := c.op.pid in Pids(st.t, c.op.dev), Step(st, c).1,
                                     AtLimit(st.numowners[c.op.dev], st.maxowners[c.op.dev]);
      && (c.op.IsOwner? ==> reply == Code(if owns then OK else NOT_OWNER))
      && (c.op.Remove? ==> reply == Code(if owns then 1 else NOT_OWNER))
      && (c.op.Update? ==> reply == Code(if owns then OK else NOT_OWNER))
      && (c.op.Add? ==> (reply == Code(MAX_OWNERS) <==> full))
      && (c.op.Add? ==> (reply == Code(DUP_OWNER) <==> !full && owns))
      && (c.op.Add? ==> (reply == Code(OK) <==> !full && !owns && c.mem.Some?))
      && (c.op.GetSession? ==> reply.Pointer? && (reply.session.Some? <==> owns))
  {
    hide Linked, Wf, Bumped, Told, AtLimit, Linkable;
    var t, d := st.t, c.op.dev;
    var i := FoundIsFirst(t.recs, t.owners[d], c.op.pid);
    PidsAreOwners(t, d, c.op.pid);
  }

  lemma PidsAreOwners(t: Tables, d: nat, pid: Pid)
    requires d in t.owners
    ensures pid in Pids(t, d) <==> HasPid(t.recs, t.owners[d], pid)
  {
  }

  // ----- what a remove undoes

  lemma NowhereListed(lists: map<nat, seq<nat>>, of: map<nat, nat>, r: nat)
    requires Indexed(lists, of) && r !in of
    ensures TakenOff(lists, r) == lists
  {
    forall k | k in lists
      ensures Without(lists[k], r) == lists[k]
    {
      WithoutAbsent(lists[k], r);
    }
  }

  lemma TakenOffAdded(lists: map<nat, seq<nat>>, of: map<nat, nat>, k: nat, r: nat)
    requires Indexed(lists, of) && r !in of && k in lists
    ensures TakenOff(lists[k := [r] + lists[k]], r) == lists
  {
    NowhereListed(lists, of, r);
    assert ([r] + lists[k])[1..] == lists[k];
    forall j | j in lists && j != k
      ensures Without(lists[j], r) == lists[j]
    {
      assert Without(lists[j], r) == TakenOff(lists, r)[j];
    }
  }

  lemma RemoveUndoesAddOfTables(t: Tables, add: Op, remove: Op, r: nat)
    requires Wf(t) && add.Add? && Linkable(t, add, r) && remove == Op.Remove(add.dev, add.pid)
    ensures Linkable(Linked(t, add, r), remove, r)
    ensures Linked(Linked(t, add, r), remove, r) == t
  {
    TakenOffAdded(t.owners, DeviceOf(t.recs), add.dev, r);
    TakenOffAdded(t.devlists, SlistOf(t.recs), add.slist, r);
    var u := Linked(Linked(t, add, r), remove, r);
    assert u.recs == t.recs && u.sess == t.sess;
  }

  // An add followed by a remove of the same pid, neither interrupted, answers
  // 1 and leaves every list, record, session and count as it was.
  lemma RemoveUndoesAdd(st: State, add: Call, remove: Call)
    requires Good(st) && Allowed(st, add) && Links(st, add) && add.op.Add? && !Doubles(st, add)
    requires remove.op == Op.Remove(add.op.dev, add.op.pid)
    requires !remove.lostValid && !remove.lostSem && !remove.lostNested && !remove.lostList
    ensures var mid := Step(st, add).0;
      && Allowed(mid, remove) && Links(mid, remove)
      && Step(mid, remove).1 == Code(1)
      && Step(mid, remove).0.t == st.t && Step(mid, remove).0.numowners == st.numowners
      && (st.handler ==>
        Step(mid, remove).0.log[add.op.dev] == st.log[add.op.dev] + [OwnerAdded(add.op.pid)] + [OwnerRemoved(add.op.pid)])
  {
    hide Good, Doubles;
    var d, r, mid := add.op.dev, Verdict(st, add).rec, Step(st, add).0;
    CountBelowTop(st, d);
    RemoveUndoesAddOfTables(st.t, add.op, remove.op, r);
    assert mid.t.owners[d] == [r] + st.t.owners[d];
    assert Verdict(mid, remove) == Link(r);
    assert mid.numowners[d := st.numowners[d]] == st.numowners;
  }

  lemma CountBelowTop(st: State, d: nat)
    requires Good(st) && d in st.t.owners
    ensures Wf(st.t) && d in st.numowners && st.numowners[d] == |st.t.owners[d]| < UNLIMITED
  {
    OwnersKnown(st.t, d);
    CounterNeverSaturates(st.t.recs, st.t.owners[d]);
  }

  // ----- the session in a record

  // The call takes the owner record r off its lists and frees it, and the
  // session in it.
  predicate FreesRecord(st: State, c: Call, r: nat) {
    Links(st, c) && c.op.Remove? && Verdict(st, c).rec == r
  }

  predicate SomeFrees(st: State, cs: seq<Call>, r: nat)
    requires RunAllowed(st, cs)
    decreases |cs|
  {
    cs != [] && (FreesRecord(st, cs[0], r) || SomeFrees(Step(st, cs[0]).0, cs[1..], r))
  }

  lemma StepKeepsSession(st: State, c: Call, r: nat)
    requires Allowed(st, c) && Embedded(r) in st.t.sess
    ensures Embedded(r) in Step(st, c).0.t.sess <==> !FreesRecord(st, c, r)
  {
    hide Decide;
  }

  // After the first k calls the session in r is no longer in memory.
  ghost predicate GoneAfter(st: State, cs: seq<Call>, r: nat, k: nat) {
    k <= |cs| && RunAllowed(st, cs[..k]) && Embedded(r) !in Final(st, cs[..k]).t.sess
  }

  // A session that aaldev_getOwnerSession has handed out is good at every
  // moment of a run exactly when no call of the run removes its owner.
  lemma {:induction false} SessionStays(st: State, cs: seq<Call>, r: nat)
    requires RunAllowed(st, cs) && Embedded(r) in st.t.sess
    ensures SomeFrees(st, cs, r) <==> exists k: nat :: GoneAfter(st, cs, r, k)
    decreases |cs|
  {
    hide Step, Allowed, FreesRecord;
    if cs != [] {
      var next, rest := Step(st, cs[0]).0, cs[1..];
      StepKeepsSession(st, cs[0], r);
      forall k: nat | 0 < k <= |cs|
        ensures GoneAfter(st, cs, r, k) <==> GoneAfter(next, rest, r, k - 1)
      {
        assert cs[..k][0] == cs[0] && cs[..k][1..] == rest[..k - 1];
      }
      if FreesRecord(st, cs[0], r) {
        assert rest[..0] == [];
        assert GoneAfter(next, rest, r, 0);
        assert GoneAfter(st, cs, r, 1);
      } else {
        SessionStays(next, rest, r);
        if k: nat :| GoneAfter(next, rest, r, k) {
          assert GoneAfter(st, cs, r, k + 1);
        }
        assert !GoneAfter(st, cs, r, 0);
      }
    }
  }

  // ----- devices destroyed or initialised anew with owners

  // The memory of a device may be given back exactly when nobody owns it.
  lemma DestroyKeepsSound(st: State, d: nat)
    requires Good(st) && d in st.t.owners
    ensures Wf(WithoutDevice(st, d).t) <==> st.t.owners[d] == []
    ensures st.t.owners[d] == [] ==> Good(WithoutDevice(st, d))
  {
    hide Wf;
    ShrunkWf(st.t, d);
    if st.t.owners[d] == [] {
      PidsShrunk(st.t, d);
    }
  }

  lemma ShrunkWf(t: Tables, d: nat)
    requires Wf(t) && d in t.owners
    ensures Wf(t.(owners := t.owners - {d})) <==> t.owners[d] == []
  {
    hide Indexed;
    IndexedShrunk(t.owners, DeviceOf(t.recs), d);
  }

  lemma IndexedShrunk(lists: map<nat, seq<nat>>, of: map<nat, nat>, k: nat)
    requires Indexed(lists, of) && k in lists
    ensures Indexed(lists - {k}, of) <==> lists[k] == []
  {
    if lists[k] == [] {
      forall r | r in of
        ensures OnList(lists - {k}, of, r)
      {
        assert OnList(lists, of, r);
      }
    } else {
      assert lists[k][0] in of && !OnList(lists - {k}, of, lists[k][0]);
    }
  }

  lemma PidsShrunk(t: Tables, d: nat)
    requires PidsDistinct(t)
    ensures PidsDistinct(t.(owners := t.owners - {d}))
  {
  }

  // aaldev_remove tells: not interrupted, it answers 1 exactly when nobody owns
  // the device. aalbus_unregister_device does not look at the answer.
  lemma UnregisterNeedsTheAnswer(st: State, c: Call)
    requires Good(st) && Allowed(st, c) && Enters(st, c) && c.op.RemoveDevice?
    ensures var (after, answer) := Step(st, c);
      Wf(WithoutDevice(after, c.op.dev).t) <==> answer == Code(1)
  {
    StepKeepsGood(st, c);
    DestroyKeepsSound(Step(st, c).0, c.op.dev);
    assert st.numowners[c.op.dev] == |st.t.owners[c.op.dev]|;
  }

  // aaldev_init of a device that is in use already, as a second registration
  // makes before it is refused, is harmless exactly when nobody owns the device.
  lemma ReinitKeepsSound(st: State, d: nat)
    requires Good(st) && d in st.t.owners
    ensures d !in Reinit(st, d).stuck
    ensures Wf(Reinit(st, d).t) <==> st.t.owners[d] == []
    ensures CountsExact(Reinit(st, d)) <==> st.t.owners[d] == []
    ensures st.t.owners[d] == [] ==> Good(Reinit(st, d))
  {
    hide Wf;
    EmptiedWf(st.t, d);
    if st.t.owners[d] == [] {
      assert st.t.owners[d := []] == st.t.owners;
    } else {
      assert Reinit(st, d).t.owners[d] == [];
    }
  }

  lemma EmptiedWf(t: Tables, d: nat)
    requires Wf(t) && d in t.owners
    ensures Wf(t.(owners := t.owners[d := []])) <==> t.owners[d] == []
  {
    hide Indexed;
    IndexedEmptied(t.owners, DeviceOf(t.recs), d);
  }

  lemma IndexedEmptied(lists: map<nat, seq<nat>>, of: map<nat, nat>, k: nat)
    requires Indexed(lists, of) && k in lists
    ensures Indexed(lists[k := []], of) <==> lists[k] == []
  {
    if lists[k] == [] {
      assert lists[k := []] == lists;
    } else {
      assert lists[k][0] in of && of[lists[k][0]] == k && !OnList(lists[k := []], of, lists[k][0]);
    }
  }

  // A record on no owner list, still on its session's list.
  ghost predicate Stranded(t: Tables, r: nat, rec: Record) {
    && r in t.recs && t.recs[r] == rec
    && (forall d :: d in t.owners ==> r !in t.owners[d])
    && rec.slist in t.devlists && r in t.devlists[rec.slist]
  }

  // Every owner of a device that is destroyed or initialised anew ends up like that.
  lemma OwnersStranded(st: State, d: nat, r: nat)
    requires Wf(st.t) && d in st.t.owners && r in st.t.owners[d]
    ensures r in st.t.recs && Stranded(WithoutDevice(st, d).t, r, st.t.recs[r])
    ensures Stranded(Reinit(st, d).t, r, st.t.recs[r])
  {
    OwnersKnown(st.t, d);
    assert OnList(st.t.devlists, SlistOf(st.t.recs), r);
    forall e | e in st.t.owners && e != d
      ensures r !in st.t.owners[e]
    {
      OwnersKnown(st.t, e);
    }
  }

  lemma RecordIsListed(t: Tables, r: nat)
    requires Wf(t) && r in t.recs
    ensures t.recs[r].device in t.owners && r in t.owners[t.recs[r].device]
  {
    assert OnList(t.owners, DeviceOf(t.recs), r);
  }

  // With such a record about, the lists are not sound.
  lemma StrandedIsUnsound(t: Tables, r: nat, rec: Record)
    requires Stranded(t, r, rec)
    ensures !Wf(t)
  {
    if Wf(t) {
      RecordIsListed(t, r);
    }
  }

  lemma LinkedKeepsStranded(t: Tables, c: Call, q: nat, r: nat, rec: Record)
    requires Linkable(t, c.op, q) && Stranded(t, r, rec)
    requires Searched(t, c) == Link(q)
    ensures Stranded(Linked(t, c.op, q), r, rec)
  {
    var i := FoundIsFirst(t.recs, t.owners[c.op.dev], c.op.pid);
    WithoutKeepsOthers(t.devlists[rec.slist], q);
    forall d | d in t.owners
      ensures r !in Without(t.owners[d], q)
    {
      WithoutWithin(t.owners[d], q);
    }
  }

  // No call takes such a record off its session's list or frees it.
  lemma StepKeepsStranded(st: State, c: Call, r: nat, rec: Record)
    requires Stranded(st.t, r, rec) && Allowed(st, c)
    ensures Stranded(Step(st, c).0.t, r, rec)
  {
    hide Stranded, Linked, Linkable, Searched;
    if Links(st, c) {
      LinkedKeepsStranded(st.t, c, Verdict(st, c).rec, r, rec);
    }
  }

  lemma {:induction false} StrandedForGood(st: State, cs: seq<Call>, r: nat, rec: Record)
    requires Stranded(st.t, r, rec) && RunAllowed(st, cs)
    ensures Stranded(Final(st, cs).t, r, rec)
    decreases |cs|
  {
    hide Stranded, Step, Allowed;
    if cs != [] {
      StepKeepsStranded(st, cs[0], r, rec);
      StrandedForGood(Step(st, cs[0]).0, cs[1..], r, rec);
    }
  }
}
