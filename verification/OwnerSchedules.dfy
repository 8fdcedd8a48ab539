// Every serial order of owner calls can come about: the threads may make them
// one after the other, each from its first acquire to its return.
module OwnerSchedules {
  import opened Options
  import opened Sequences
  import opened OwnerSpec
  import opened OwnerRuns
  import opened OwnerThreads

  // Nobody is in a call and nobody has a lock.
  ghost predicate Quiet(s: Machine) {
    AllIdle(s) && s.holder == map[] && s.alloc.None? && s.list.None?
  }

  // s with thread i alone in its call, st being what is shared by now.
  function At(s: Machine, i: nat, stage: Stage, st: State): Machine
    requires i < |s.threads| && |s.threads[i].done| < |s.threads[i].prog|
  {
    var th := s.threads[i];
    Machine(s.threads[i := th.(at := stage)], st,
            if stage.HasDevice() then map[th.Op().dev := i] else map[],
            if stage.HasAlloc() then Some(i) else None,
            if stage.InList? then Some(i) else None)
  }

  // s when thread i has returned from its call.
  function Back(s: Machine, i: nat, st: State, reply: Reply): Machine
    requires i < |s.threads|
  {
    s.(threads := s.threads[i := s.threads[i].Return(reply)], st := st)
  }

  // What is shared when the call c has done its list work, and its counting, too.
  function Listed(st: State, c: Call): State
    requires Allowed(st, c) && Links(st, c)
  {
    st.(t := Linked(st.t, c.op, Verdict(st, c).rec))
  }

  function Numbered(st: State, c: Call): State
    requires Allowed(st, c) && Links(st, c)
  {
    Listed(st, c).(numowners := st.numowners[c.op.dev := Bumped(c.op, st.numowners[c.op.dev])])
  }

  // The thread is at this stage of the call c made at st, with now shared by now.
  predicate Underway(st: State, c: Call, stage: Stage, now: State)
    requires Allowed(st, c)
  {
    match stage
    case Idle => now == st
    case Validating => !c.lostValid && now == st
    case WaitDevice => Reaches(st, c) && now == st
    case Inside => Enters(st, c) && now == st
    case WaitNested => Searches(st, c) && now == st
    case Nested => Searches(st, c) && now == st && !c.lostNested
    case Searching(nested) => Searches(st, c) && now == st && nested == c.lostNested
    case WaitList(nested, r) =>
      Enters(st, c) && Verdict(st, c) == Link(r) && now == st && nested == c.lostNested
    case InList(nested, r) =>
      Links(st, c) && Verdict(st, c) == Link(r) && now == st && nested == c.lostNested
    case Counting => Links(st, c) && now == Listed(st, c)
    case Telling =>
      || (Links(st, c) && now == Numbered(st, c))
      || (Enters(st, c) && Verdict(st, c).Announce? && now == st)
    case Leaving(reply) => Enters(st, c) && (now, reply) == Step(st, c)
  }

  // The call gets as far as searching the owner list.
  predicate Searches(st: State, c: Call) {
    && Enters(st, c) && !c.op.RemoveDevice?
    && !(c.op.Add? && AtLimit(st.numowners[c.op.dev], st.maxowners[c.op.dev]))
  }

  // The next act of the thread, with the fate that c gives it.
  function NextAct(st: State, c: Call, stage: Stage, i: nat): Act
    requires Allowed(st, c)
  {
    match stage
    case Idle => Act(i, c.lostValid, None)
    case WaitDevice => Act(i, c.lostSem, None)
    case WaitNested => Act(i, c.lostNested, None)
    case Searching(_) => Act(i, false, if c.op.Add? && Enters(st, c) && Verdict(st, c).Link? then c.mem else None)
    case WaitList(_, _) => Act(i, c.lostList, None)
    case _ => Act(i, false, None)
  }

  // The device of c is one aaldev_valid knows all about.
  predicate Known(st: State, c: Call) {
    c.op.dev in st.valid ==> IsDevice(st, c.op.dev)
  }

  // Where the call goes on: at this stage with this shared, or back.
  datatype Onward = Return | On(stage: Stage, now: State)

  ghost predicate GoesOn(s: Machine, i: nat, c: Call, stage: Stage, now: State, next: Onward)
    requires i < |s.threads| && |s.threads[i].done| < |s.threads[i].prog| && Allowed(s.st, c)
  {
    var from, a := At(s, i, stage, now), NextAct(s.st, c, stage, i);
    && Can(from, a)
    && match next
      case Return => Do(from, a) == Back(s, i, Step(s.st, c).0, Step(s.st, c).1)
      case On(onto, shared) =>
        Rank(onto) < Rank(stage) && Underway(s.st, c, onto, shared) && Do(from, a) == At(s, i, onto, shared)
  }

  function Rank(stage: Stage): nat {
    match stage
    case Idle => 11
    case Validating => 10
    case WaitDevice => 9
    case Inside => 8
    case WaitNested => 7
    case Nested => 6
    case Searching(_) => 5
    case WaitList(_, _) => 4
    case InList(_, _) => 3
    case Counting => 2
    case Telling => 1
    case Leaving(_) => 0
  }

  ghost predicate Ready(s: Machine, i: nat, c: Call) {
    && Quiet(s) && i < |s.threads| && |s.threads[i].done| < |s.threads[i].prog| && s.threads[i].Op() == c.op
    && Allowed(s.st, c) && Known(s.st, c)
  }

  lemma FromOutside(s: Machine, i: nat, c: Call, stage: Stage, now: State) returns (next: Onward)
    requires Ready(s, i, c) && Underway(s.st, c, stage, now) && (stage.Idle? || stage.Validating? || stage.WaitDevice?)
    ensures GoesOn(s, i, c, stage, now, next)
  {
    hide Linked, Linkable, Searched, Bumped, Told, IsFresh, Grounded, Decide;
    match stage
    case Idle => next := if c.lostValid then Return else On(Validating, now);
    case Validating => next := if c.op.dev in s.st.valid then On(WaitDevice, now) else Return;
    case WaitDevice => next := if c.lostSem then Return else On(Inside, now);
  }

  lemma FromInside(s: Machine, i: nat, c: Call, now: State) returns (next: Onward)
    requires Ready(s, i, c) && Underway(s.st, c, Inside, now)
    ensures GoesOn(s, i, c, Inside, now, next)
  {
    hide Linked, Linkable, Searched, Bumped, Told, IsFresh, Grounded;
    next := On(
      if c.op.RemoveDevice? then (if s.st.numowners[c.op.dev] != 0 then Leaving(Code(0)) else Telling)
      else if Searches(s.st, c) then WaitNested else Leaving(Code(MAX_OWNERS)), now);
  }

  lemma FromNested(s: Machine, i: nat, c: Call, stage: Stage, now: State) returns (next: Onward)
    requires Ready(s, i, c) && Underway(s.st, c, stage, now) && (stage.WaitNested? || stage.Nested?)
    ensures GoesOn(s, i, c, stage, now, next)
  {
    hide Linked, Linkable, Searched, Bumped, Told, IsFresh, Grounded, Decide;
    next := On(if stage.WaitNested? && !c.lostNested then Nested else Searching(c.lostNested), now);
  }

  // What the search finds is what the call was to find; with no record to
  // allocate, it does not matter what the allocator would have said.
  lemma SearchedSame(st: State, c: Call, a: Call)
    requires Searches(st, c) && a.op == c.op && a.lostNested == c.lostNested
    requires a.mem == if c.op.Add? && Verdict(st, c).Link? then c.mem else None
    ensures Searched(st.t, a) == Verdict(st, c) && !Verdict(st, c).Announce?
  {
  }

  lemma NewIsFresh(s: Machine, r: nat)
    requires Quiet(s) && r !in s.st.t.recs && r !in s.st.leaked
    ensures IsFresh(s, r)
  {
  }

  lemma FreshAt(s: Machine, i: nat, stage: Stage, r: nat)
    requires Quiet(s) && i < |s.threads| && |s.threads[i].done| < |s.threads[i].prog| && stage.Searching?
    requires IsFresh(s, r)
    ensures IsFresh(At(s, i, stage, s.st), r)
  {
  }

  lemma FromSearching(s: Machine, i: nat, c: Call, stage: Stage, now: State) returns (next: Onward)
    requires Ready(s, i, c) && Underway(s.st, c, stage, now) && stage.Searching?
    ensures GoesOn(s, i, c, stage, now, next)
  {
    hide Linked, Linkable, Searched, Bumped, Told, IsFresh, Grounded, Decide;
    var mem := if c.op.Add? && Verdict(s.st, c).Link? then c.mem else None;
    SearchedSame(s.st, c, s.threads[i].Call(c.lostNested, false, mem));
    if mem.Some? {
      AllocatedIsNew(s.st, c);
      NewIsFresh(s, mem.value);
      FreshAt(s, i, stage, mem.value);
    }
    match Verdict(s.st, c)
    case Done(reply) => next := On(Leaving(reply), now);
    case Link(r) => next := On(WaitList(c.lostNested, r), now);
  }

  lemma FromWaitList(s: Machine, i: nat, c: Call, stage: Stage, now: State) returns (next: Onward)
    requires Ready(s, i, c) && Underway(s.st, c, stage, now) && stage.WaitList?
    ensures GoesOn(s, i, c, stage, now, next)
  {
    hide Linked, Linkable, Searched, Bumped, Told, IsFresh, Grounded, Decide;
    next := if c.lostList then Return else On(InList(stage.nested, stage.r), now);
  }

  lemma LinkableIsGrounded(t: Tables, op: Op, r: nat)
    requires Linkable(t, op, r)
    ensures Grounded(t, op)
  {
  }

  lemma FromList(s: Machine, i: nat, c: Call, stage: Stage, now: State) returns (next: Onward)
    requires Ready(s, i, c) && Underway(s.st, c, stage, now) && stage.InList?
    ensures GoesOn(s, i, c, stage, now, next)
  {
    hide Linked, Linkable, Searched, Bumped, Told, IsFresh, Grounded, Decide;
    LinkableIsGrounded(s.st.t, c.op, stage.r);
    next := On(Counting, Listed(s.st, c));
  }

  lemma FromCounting(s: Machine, i: nat, c: Call, now: State) returns (next: Onward)
    requires Ready(s, i, c) && Underway(s.st, c, Counting, now)
    ensures GoesOn(s, i, c, Counting, now, next)
  {
    hide Linked, Linkable, Searched, Bumped, Told, IsFresh, Grounded, Decide;
    LinkedKeys(s.st.t, c.op, Verdict(s.st, c).rec);
    next := On(Telling, Numbered(s.st, c));
  }

  lemma OnlyRemovalsAnnounce(st: State, c: Call)
    requires IsDevice(st, c.op.dev) && Verdict(st, c).Announce?
    ensures c.op.RemoveDevice?
  {
  }

  lemma FromTelling(s: Machine, i: nat, c: Call, stage: Stage, now: State) returns (next: Onward)
    requires Ready(s, i, c) && Underway(s.st, c, stage, now) && (stage.Telling? || stage.Leaving?)
    ensures GoesOn(s, i, c, stage, now, next)
  {
    hide Linked, Searched, Bumped, Told, IsFresh, Grounded, Decide;
    if Links(s.st, c) {
      LinkedKeys(s.st.t, c.op, Verdict(s.st, c).rec);
    } else if stage.Telling? {
      OnlyRemovalsAnnounce(s.st, c);
    }
    next := if stage.Leaving? then Return else On(Leaving(Success(c.op)), Step(s.st, c).0);
  }

  lemma AllocatedIsNew(st: State, c: Call)
    requires Allowed(st, c) && Enters(st, c) && Verdict(st, c).Link? && c.mem.Some?
    ensures c.op.Add? ==> Verdict(st, c) == Link(c.mem.value) && c.mem.value !in st.t.recs && c.mem.value !in st.leaked
  {
  }

  lemma OneAct(s: Machine, i: nat, c: Call, stage: Stage, now: State) returns (next: Onward)
    requires Ready(s, i, c) && Underway(s.st, c, stage, now)
    ensures GoesOn(s, i, c, stage, now, next)
  {
    hide Ready, Underway, GoesOn;
    match stage
    case Inside => next := FromInside(s, i, c, now);
    case WaitNested => next := FromNested(s, i, c, stage, now);
    case Nested => next := FromNested(s, i, c, stage, now);
    case Searching(_) => next := FromSearching(s, i, c, stage, now);
    case WaitList(_, _) => next := FromWaitList(s, i, c, stage, now);
    case InList(_, _) => next := FromList(s, i, c, stage, now);
    case Counting => next := FromCounting(s, i, c, now);
    case Telling => next := FromTelling(s, i, c, stage, now);
    case Leaving(_) => next := FromTelling(s, i, c, stage, now);
    case _ => next := FromOutside(s, i, c, stage, now);
  }

  lemma {:induction false} Finishes(s: Machine, i: nat, c: Call, stage: Stage, now: State) returns (acts: seq<Act>)
    requires Ready(s, i, c) && Underway(s.st, c, stage, now)
    ensures RunCan(At(s, i, stage, now), acts)
    ensures After(At(s, i, stage, now), acts) == Back(s, i, Step(s.st, c).0, Step(s.st, c).1)
    decreases Rank(stage)
  {
    hide Underway, Can, Do, Back, At, Step, Allowed;
    var next := OneAct(s, i, c, stage, now);
    var a := NextAct(s.st, c, stage, i);
    if next.Return? {
      acts := [a];
      assert RunCan(Do(At(s, i, stage, now), a), []);
      assert acts[1..] == [];
    } else {
      var rest := Finishes(s, i, c, next.stage, next.now);
      acts := [a] + rest;
      assert acts[1..] == rest;
    }
  }

  // Any call that is allowed can be made by a thread whose turn it is, with
  // nobody in between: it then does what OwnerSpec.Step says.
  lemma CallCanBeMade(s: Machine, i: nat, c: Call) returns (acts: seq<Act>)
    requires Ready(s, i, c)
    ensures RunCan(s, acts) && After(s, acts) == Back(s, i, Step(s.st, c).0, Step(s.st, c).1)
  {
    hide Back, Step, Allowed, Known, RunCan;
    assert At(s, i, Idle, s.st) == s;
    acts := Finishes(s, i, c, Idle, s.st);
  }

  // ----- whole orders

  ghost predicate AllKnown(st: State) {
    forall d :: d in st.valid ==> IsDevice(st, d)
  }

  lemma StepKeepsKnown(st: State, c: Call)
    requires Allowed(st, c) && AllKnown(st)
    ensures AllKnown(Step(st, c).0)
  {
    hide Linked, Linkable, Decide, Bumped, Told;
    if Links(st, c) {
      LinkedKeys(st.t, c.op, Verdict(st, c).rec);
    }
  }

  predicate ItsTurn(th: Thread, ops: seq<Op>) {
    th.Ok() && ops <= th.prog[|th.done|..]
  }

  // In h each thread makes its next calls, in its order.
  ghost predicate InTurn(s: Machine, h: seq<(nat, Call)>) {
    && (forall e :: e in h ==> 0 <= e.0 < |s.threads|)
    && forall i :: 0 <= i < |s.threads| ==> ItsTurn(s.threads[i], OpsOf(h, i))
  }

  lemma TurnTaken(th: Thread, op: Op, rest: seq<Op>, reply: Reply)
    requires ItsTurn(th, [op] + rest)
    ensures |th.done| < |th.prog| && th.Op() == op && ItsTurn(th.Return(reply), rest)
  {
    var mine := th.prog[|th.done|..];
    assert mine[0] == ([op] + rest)[0];
    assert mine[1..] == th.prog[|th.done| + 1..];
    assert rest == ([op] + rest)[1..] <= mine[1..];
  }

  lemma RunsCompose(s: Machine, acts: seq<Act>, more: seq<Act>)
    requires RunCan(s, acts) && RunCan(After(s, acts), more)
    ensures RunCan(s, acts + more) && After(s, acts + more) == After(After(s, acts), more)
    decreases |acts|
  {
    hide Can, Do;
    if acts == [] {
      assert acts + more == more;
    } else {
      assert (acts + more)[0] == acts[0] && (acts + more)[1..] == acts[1..] + more;
      RunsCompose(Do(s, acts[0]), acts[1..], more);
    }
  }

  lemma NextInTurn(s: Machine, h: seq<(nat, Call)>, st: State, reply: Reply)
    requires Quiet(s) && InTurn(s, h) && h != []
    ensures h[0].0 < |s.threads| && |s.threads[h[0].0].done| < |s.threads[h[0].0].prog|
    ensures s.threads[h[0].0].Op() == h[0].1.op
    ensures Quiet(Back(s, h[0].0, st, reply)) && InTurn(Back(s, h[0].0, st, reply), h[1..])
  {
    hide ItsTurn;
    var k, rest, after := h[0].0, h[1..], Back(s, h[0].0, st, reply);
    assert h[0] in h && forall e :: e in rest ==> e in h;
    TurnTaken(s.threads[k], h[0].1.op, OpsOf(rest, k), reply);
    forall i | 0 <= i < |s.threads|
      ensures ItsTurn(after.threads[i], OpsOf(rest, i))
    {
      assert i != k ==> OpsOf(h, i) == [] + OpsOf(rest, i) == OpsOf(rest, i);
    }
  }

  // Any order of allowed calls in which each thread makes its own in turn can
  // come about, with the state and answers it has when made one by one.
  lemma {:induction false} SerialCanHappen(s: Machine, h: seq<(nat, Call)>) returns (acts: seq<Act>)
    requires Quiet(s) && AllKnown(s.st) && InTurn(s, h) && RunAllowed(s.st, Calls(h))
    ensures RunCan(s, acts) && Quiet(After(s, acts)) && |After(s, acts).threads| == |s.threads|
    ensures After(s, acts).st == Final(s.st, Calls(h))
    ensures forall i :: 0 <= i < |s.threads| ==>
      After(s, acts).threads[i] == Thread(s.threads[i].prog, s.threads[i].done + Answers(s.st, h, i), Idle)
    decreases |h|
  {
    hide Step, Allowed, Can, Do, InTurn, AllKnown;
    if h == [] {
      acts := [];
      forall i | 0 <= i < |s.threads|
        ensures s.threads[i].done + Answers(s.st, h, i) == s.threads[i].done
      {
      }
    } else {
      var k, c := h[0].0, h[0].1;
      assert Calls(h)[0] == c && Calls(h)[1..] == Calls(h[1..]);
      var (st, reply) := Step(s.st, c);
      NextInTurn(s, h, st, reply);
      CallIsReady(s, k, c);
      StepKeepsKnown(s.st, c);
      var first := CallCanBeMade(s, k, c);
      var mid := Back(s, k, st, reply);
      var more := SerialCanHappen(mid, h[1..]);
      acts := first + more;
      RunsCompose(s, first, more);
      forall i | 0 <= i < |s.threads|
        ensures mid.threads[i].done + Answers(st, h[1..], i) == s.threads[i].done + Answers(s.st, h, i)
      {
      }
    }
  }

  lemma CallIsReady(s: Machine, k: nat, c: Call)
    requires Quiet(s) && AllKnown(s.st) && Allowed(s.st, c) && k < |s.threads| && |s.threads[k].done| < |s.threads[k].prog|
    requires s.threads[k].Op() == c.op
    ensures Ready(s, k, c)
  {
    hide Allowed;
  }

  // ----- what can come of the programs of all threads

  // The threads, interleaved somehow, have all returned, leaving end and these answers.
  ghost predicate Interleaved(s: Machine, end: State, answers: seq<seq<Reply>>) {
    exists acts :: InterleavedBy(s, end, answers, acts)
  }

  ghost predicate InterleavedBy(s: Machine, end: State, answers: seq<seq<Reply>>, acts: seq<Act>) {
    && RunCan(s, acts) && Finished(After(s, acts)) && After(s, acts).st == end
    && |answers| == |s.threads| == |After(s, acts).threads|
    && forall i :: 0 <= i < |s.threads| ==> After(s, acts).threads[i].done == answers[i]
  }

  // Their calls, made one after the other in some order, leave end and these answers.
  ghost predicate Serial(s: Machine, end: State, answers: seq<seq<Reply>>) {
    exists h :: SerialBy(s, end, answers, h)
  }

  ghost predicate SerialBy(s: Machine, end: State, answers: seq<seq<Reply>>, h: seq<(nat, Call)>) {
    && (forall e :: e in h ==> 0 <= e.0 < |s.threads|)
    && RunAllowed(s.st, Calls(h)) && Final(s.st, Calls(h)) == end
    && |answers| == |s.threads|
    && forall i :: 0 <= i < |s.threads| ==> OpsOf(h, i) == s.threads[i].prog && Answers(s.st, h, i) == answers[i]
  }

  lemma {:induction false} OrderIsOfThreads(s: Machine, acts: seq<Act>)
    requires RunCan(s, acts)
    ensures forall e :: e in Order(s, acts) ==> 0 <= e.0 < |s.threads|
    decreases |acts|
  {
    hide Linked, Searched, Bumped, Told, Linkable, Grounded, IsFresh, AtLimit, IsDevice, Effective, Next, Shared;
    if acts != [] {
      OrderIsOfThreads(Do(s, acts[0]), acts[1..]);
    }
  }

  // What can come of any programs of any number of threads is exactly what can
  // come of some order of their calls made one by one.
  lemma OutcomesAreSerial(s: Machine, end: State, answers: seq<seq<Reply>>)
    requires AtStart(s)
    ensures Interleaved(s, end, answers) <==> Serial(s, end, answers)
  {
    hide AtStart, RunCan, After, Order, Calls, OpsOf, Answers, RunAllowed, Final, Finished;
    if acts :| InterleavedBy(s, end, answers, acts) {
      CompleteRunIsSerial(s, acts);
      OrderIsOfThreads(s, acts);
      assert SerialBy(s, end, answers, Order(s, acts));
    }
    if h :| SerialBy(s, end, answers, h) {
      StartsInTurn(s, h);
      var acts := SerialCanHappen(s, h);
      AllMade(s, acts, h, answers);
      assert InterleavedBy(s, end, answers, acts);
    }
  }

  lemma StartsInTurn(s: Machine, h: seq<(nat, Call)>)
    requires AtStart(s) && (forall e :: e in h ==> 0 <= e.0 < |s.threads|)
    requires forall i :: 0 <= i < |s.threads| ==> OpsOf(h, i) == s.threads[i].prog
    ensures Quiet(s) && AllKnown(s.st) && InTurn(s, h)
  {
    hide Wf;
    forall i | 0 <= i < |s.threads|
      ensures ItsTurn(s.threads[i], OpsOf(h, i))
    {
      assert s.threads[i].prog[0..] == s.threads[i].prog;
    }
  }

  lemma {:induction false} AsManyAnswers(st: State, h: seq<(nat, Call)>, i: nat)
    requires RunAllowed(st, Calls(h))
    ensures |Answers(st, h, i)| == |OpsOf(h, i)|
    decreases |h|
  {
    hide Step, Allowed;
    if h != [] {
      assert Calls(h)[1..] == Calls(h[1..]);
      AsManyAnswers(Step(st, h[0].1).0, h[1..], i);
    }
  }

  lemma AllMade(s: Machine, acts: seq<Act>, h: seq<(nat, Call)>, answers: seq<seq<Reply>>)
    requires AtStart(s) && RunCan(s, acts) && Quiet(After(s, acts)) && |After(s, acts).threads| == |s.threads| == |answers|
    requires RunAllowed(s.st, Calls(h))
    requires forall i :: 0 <= i < |s.threads| ==>
      && After(s, acts).threads[i] == Thread(s.threads[i].prog, s.threads[i].done + Answers(s.st, h, i), Idle)
      && OpsOf(h, i) == s.threads[i].prog && Answers(s.st, h, i) == answers[i]
    ensures Finished(After(s, acts)) && forall i :: 0 <= i < |s.threads| ==> After(s, acts).threads[i].done == answers[i]
  {
    hide RunCan, After, RunAllowed, Calls, OpsOf, Answers;
    StartIdle(s);
    forall i | 0 <= i < |s.threads|
      ensures After(s, acts).threads[i].done == answers[i] && |answers[i]| == |s.threads[i].prog|
    {
      AsManyAnswers(s.st, h, i);
      assert [] + answers[i] == answers[i];
    }
  }

  // ----- a session handed out and freed

  // A device that process 5 owns; one thread asks for the session, the other
  // one removes the owner.
  const OWNED := State({1}, false,
    Tables(map[1 := [100]], map[9 := [100]], map[100 := Record(5, 1, 0, 9)],
           map[Embedded(100) := Session(0, 0, 0, 0, [], 0)]),
    map[1 := 1], map[1 := 2], map[1 := []], {}, {})
  const ASKED := Call(GetSession(1, 5), false, false, false, false, None)
  const REMOVED := Call(Remove(1, 5), false, false, false, false, None)
  const TWO := Machine([Thread([ASKED.op], [], Idle), Thread([REMOVED.op], [], Idle)], OWNED, map[], None, None)

  lemma TwoStarts()
    ensures AtStart(TWO) && Good(OWNED)
  {
    hide Wf;
    OwnedIsWf();
    assert OWNED.t.owners[1] == [100];
  }

  lemma OwnedIsWf()
    ensures Wf(OWNED.t)
  {
    assert OWNED.t.owners[1] == [100] && OWNED.t.devlists[9] == [100];
    assert OnList(OWNED.t.owners, DeviceOf(OWNED.t.recs), 100) && OnList(OWNED.t.devlists, SlistOf(OWNED.t.recs), 100);
  }

  lemma TwoCallsMade()
    ensures Allowed(OWNED, ASKED) && Step(OWNED, ASKED) == (OWNED, Pointer(Some(Embedded(100))))
    ensures Allowed(OWNED, REMOVED) && Step(OWNED, REMOVED).1 == Code(1)
    ensures Embedded(100) !in Step(OWNED, REMOVED).0.t.sess
  {
    assert OWNED.t.owners[1] == [100];
    assert FirstWithPid(OWNED.t.recs, [100], 5) == Some(100);
  }

  lemma OneAfterOther(st: State, a: Call, b: Call, h: seq<(nat, Call)>)
    requires Allowed(st, a) && Allowed(Step(st, a).0, b) && h == [(0, a), (1, b)]
    ensures OpsOf(h, 0) == [a.op] && OpsOf(h, 1) == [b.op]
    ensures RunAllowed(st, Calls(h)) && Final(st, Calls(h)) == Step(Step(st, a).0, b).0
    ensures Answers(st, h, 0) == [Step(st, a).1] && Answers(st, h, 1) == [Step(Step(st, a).0, b).1]
  {
    hide Step, Allowed;
    var none: seq<(nat, Call)>, rest: seq<(nat, Call)>, mid := [], [(1, b)], Step(st, a).0;
    assert rest == [(1, b)] + none && h == [(0, a)] + rest;
    assert RunAllowed(Step(mid, b).0, Calls(none));
    forall i: nat | i < 2
      ensures RunAllowed(st, Calls(h))
      ensures OpsOf(h, i) == [if i == 0 then a.op else b.op]
      ensures Answers(st, h, i) == [if i == 0 then Step(st, a).1 else Step(mid, b).1]
    {
      AnswersFront(mid, 1, b, none, i);
      AnswersFront(st, 0, a, rest, i);
      assert OpsOf(none, i) == [] && Answers(Step(mid, b).0, none, i) == [];
    }
    assert h[1..] == rest && rest[1..] == none;
    assert Calls(rest) == [b] + Calls(none) && Calls(h) == [a] + Calls(rest);
    assert Calls(rest)[1..] == Calls(none) && Calls(h)[1..] == Calls(rest);
    assert Final(mid, Calls(rest)) == Step(mid, b).0;
  }

  // One thread has been given the session of process 5, and it is gone: the
  // device semaphore is free before the caller looks at the pointer.
  lemma SessionDangles() returns (end: State)
    ensures AtStart(TWO) && Good(OWNED) && Embedded(100) !in end.t.sess
    ensures Interleaved(TWO, end, [[Pointer(Some(Embedded(100)))], [Code(1)]])
  {
    TwoStarts();
    TwoCallsMade();
    hide Step, Allowed, AtStart, Good, OpsOf, Answers, Calls, RunAllowed, Final;
    var h: seq<(nat, Call)> := [(0, ASKED), (1, REMOVED)];
    OneAfterOther(OWNED, ASKED, REMOVED, h);
    end := Step(OWNED, REMOVED).0;
    var answers := [[Pointer(Some(Embedded(100)))], [Code(1)]];
    assert SerialBy(TWO, end, answers, h);
    OutcomesAreSerial(TWO, end, answers);
  }
}
