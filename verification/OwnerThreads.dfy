// Any number of threads, each with its own list of owner calls, interleaved at
// every semaphore acquire.
module OwnerThreads {
  import opened Options
  import opened Sequences
  import opened OwnerSpec
  import opened OwnerProofs
  import opened OwnerRuns

  // Where a thread is in its current call. nested says that the validation
  // inside the search was interrupted, r is the record the call works on.
  datatype Stage =
    | Idle
    | Validating                          // holds the allocation-list lock
    | WaitDevice
    | Inside                              // from here on holds its device's semaphore
    | WaitNested
    | Nested                              // holds the allocation-list lock too
    | Searching(nested: bool)
    | WaitList(nested: bool, r: nat)
    | InList(nested: bool, r: nat)        // holds g_listlock too
    | Counting
    | Telling
    | Leaving(reply: Reply)
  {
    predicate HasAlloc() {
      Validating? || Nested?
    }

    predicate HasDevice() {
      !Idle? && !Validating? && !WaitDevice?
    }
  }

  // A thread makes the calls in prog one after the other; done has the answers so far.
  datatype Thread = Thread(prog: seq<Op>, done: seq<Reply>, at: Stage) {
    predicate Ok() {
      |done| <= |prog| && (!at.Idle? ==> |done| < |prog|)
    }

    function Op(): Op
      requires |done| < |prog|
    {
      prog[|done|]
    }

    // The current call, when its search went as nested says.
    function Call(nested: bool, lostList: bool, mem: Option<nat>): Call
      requires |done| < |prog|
    {
      OwnerSpec.Call.Call(Op(), false, false, nested, lostList, mem)
    }

    function LinkCall(nested: bool, lostList: bool, r: nat): Call
      requires |done| < |prog|
    {
      Call(nested, lostList, if Op().Add? then Some(r) else None)
    }

    function Return(reply: Reply): Thread {
      Thread(prog, done + [reply], Idle)
    }
  }

  // st.stuck are the devices whose semaphore was left taken for good, holder
  // says which thread has the semaphore of a device.
  datatype Machine = Machine(threads: seq<Thread>, st: State, holder: map<nat, nat>, alloc: Option<nat>, list: Option<nat>)

  // Thread i goes on. lost says that the acquire of this step, if it has one,
  // is interrupted; mem is what kmalloc returns, if the step allocates.
  datatype Act = Act(i: nat, lost: bool, mem: Option<nat>)

  // The record a thread has allocated and not yet listed.
  function Unlisted(th: Thread): Option<nat> {
    if th.Ok() && (th.at.WaitList? || th.at.InList?) && th.Op().Add? then Some(th.at.r) else None
  }

  ghost predicate IsFresh(s: Machine, r: nat) {
    && r !in s.st.t.recs && r !in s.st.leaked
    && forall j :: 0 <= j < |s.threads| ==> Unlisted(s.threads[j]) != Some(r)
  }

  // The session list and session a call names exist.
  predicate Grounded(t: Tables, op: Op) {
    && (op.Add? || op.Update? ==> op.slist in t.devlists)
    && (op.Update? && op.src.Some? ==> op.src.value in t.sess)
  }

  ghost predicate Can(s: Machine, a: Act) {
    && a.i < |s.threads| && s.threads[a.i].Ok() && |s.threads[a.i].done| < |s.threads[a.i].prog|
    && var th := s.threads[a.i];
      var d := th.Op().dev;
      if th.at.Idle? || th.at.WaitNested? then a.lost || s.alloc.None?
      else if th.at.WaitDevice? then a.lost || (d !in s.holder && d !in s.st.stuck)
      else if th.at.WaitList? then a.lost || s.list.None?
      else if th.at.Searching? then IsDevice(s.st, d) && !th.Op().RemoveDevice? && (a.mem.Some? ==> IsFresh(s, a.mem.value))
      else if th.at.InList? then IsDevice(s.st, d) && Grounded(s.st.t, th.Op()) && Linkable(s.st.t, th.Op(), th.at.r)
      else if th.at.Telling? then IsDevice(s.st, d) && (Works(th.Op()) || th.Op().RemoveDevice?)
      else if th.at.Inside? || th.at.Counting? then IsDevice(s.st, d)
      else true
  }

  // Where the thread of a step goes.
  ghost function Next(s: Machine, a: Act): Thread
    requires Can(s, a)
  {
    var th := s.threads[a.i];
    var op := th.Op();
    var d := op.dev;
    match th.at
    case Idle => if a.lost then th.Return(Invalid(op)) else th.(at := Validating)
    case Validating => if d in s.st.valid then th.(at := WaitDevice) else th.Return(Invalid(op))
    case WaitDevice => if a.lost then th.Return(Interrupted(op)) else th.(at := Inside)
    case Inside =>
      if op.RemoveDevice? then (if s.st.numowners[d] != 0 then th.(at := Leaving(Code(0))) else th.(at := Telling))
      else if op.Add? && AtLimit(s.st.numowners[d], s.st.maxowners[d]) then th.(at := Leaving(Code(MAX_OWNERS)))
      else th.(at := WaitNested)
    case WaitNested => if a.lost then th.(at := Searching(true)) else th.(at := Nested)
    case Nested => th.(at := Searching(d !in s.st.valid))
    case Searching(nested) =>
      var found := Searched(s.st.t, th.Call(nested, false, a.mem));
      if found.Link? then th.(at := WaitList(nested, found.rec)) else th.(at := Leaving(found.reply))
    case WaitList(nested, r) => if a.lost then th.Return(Interrupted(op)) else th.(at := InList(nested, r))
    case InList(_, _) => th.(at := Counting)
    case Counting => th.(at := Telling)
    case Telling => th.(at := Leaving(Success(op)))
    case Leaving(reply) => th.Return(reply)
  }

  // What the step does to what all threads share. A thread interrupted while
  // it waits for g_listlock returns without its device's semaphore.
  ghost function Shared(s: Machine, a: Act): State
    requires Can(s, a)
  {
    var th := s.threads[a.i];
    var op := th.Op();
    var d := op.dev;
    match th.at
    case WaitList(nested, r) =>
      if a.lost then s.st.(stuck := s.st.stuck + {d}, leaked := s.st.leaked + if op.Add? then {r} else {}) else s.st
    case InList(nested, r) => s.st.(t := Linked(s.st.t, op, r))
    case Counting => s.st.(numowners := s.st.numowners[d := Bumped(op, s.st.numowners[d])])
    case Telling => s.st.(log := s.st.log[d := Told(s.st.handler, s.st.log[d], op)])
    case _ => s.st
  }

  // A lock after thread i, which had it or not, has it or not.
  function Passed(lock: Option<nat>, i: nat, had: bool, has: bool): Option<nat> {
    if had == has then lock else if has then Some(i) else None
  }

  function Handed(holder: map<nat, nat>, d: nat, i: nat, had: bool, has: bool): map<nat, nat> {
    if had == has then holder else if has then holder[d := i] else holder - {d}
  }

  // One step of thread a.i: it takes and puts back the locks it has where it
  // is and does not have where it goes, or the other way round.
  ghost function Do(s: Machine, a: Act): Machine
    requires Can(s, a)
  {
    var th, now := s.threads[a.i], Next(s, a);
    Machine(s.threads[a.i := now], Shared(s, a),
            Handed(s.holder, th.Op().dev, a.i, th.at.HasDevice(), now.at.HasDevice()),
            Passed(s.alloc, a.i, th.at.HasAlloc(), now.at.HasAlloc()),
            Passed(s.list, a.i, th.at.InList?, now.at.InList?))
  }

  // The call that takes effect in a step, as OwnerSpec.Step would have it.
  ghost function Effective(s: Machine, a: Act): Option<Call>
    requires Can(s, a)
  {
    var th := s.threads[a.i];
    var op := th.Op();
    var d := op.dev;
    match th.at
    case Idle => if a.lost then Some(Call(op, true, false, false, false, None)) else None
    case Validating => if d in s.st.valid then None else Some(Call(op, false, false, false, false, None))
    case WaitDevice => if a.lost then Some(Call(op, false, true, false, false, None)) else None
    case Inside =>
      if op.RemoveDevice? || (op.Add? && AtLimit(s.st.numowners[d], s.st.maxowners[d])) then Some(th.Call(false, false, None))
      else None
    case Searching(nested) =>
      if Searched(s.st.t, th.Call(nested, false, a.mem)).Link? then None else Some(th.Call(nested, false, a.mem))
    case WaitList(nested, r) => if a.lost then Some(th.LinkCall(nested, true, r)) else None
    case InList(nested, r) => Some(th.LinkCall(nested, false, r))
    case _ => None
  }

  // ----- the plain state a machine stands for: what is decided counts as done

  // The thread that has the semaphore of d.
  function Occupant(s: Machine, d: nat): Option<Thread> {
    if d in s.holder && s.holder[d] < |s.threads| then Some(s.threads[s.holder[d]]) else None
  }

  // The count and the events of a device, with what its occupant has yet to do.
  function Counted(n: Count, who: Option<Thread>): Count {
    if who.Some? && who.value.Ok() && who.value.at.Counting? then Bumped(who.value.Op(), n) else n
  }

  function Heard(handler: bool, log: seq<Event>, who: Option<Thread>): seq<Event> {
    if who.Some? && who.value.Ok() && (who.value.at.Counting? || who.value.at.Telling?)
      && (Works(who.value.Op()) || who.value.Op().RemoveDevice?)
    then Told(handler, log, who.value.Op()) else log
  }

  function PlainNumbers(s: Machine): map<nat, Count> {
    map d | d in s.st.numowners :: Counted(s.st.numowners[d], Occupant(s, d))
  }

  function PlainLogs(s: Machine): map<nat, seq<Event>> {
    map d | d in s.st.log :: Heard(s.st.handler, s.st.log[d], Occupant(s, d))
  }

  function Plain(s: Machine): State {
    s.st.(numowners := PlainNumbers(s), log := PlainLogs(s))
  }

  // The answers of a thread, with that of a call that has taken effect.
  function Due(th: Thread): seq<Reply> {
    th.done + if !th.Ok() then [] else if th.at.Counting? || th.at.Telling? then [Success(th.Op())]
      else if th.at.Leaving? then [th.at.reply] else []
  }

  // ----- what holds of every machine that is reached

  // Each lock is held by the one thread that is where a holder is.
  ghost predicate LocksFit(s: Machine) {
    && (forall i {:trigger s.threads[i]} :: 0 <= i < |s.threads| ==>
      && s.threads[i].Ok()
      && (s.threads[i].at.HasAlloc() <==> s.alloc == Some(i))
      && (s.threads[i].at.InList? <==> s.list == Some(i))
      && (s.threads[i].at.HasDevice() ==> s.threads[i].Op().dev in s.holder && s.holder[s.threads[i].Op().dev] == i))
    && (forall d :: d in s.holder ==> Held(s, d, s.holder[d]))
    && (s.alloc.Some? ==> s.alloc.value < |s.threads|)
    && (s.list.Some? ==> s.list.value < |s.threads|)
    && s.holder.Keys !! s.st.stuck
  }

  predicate Held(s: Machine, d: nat, i: nat) {
    i < |s.threads| && s.threads[i].Ok() && s.threads[i].at.HasDevice() && s.threads[i].Op().dev == d
  }

  // What a thread has found out still holds.
  predicate ThreadFits(st: State, th: Thread) {
    th.Ok() && (th.at.HasDevice() || th.at.WaitDevice? ==>
      && var op := th.Op();
      && op.dev in st.valid && IsDevice(st, op.dev)
      && (op.RemoveDevice? ==> th.at.WaitDevice? || th.at.Inside? || th.at.Telling? || th.at.Leaving?)
      && (th.at.WaitNested? || th.at.Nested? || th.at.Searching? || th.at.WaitList? || th.at.InList? ==>
        op.Add? ==> !AtLimit(st.numowners[op.dev], st.maxowners[op.dev]))
      && (th.at.WaitList? || th.at.InList? ==>
        Works(op) && Searched(st.t, th.LinkCall(th.at.nested, false, th.at.r)) == Link(th.at.r))
      && (th.at.Counting? ==> Works(op))
      && (th.at.Telling? ==> Works(op) || op.RemoveDevice?))
  }

  ghost predicate ThreadsFit(s: Machine) {
    forall i {:trigger ThreadFits(s.st, s.threads[i])} :: 0 <= i < |s.threads| ==> ThreadFits(s.st, s.threads[i])
  }

  // Records not yet listed are new, and no two threads have the same.
  ghost predicate UnlistedFresh(s: Machine) {
    && (forall i {:trigger Unlisted(s.threads[i])} :: 0 <= i < |s.threads| && Unlisted(s.threads[i]).Some? ==>
      Unlisted(s.threads[i]).value !in s.st.t.recs && Unlisted(s.threads[i]).value !in s.st.leaked)
    && (forall i, j {:trigger Unlisted(s.threads[i]), Unlisted(s.threads[j])} ::
      0 <= i < j < |s.threads| && Unlisted(s.threads[i]).Some? ==> Unlisted(s.threads[i]) != Unlisted(s.threads[j]))
  }

  ghost predicate Inv(s: Machine) {
    && Sound(s.st) && s.st.valid <= s.st.t.owners.Keys
    && LocksFit(s) && ThreadsFit(s) && UnlistedFresh(s)
  }

  // ----- the locks

  // Thread i has gone from th to now, passing the locks on as it should.
  predicate Moves(s: Machine, after: Machine, i: nat, th: Thread, now: Thread) {
    && i < |s.threads| && s.threads[i] == th && after.threads == s.threads[i := now]
    && th.Ok() && now.Ok() && |th.done| < |th.prog|
    && (now.at.HasDevice() ==> now.Op() == th.Op())
    && after.alloc == Passed(s.alloc, i, th.at.HasAlloc(), now.at.HasAlloc())
    && (now.at.HasAlloc() && !th.at.HasAlloc() ==> s.alloc.None?)
    && after.list == Passed(s.list, i, th.at.InList?, now.at.InList?)
    && (now.at.InList? && !th.at.InList? ==> s.list.None?)
    && after.holder == Handed(s.holder, th.Op().dev, i, th.at.HasDevice(), now.at.HasDevice())
    && (now.at.HasDevice() && !th.at.HasDevice() ==> th.Op().dev !in s.holder && th.Op().dev !in s.st.stuck)
    && (after.st.stuck == s.st.stuck ||
      (th.at.HasDevice() && !now.at.HasDevice() && after.st.stuck == s.st.stuck + {th.Op().dev}))
  }

  lemma LocksMoved(s: Machine, after: Machine, i: nat, th: Thread, now: Thread)
    requires LocksFit(s) && Moves(s, after, i, th, now)
    ensures LocksFit(after)
  {
  }

  lemma StepMoves(s: Machine, a: Act)
    requires Can(s, a)
    ensures Moves(s, Do(s, a), a.i, s.threads[a.i], Next(s, a))
  {
    hide Linked, Searched, Bumped, Told, Linkable, Grounded, IsFresh, AtLimit, IsDevice, Passed, Handed;
  }

  // Two threads past their device semaphores are at different devices.
  lemma OtherDevice(s: Machine, i: nat, j: nat)
    requires LocksFit(s) && i < |s.threads| && j < |s.threads| && i != j
    requires s.threads[i].at.HasDevice() && s.threads[j].at.HasDevice()
    ensures s.threads[i].Ok() && s.threads[j].Ok() && s.threads[i].Op().dev != s.threads[j].Op().dev
  {
  }

  // ----- what others have found out stays so

  lemma {:induction false} FirstKept(recs: map<nat, Record>, after: map<nat, Record>, s: seq<nat>, pid: Pid)
    requires forall q :: q in s ==> q in recs && q in after && after[q].pid == recs[q].pid
    ensures FirstWithPid(after, s, pid) == FirstWithPid(recs, s, pid)
  {
    if s != [] {
      assert s[0] in s && forall q :: q in s[1..] ==> q in s;
      FirstKept(recs, after, s[1..], pid);
    }
  }

  // List work on one device leaves a search of another as it was.
  lemma SearchedKept(t: Tables, op: Op, r: nat, c: Call)
    requires Wf(t) && Linkable(t, op, r) && c.op.dev != op.dev && c.op.dev in t.owners && !c.op.RemoveDevice?
    ensures Linked(t, op, r).owners.Keys == t.owners.Keys && Searched(Linked(t, op, r), c) == Searched(t, c)
  {
    LinkedOwners(t, op, r);
    OwnersKnown(t, c.op.dev);
    FirstKept(t.recs, Linked(t, op, r).recs, t.owners[c.op.dev], c.op.pid);
  }

  lemma ListWorkKeepsFit(st: State, op: Op, r: nat, th: Thread)
    requires Wf(st.t) && Linkable(st.t, op, r) && ThreadFits(st, th) && (th.at.HasDevice() ==> th.Op().dev != op.dev)
    ensures ThreadFits(st.(t := Linked(st.t, op, r)), th)
  {
    hide Searched, AtLimit, Wf, Linked;
    OwnersStay(st.t, op, r);
    if th.at.WaitList? || th.at.InList? {
      SearchedKept(st.t, op, r, th.LinkCall(th.at.nested, false, th.at.r));
    }
  }

  lemma CountingKeepsFit(st: State, d: nat, n: Count, th: Thread)
    requires ThreadFits(st, th) && d in st.numowners && (th.at.HasDevice() ==> th.Op().dev != d)
    ensures ThreadFits(st.(numowners := st.numowners[d := n]), th)
  {
    hide Searched, AtLimit;
  }

  lemma TellingKeepsFit(st: State, d: nat, es: seq<Event>, th: Thread)
    requires ThreadFits(st, th) && d in st.log
    ensures ThreadFits(st.(log := st.log[d := es]), th)
  {
    hide Searched, AtLimit;
  }

  lemma LosingKeepsFit(st: State, stuck: set<nat>, leaked: set<nat>, th: Thread)
    requires ThreadFits(st, th)
    ensures ThreadFits(st.(stuck := stuck, leaked := leaked), th)
  {
    hide Searched, AtLimit;
  }

  lemma OthersFit(s: Machine, a: Act, j: nat)
    requires Inv(s) && Can(s, a) && j < |s.threads| && j != a.i
    ensures ThreadFits(Shared(s, a), s.threads[j])
  {
    hide Searched, AtLimit, Wf, Linked, Devices, LocksFit, UnlistedFresh, ThreadFits, Linkable, Told;
    var th, other := s.threads[a.i], s.threads[j];
    assert ThreadFits(s.st, other);
    if th.at.HasDevice() && other.at.HasDevice() {
      OtherDevice(s, a.i, j);
    }
    match th.at
    case InList(_, r) => ListWorkKeepsFit(s.st, th.Op(), r, other);
    case Counting => CountingKeepsFit(s.st, th.Op().dev, Bumped(th.Op(), s.st.numowners[th.Op().dev]), other);
    case Telling => TellingKeepsFit(s.st, th.Op().dev, Told(s.st.handler, s.st.log[th.Op().dev], th.Op()), other);
    case WaitList(_, r) =>
      if a.lost {
        LosingKeepsFit(s.st, Shared(s, a).stuck, Shared(s, a).leaked, other);
      }
    case _ =>
  }

  lemma FoundFits(th: Thread, t: Tables, nested: bool, mem: Option<nat>)
    requires th.Ok() && |th.done| < |th.prog| && th.Op().dev in t.owners && !th.Op().RemoveDevice?
    requires Searched(t, th.Call(nested, false, mem)).Link?
    ensures var r := Searched(t, th.Call(nested, false, mem)).rec;
      Works(th.Op()) && Searched(t, th.LinkCall(nested, false, r)) == Link(r) && (th.Op().Add? ==> mem == Some(r))
  {
  }

  lemma OwnFits(s: Machine, a: Act)
    requires Inv(s) && Can(s, a)
    ensures ThreadFits(Shared(s, a), Next(s, a))
  {
    hide Searched, AtLimit, Wf, Linked, LocksFit, UnlistedFresh, Linkable, Told, Bumped, Grounded, IsFresh;
    var th := s.threads[a.i];
    assert ThreadFits(s.st, th);
    if th.at.Searching? {
      if Searched(s.st.t, th.Call(th.at.nested, false, a.mem)).Link? {
        FoundFits(th, s.st.t, th.at.nested, a.mem);
      }
    }
    if th.at.InList? {
      OwnersStay(s.st.t, th.Op(), th.at.r);
    }
  }

  lemma Acts(s: Machine, a: Act)
    requires Can(s, a)
    ensures a.i < |s.threads|
  {
  }

  lemma ThreadsKept(s: Machine, a: Act)
    requires Inv(s) && Can(s, a)
    ensures ThreadsFit(Do(s, a))
  {
    hide Inv, Can, ThreadFits, Shared, Next;
    Acts(s, a);
    forall j | 0 <= j < |s.threads|
      ensures ThreadFits(Do(s, a).st, Do(s, a).threads[j])
    {
      if j == a.i {
        OwnFits(s, a);
      } else {
        OthersFit(s, a, j);
      }
    }
  }

  // The one record a step can put to use or lose is the thread's own.
  lemma UsedRecords(s: Machine, a: Act)
    requires Inv(s) && Can(s, a)
    ensures forall r :: r in Shared(s, a).t.recs || r in Shared(s, a).leaked ==>
      r in s.st.t.recs || r in s.st.leaked || Unlisted(s.threads[a.i]) == Some(r)
  {
    hide Searched, AtLimit, Wf, Devices, LocksFit, UnlistedFresh, Told, Bumped, Grounded, IsFresh;
    assert ThreadFits(s.st, s.threads[a.i]);
  }

  lemma NextUnlisted(s: Machine, a: Act)
    requires Inv(s) && Can(s, a)
    ensures Unlisted(Next(s, a)).Some? ==>
      Unlisted(Next(s, a)) == Unlisted(s.threads[a.i]) || IsFresh(s, Unlisted(Next(s, a)).value)
    ensures Unlisted(s.threads[a.i]).Some? && Unlisted(Next(s, a)).Some? ==> Shared(s, a) == s.st
  {
    hide Searched, AtLimit, Wf, Devices, LocksFit, UnlistedFresh, Told, Bumped, Grounded, IsFresh, Linked;
    var th := s.threads[a.i];
    assert ThreadFits(s.st, th);
    if th.at.Searching? {
      if Searched(s.st.t, th.Call(th.at.nested, false, a.mem)).Link? {
        FoundFits(th, s.st.t, th.at.nested, a.mem);
      }
    }
  }

  lemma UnlistedKept(s: Machine, a: Act)
    requires Inv(s) && Can(s, a)
    ensures UnlistedFresh(Do(s, a))
  {
    UsedRecords(s, a);
    NextUnlisted(s, a);
    hide Can, Sound, LocksFit, ThreadsFit, Shared, Next, Unlisted, Handed, Passed;
  }

  lemma SoundKept(s: Machine, a: Act)
    requires Inv(s) && Can(s, a)
    ensures Sound(Shared(s, a)) && Shared(s, a).valid == s.st.valid && Shared(s, a).t.owners.Keys == s.st.t.owners.Keys
  {
    hide Searched, AtLimit, Wf, LocksFit, Told, Bumped, Grounded, IsFresh, Linked;
    var th := s.threads[a.i];
    assert ThreadFits(s.st, th);
    if th.at.InList? {
      LinkedWf(s.st.t, th.Op(), th.at.r);
      OwnersStay(s.st.t, th.Op(), th.at.r);
      RecordsGrow(s.st.t, th.Op(), th.at.r);
    }
    assert Unlisted(th).Some? ==> Unlisted(th).value !in s.st.t.recs && Unlisted(th).value !in s.st.leaked;
  }

  lemma RecordsGrow(t: Tables, op: Op, r: nat)
    requires Linkable(t, op, r)
    ensures Linked(t, op, r).recs.Keys <= t.recs.Keys + if op.Add? then {r} else {}
  {
  }

  // Every step of every thread keeps the invariant.
  lemma InvKept(s: Machine, a: Act)
    requires Inv(s) && Can(s, a)
    ensures Inv(Do(s, a))
  {
    SoundKept(s, a);
    StepMoves(s, a);
    LocksMoved(s, Do(s, a), a.i, s.threads[a.i], Next(s, a));
    ThreadsKept(s, a);
    UnlistedKept(s, a);
    hide Can, Sound, LocksFit, ThreadsFit, UnlistedFresh, Shared, Next, Moves;
  }

  // ----- each step against the plain state

  lemma Occupants(s: Machine, a: Act, d: nat)
    requires Inv(s) && Can(s, a)
    ensures var th, now := s.threads[a.i], Next(s, a);
      && Occupant(Do(s, a), d) == (if d != th.Op().dev then Occupant(s, d)
                                   else if now.at.HasDevice() then Some(now)
                                   else if th.at.HasDevice() then None
                                   else Occupant(s, d))
      && (th.at.HasDevice() ==> Occupant(s, th.Op().dev) == Some(th) && th.Op().dev !in s.st.stuck)
      && (now.at.HasDevice() && !th.at.HasDevice() ==> Occupant(s, th.Op().dev) == None)
  {
    StepMoves(s, a);
    hide Next, Shared;
    if d in s.holder {
      assert Held(s, d, s.holder[d]);
    }
  }

  // A step in which a call does its work, or sees that it may.
  ghost predicate Starts(s: Machine, a: Act)
    requires Can(s, a)
  {
    s.threads[a.i].at.InList? || (s.threads[a.i].at.Inside? && Next(s, a).at.Telling?)
  }

  // The plain count of d changes only when its occupant does its list work.
  ghost predicate CountedMoves(s: Machine, a: Act, d: nat)
    requires Can(s, a)
  {
    var th, after := s.threads[a.i], Do(s, a);
    && d in s.st.numowners && d in after.st.numowners
    && Counted(after.st.numowners[d], Occupant(after, d)) ==
      (if d == th.Op().dev && th.at.InList? then Bumped(th.Op(), s.st.numowners[d])
       else Counted(s.st.numowners[d], Occupant(s, d)))
    && (d == th.Op().dev && th.at.InList? ==> Counted(s.st.numowners[d], Occupant(s, d)) == s.st.numowners[d])
  }

  lemma CountMoves(s: Machine, a: Act, d: nat)
    requires Inv(s) && Can(s, a) && d in s.st.numowners
    ensures CountedMoves(s, a, d)
  {
    hide Inv, Do, Occupant, Searched, AtLimit, Told, Bumped, Grounded, IsFresh, Linked, Linkable;
    OwnFacts(s, a);
    Occupants(s, a, d);
    AfterDo(s, a);
  }

  lemma AfterDo(s: Machine, a: Act)
    requires Can(s, a)
    ensures Do(s, a).st == Shared(s, a)
  {
  }

  // What the plain state says d has logged changes only when its occupant starts.
  ghost predicate HeardMoves(s: Machine, a: Act, d: nat)
    requires Can(s, a)
  {
    var th, after := s.threads[a.i], Do(s, a);
    && d in s.st.log && d in after.st.log
    && Heard(after.st.handler, after.st.log[d], Occupant(after, d)) ==
      (if d == th.Op().dev && Starts(s, a) then Told(s.st.handler, s.st.log[d], th.Op())
       else Heard(s.st.handler, s.st.log[d], Occupant(s, d)))
    && (d == th.Op().dev && Starts(s, a) ==> Heard(s.st.handler, s.st.log[d], Occupant(s, d)) == s.st.log[d])
  }

  lemma LogMoves(s: Machine, a: Act, d: nat)
    requires Inv(s) && Can(s, a) && d in s.st.log
    ensures HeardMoves(s, a, d)
  {
    hide Inv, Do, Occupant, Searched, AtLimit, Told, Bumped, Grounded, IsFresh, Linked, Linkable;
    OwnFacts(s, a);
    Occupants(s, a, d);
    AfterDo(s, a);
  }

  lemma SharedKeeps(s: Machine, a: Act)
    requires Inv(s) && Can(s, a)
    ensures var after := Shared(s, a);
      && after.valid == s.st.valid && after.handler == s.st.handler && after.maxowners == s.st.maxowners
      && after.numowners.Keys == s.st.numowners.Keys && after.log.Keys == s.st.log.Keys
    ensures s.threads[a.i].at.InList? || Starts(s, a) ==> IsDevice(s.st, s.threads[a.i].Op().dev)
  {
    hide Searched, AtLimit, Wf, LocksFit, UnlistedFresh, Told, Bumped, Grounded, IsFresh, Linked, Linkable;
  }

  lemma NumbersMove(s: Machine, a: Act)
    requires Inv(s) && Can(s, a)
    ensures var th, d, before := s.threads[a.i], s.threads[a.i].Op().dev, PlainNumbers(s);
      && (th.at.InList? ==> d in before && before[d] == s.st.numowners[d])
      && PlainNumbers(Do(s, a)) == if th.at.InList? then before[d := Bumped(th.Op(), s.st.numowners[d])] else before
  {
    hide Inv, Can, Do, Shared, Next, Counted, Occupant, Bumped, Starts;
    SharedKeeps(s, a);
    AfterDo(s, a);
    forall d | d in s.st.numowners
      ensures CountedMoves(s, a, d)
    {
      CountMoves(s, a, d);
    }
  }

  lemma LogsMove(s: Machine, a: Act)
    requires Inv(s) && Can(s, a)
    ensures var th, d, before := s.threads[a.i], s.threads[a.i].Op().dev, PlainLogs(s);
      && (Starts(s, a) ==> d in before && before[d] == s.st.log[d])
      && PlainLogs(Do(s, a)) == if Starts(s, a) then before[d := Told(s.st.handler, s.st.log[d], th.Op())] else before
  {
    hide Inv, Can, Do, Shared, Next, Heard, Occupant, Told, Starts;
    SharedKeeps(s, a);
    AfterDo(s, a);
    forall d | d in s.st.log
      ensures HeardMoves(s, a, d)
    {
      LogMoves(s, a, d);
    }
  }

  // How the plain state changes in a step.
  lemma PlainMoves(s: Machine, a: Act)
    requires Inv(s) && Can(s, a)
    ensures Plain(Do(s, a)) == Shared(s, a).(numowners := PlainNumbers(Do(s, a)), log := PlainLogs(Do(s, a)))
  {
    hide PlainNumbers, PlainLogs, Shared, Next, Inv, Can;
  }

  // What a step does to the plain state: nothing until it takes effect.
  ghost predicate Settles(s: Machine, a: Act)
    requires Can(s, a)
  {
    var th, before, after := s.threads[a.i], Plain(s), Plain(Do(s, a));
    match Effective(s, a)
    case None => after == before && Due(Next(s, a)) == Due(th)
    case Some(c) =>
      && c.op == th.Op() && Allowed(before, c)
      && after == Step(before, c).0 && Due(Next(s, a)) == Due(th) + [Step(before, c).1]
  }

  // What the plain state changes to, by where the step is.
  lemma PlainAfter(s: Machine, a: Act)
    requires Inv(s) && Can(s, a)
    ensures var th, op, d, before, after := s.threads[a.i], s.threads[a.i].Op(), s.threads[a.i].Op().dev, Plain(s), Plain(Do(s, a));
      && (th.at.HasDevice() ==> d in s.st.valid && IsDevice(before, d) && d !in before.stuck)
      && (th.at.InList? ==> Linkable(s.st.t, op, th.at.r) && before.numowners[d] == s.st.numowners[d])
      && (Starts(s, a) ==> before.log[d] == s.st.log[d] && (Works(op) || op.RemoveDevice?))
      && after == before.(t := Shared(s, a).t, stuck := Shared(s, a).stuck, leaked := Shared(s, a).leaked,
        numowners := if th.at.InList? then before.numowners[d := Bumped(op, before.numowners[d])] else before.numowners,
        log := if Starts(s, a) then before.log[d := Told(before.handler, before.log[d], op)] else before.log)
  {
    SharedKeeps(s, a);
    NumbersMove(s, a);
    LogsMove(s, a);
    PlainMoves(s, a);
    Occupants(s, a, s.threads[a.i].Op().dev);
    assert ThreadFits(s.st, s.threads[a.i]);
    hide PlainNumbers, PlainLogs, Shared, Next, Sound, LocksFit, UnlistedFresh, ThreadsFit, Linked, Told, Bumped, Searched, Do, Occupant;
  }

  lemma PlainShares(s: Machine)
    ensures var p := Plain(s);
      && p.t == s.st.t && p.stuck == s.st.stuck && p.leaked == s.st.leaked
      && p.valid == s.st.valid && p.handler == s.st.handler && p.maxowners == s.st.maxowners
    ensures forall d :: IsDevice(s.st, d) ==> IsDevice(Plain(s), d)
  {
  }

  // The plain count of a device whose occupant is not about to count.
  lemma PlainCountHere(s: Machine, a: Act)
    requires Inv(s) && Can(s, a) && s.threads[a.i].at.HasDevice() && !s.threads[a.i].at.Counting?
    ensures var d := s.threads[a.i].Op().dev;
      IsDevice(s.st, d) && IsDevice(Plain(s), d) && Plain(s).numowners[d] == s.st.numowners[d]
  {
    Occupants(s, a, s.threads[a.i].Op().dev);
    PlainShares(s);
    assert ThreadFits(s.st, s.threads[a.i]);
    hide Inv, Can, Bumped, Occupant, Do, Told, Searched;
  }

  // ----- whole calls on the plain state, by how far they get

  lemma TurnedAway(st: State, c: Call)
    requires !Enters(st, c)
    ensures Allowed(st, c) && Step(st, c) == (st, if Reaches(st, c) then Interrupted(c.op) else Invalid(c.op))
  {
  }

  lemma Answered(st: State, c: Call)
    requires Enters(st, c) && c.op.dev !in st.stuck && Verdict(st, c).Done?
    ensures Allowed(st, c) && Step(st, c) == (st, Verdict(st, c).reply)
  {
  }

  lemma Announced(st: State, c: Call)
    requires Enters(st, c) && c.op.dev !in st.stuck && Verdict(st, c).Announce?
    ensures Allowed(st, c) && c.op.RemoveDevice?
    ensures Step(st, c) == (st.(log := st.log[c.op.dev := Told(st.handler, st.log[c.op.dev], c.op)]), Success(c.op))
  {
  }

  lemma Stranded(st: State, c: Call, r: nat)
    requires Enters(st, c) && c.op.dev !in st.stuck && Verdict(st, c) == Link(r) && c.lostList
    requires c.op.Add? ==> r !in st.t.recs && r !in st.leaked
    ensures Allowed(st, c)
    ensures Step(st, c) == (st.(stuck := st.stuck + {c.op.dev}, leaked := st.leaked + if c.op.Add? then {r} else {}), Interrupted(c.op))
  {
  }

  lemma Listed(st: State, c: Call, r: nat)
    requires Enters(st, c) && c.op.dev !in st.stuck && Verdict(st, c) == Link(r) && !c.lostList && Linkable(st.t, c.op, r)
    requires c.op.Add? ==> r !in st.leaked
    ensures Allowed(st, c)
    ensures Step(st, c) == (st.(t := Linked(st.t, c.op, r),
                                numowners := st.numowners[c.op.dev := Bumped(c.op, st.numowners[c.op.dev])],
                                log := st.log[c.op.dev := Told(st.handler, st.log[c.op.dev], c.op)]), Success(c.op))
  {
  }

  lemma SettlesUnseen(s: Machine, a: Act)
    requires Inv(s) && Can(s, a) && Effective(s, a).None?
    ensures Settles(s, a)
  {
    PlainAfter(s, a);
    PlainShares(s);
    Unseen(s, a);
    hide Plain, Effective, Inv, Can, Next, Shared, Do, Due, Told, Bumped, Starts;
  }

  lemma Unseen(s: Machine, a: Act)
    requires Can(s, a) && ThreadFits(s.st, s.threads[a.i]) && Effective(s, a).None?
    ensures Due(Next(s, a)) == Due(s.threads[a.i]) && !Starts(s, a) && !s.threads[a.i].at.InList?
    ensures Shared(s, a).t == s.st.t && Shared(s, a).stuck == s.st.stuck && Shared(s, a).leaked == s.st.leaked
  {
    hide Searched, Linkable, Linked, Grounded, IsFresh, AtLimit, Bumped, Told;
  }

  lemma Outside(s: Machine, a: Act)
    requires Inv(s) && Can(s, a) && Effective(s, a).Some? && !s.threads[a.i].at.HasDevice()
    ensures var c, th := Effective(s, a).value, s.threads[a.i];
      && c.op == th.Op() && !Enters(Plain(s), c)
      && Due(Next(s, a)) == Due(th) + [if Reaches(Plain(s), c) then Interrupted(c.op) else Invalid(c.op)]
      && !Starts(s, a) && !th.at.InList? && Shared(s, a) == s.st
  {
    PlainShares(s);
    assert ThreadFits(s.st, s.threads[a.i]);
    hide Searched, Linkable, Linked, Grounded, IsFresh, AtLimit, Bumped, Told, LocksFit, UnlistedFresh, Sound, Plain;
  }

  // A call turned away before it has the semaphore.
  lemma SettlesOutside(s: Machine, a: Act)
    requires Inv(s) && Can(s, a) && Effective(s, a).Some? && !s.threads[a.i].at.HasDevice()
    ensures Settles(s, a)
  {
    PlainAfter(s, a);
    PlainShares(s);
    Outside(s, a);
    TurnedAway(Plain(s), Effective(s, a).value);
    hide Plain, Effective, Inv, Can, Next, Shared, Do, Due, Told, Bumped, Starts, Step, Allowed;
  }

  lemma OwnFacts(s: Machine, a: Act)
    requires Inv(s) && Can(s, a)
    ensures a.i < |s.threads| && ThreadFits(s.st, s.threads[a.i])
    ensures var mine := Unlisted(s.threads[a.i]);
      mine.Some? ==> mine.value !in s.st.t.recs && mine.value !in s.st.leaked
  {
  }

  lemma AnsweredInside(s: Machine, a: Act)
    requires Inv(s) && Can(s, a) && Effective(s, a).Some? && (s.threads[a.i].at.Inside? || s.threads[a.i].at.Searching?)
    ensures var c, th, before := Effective(s, a).value, s.threads[a.i], Plain(s);
      && c.op == th.Op() && Enters(before, c) && !th.at.InList? && Shared(s, a) == s.st
      && (if Starts(s, a) then Verdict(before, c).Announce? && Due(Next(s, a)) == Due(th) + [Success(c.op)]
          else Verdict(before, c).Done? && Due(Next(s, a)) == Due(th) + [Verdict(before, c).reply])
  {
    hide Inv, Linkable, Linked, Grounded, IsFresh, AtLimit, Bumped, Told, LocksFit, UnlistedFresh, Sound, Plain, Find;
    PlainShares(s);
    PlainCountHere(s, a);
    OwnFacts(s, a);
  }

  // A call answered, or found free to announce, once inside.
  lemma SettlesInside(s: Machine, a: Act)
    requires Inv(s) && Can(s, a) && Effective(s, a).Some? && (s.threads[a.i].at.Inside? || s.threads[a.i].at.Searching?)
    ensures Settles(s, a)
  {
    PlainAfter(s, a);
    PlainShares(s);
    AnsweredInside(s, a);
    if Starts(s, a) {
      Announced(Plain(s), Effective(s, a).value);
    } else {
      Answered(Plain(s), Effective(s, a).value);
    }
    hide Plain, Effective, Inv, Can, Next, Shared, Do, Due, Told, Bumped, Starts, Step, Allowed, Verdict;
  }

  lemma AtTheLists(s: Machine, a: Act)
    requires Inv(s) && Can(s, a) && Effective(s, a).Some? && (s.threads[a.i].at.WaitList? || s.threads[a.i].at.InList?)
    ensures var c, th, before := Effective(s, a).value, s.threads[a.i], Plain(s);
      && c.op == th.Op() && Enters(before, c) && Verdict(before, c) == Link(th.at.r) && c.lostList == th.at.WaitList?
      && Due(Next(s, a)) == Due(th) + [if c.lostList then Interrupted(c.op) else Success(c.op)]
      && (Starts(s, a) <==> th.at.InList?)
      && (c.op.Add? ==> th.at.r !in s.st.t.recs && th.at.r !in s.st.leaked)
      && (th.at.InList? ==> Linkable(s.st.t, c.op, th.at.r) && Shared(s, a) == s.st.(t := Linked(s.st.t, c.op, th.at.r)))
      && (th.at.WaitList? ==>
        Shared(s, a) == s.st.(stuck := s.st.stuck + {c.op.dev}, leaked := s.st.leaked + if c.op.Add? then {th.at.r} else {}))
  {
    hide Inv, Linked, Grounded, IsFresh, AtLimit, Bumped, Told, LocksFit, UnlistedFresh, Sound, Plain;
    PlainShares(s);
    PlainCountHere(s, a);
    OwnFacts(s, a);
  }

  // A call that is interrupted on its way to the lists, or does its list work.
  lemma SettlesAtTheLists(s: Machine, a: Act)
    requires Inv(s) && Can(s, a) && Effective(s, a).Some? && (s.threads[a.i].at.WaitList? || s.threads[a.i].at.InList?)
    ensures Settles(s, a)
  {
    PlainAfter(s, a);
    PlainShares(s);
    AtTheLists(s, a);
    if s.threads[a.i].at.InList? {
      Listed(Plain(s), Effective(s, a).value, s.threads[a.i].at.r);
    } else {
      Stranded(Plain(s), Effective(s, a).value, s.threads[a.i].at.r);
    }
    hide Plain, Effective, Inv, Can, Next, Shared, Do, Due, Told, Bumped, Starts, Step, Allowed, Verdict, Linked, Linkable;
  }

  // Every step either leaves the plain state alone or does one whole call to it.
  lemma StepSettles(s: Machine, a: Act)
    requires Inv(s) && Can(s, a)
    ensures Settles(s, a)
  {
    hide Settles, Inv, Can;
    Places(s, a);
    if Effective(s, a).None? {
      SettlesUnseen(s, a);
    } else if s.threads[a.i].at.WaitList? || s.threads[a.i].at.InList? {
      SettlesAtTheLists(s, a);
    } else if s.threads[a.i].at.HasDevice() {
      SettlesInside(s, a);
    } else {
      SettlesOutside(s, a);
    }
  }

  lemma Places(s: Machine, a: Act)
    requires Can(s, a)
    ensures a.i < |s.threads|
    ensures var at := s.threads[a.i].at;
      Effective(s, a).Some? && at.HasDevice() ==> at.WaitList? || at.InList? || at.Inside? || at.Searching?
  {
  }

  // ----- whole runs

  ghost predicate RunCan(s: Machine, acts: seq<Act>)
    decreases |acts|
  {
    acts == [] || (Can(s, acts[0]) && RunCan(Do(s, acts[0]), acts[1..]))
  }

  ghost function After(s: Machine, acts: seq<Act>): Machine
    requires RunCan(s, acts)
    decreases |acts|
  {
    if acts == [] then s else After(Do(s, acts[0]), acts[1..])
  }

  ghost function First(s: Machine, a: Act): seq<(nat, Call)>
    requires Can(s, a)
  {
    if Effective(s, a).Some? then [(a.i, Effective(s, a).value)] else []
  }

  // The calls of a run in the order they take effect, each with its thread.
  // A call takes effect in a step of its own, between its start and its return.
  ghost function Order(s: Machine, acts: seq<Act>): seq<(nat, Call)>
    requires RunCan(s, acts)
    decreases |acts|
  {
    if acts == [] then []
    else First(s, acts[0]) + Order(Do(s, acts[0]), acts[1..])
  }

  function Calls(h: seq<(nat, Call)>): seq<Call> {
    if h == [] then [] else [h[0].1] + Calls(h[1..])
  }

  // The operations of thread i in h, and the answers they get when the calls
  // of h are made one after the other.
  function OpsOf(h: seq<(nat, Call)>, i: nat): seq<Op> {
    if h == [] then [] else (if h[0].0 == i then [h[0].1.op] else []) + OpsOf(h[1..], i)
  }

  function Answers(st: State, h: seq<(nat, Call)>, i: nat): seq<Reply>
    requires RunAllowed(st, Calls(h))
    decreases |h|
  {
    if h == [] then [] else
    assert Calls(h)[1..] == Calls(h[1..]);
    (if h[0].0 == i then [Step(st, h[0].1).1] else []) + Answers(Step(st, h[0].1).0, h[1..], i)
  }

  // What a run h from the plain state st to the plain state end means for a thread.
  ghost predicate Explained(st: State, h: seq<(nat, Call)>, i: nat, before: Thread, after: Thread) {
    && RunAllowed(st, Calls(h)) && after.prog == before.prog
    && Due(after) == Due(before) + Answers(st, h, i)
    && |Due(before)| <= |Due(after)| <= |before.prog|
    && OpsOf(h, i) == before.prog[|Due(before)|..|Due(after)|]
  }

  lemma DueBounded(th: Thread)
    requires th.Ok()
    ensures |th.done| <= |Due(th)| <= |th.prog|
    ensures th.at.Idle? ==> Due(th) == th.done
  {
  }

  lemma AnswersFront(st: State, k: nat, c: Call, h: seq<(nat, Call)>, i: nat)
    requires Allowed(st, c) && RunAllowed(Step(st, c).0, Calls(h))
    ensures var all := [(k, c)] + h;
      && RunAllowed(st, Calls(all))
      && Answers(st, all, i) == (if k == i then [Step(st, c).1] else []) + Answers(Step(st, c).0, h, i)
      && OpsOf(all, i) == (if k == i then [c.op] else []) + OpsOf(h, i)
  {
    hide Step, Allowed;
    var all := [(k, c)] + h;
    assert all[0] == (k, c) && all[1..] == h;
    assert Calls(all)[0] == c && Calls(all)[1..] == Calls(h);
  }

  // A call in front of an explained run.
  lemma ExplainedCall(st: State, k: nat, c: Call, h: seq<(nat, Call)>, i: nat, before: Thread, mid: Thread, end: Thread)
    requires Allowed(st, c) && Explained(Step(st, c).0, h, i, mid, end) && mid.prog == before.prog
    requires k != i ==> mid == before
    requires k == i ==> Due(mid) == Due(before) + [Step(st, c).1] && |Due(before)| < |before.prog|
    requires k == i ==> c.op == before.prog[|Due(before)|]
    ensures Explained(st, [(k, c)] + h, i, before, end)
  {
    hide Step, Allowed, Due, RunAllowed, Calls, Answers, OpsOf;
    AnswersFront(st, k, c, h, i);
    if k == i {
      ConcatAssoc(Due(before), [Step(st, c).1], Answers(Step(st, c).0, h, i));
    } else {
      assert [] + Answers(Step(st, c).0, h, i) == Answers(Step(st, c).0, h, i);
      assert [] + OpsOf(h, i) == OpsOf(h, i);
    }
  }

  lemma Untouched(s: Machine, a: Act, i: nat)
    requires Inv(s) && Can(s, a) && i < |s.threads|
    ensures a.i < |s.threads| && s.threads[i].Ok() && |Due(s.threads[i])| <= |s.threads[i].prog|
    ensures i != a.i ==> Do(s, a).threads[i] == s.threads[i]
    ensures i == a.i ==> Do(s, a).threads[i] == Next(s, a) && Next(s, a).prog == s.threads[i].prog
    ensures i == a.i && Effective(s, a).Some? ==>
      Due(s.threads[i]) == s.threads[i].done && |s.threads[i].done| < |s.threads[i].prog|
  {
    hide Searched, Linkable, Linked, Grounded, IsFresh, AtLimit, Bumped, Told, Shared, Sound, ThreadsFit, UnlistedFresh;
  }

  // One step in front of a run that is explained.
  lemma ExplainedStep(s: Machine, a: Act, h: seq<(nat, Call)>, i: nat, end: Thread)
    requires Inv(s) && Can(s, a) && i < |s.threads|
    requires Explained(Plain(Do(s, a)), h, i, Do(s, a).threads[i], end)
    ensures Explained(Plain(s), First(s, a) + h, i, s.threads[i], end)
  {
    hide Inv, Can, Plain, Effective, Do, Step, Allowed, Next, Due, Explained;
    SameThreads(s, a);
    StepSettles(s, a);
    Untouched(s, a, i);
    if Effective(s, a).Some? {
      ExplainedCall(Plain(s), a.i, Effective(s, a).value, h, i, s.threads[i], Do(s, a).threads[i], end);
    } else {
      assert First(s, a) + h == h;
      ExplainedSame(Plain(s), h, i, s.threads[i], Do(s, a).threads[i], end);
    }
  }

  lemma ExplainedSame(st: State, h: seq<(nat, Call)>, i: nat, before: Thread, mid: Thread, end: Thread)
    requires Explained(st, h, i, mid, end) && mid.prog == before.prog && Due(mid) == Due(before)
    ensures Explained(st, h, i, before, end)
  {
  }

  lemma ExplainedNothing(s: Machine, i: nat)
    requires Inv(s) && i < |s.threads|
    ensures Explained(Plain(s), [], i, s.threads[i], s.threads[i])
  {
    hide Plain, Sound, ThreadsFit, UnlistedFresh;
    DueBounded(s.threads[i]);
  }

  // The plain state at the end of a run is what its calls do one after another.
  lemma {:induction false} RunIsSerial(s: Machine, acts: seq<Act>)
    requires Inv(s) && RunCan(s, acts)
    ensures Inv(After(s, acts)) && |After(s, acts).threads| == |s.threads|
    ensures RunAllowed(Plain(s), Calls(Order(s, acts)))
    ensures Final(Plain(s), Calls(Order(s, acts))) == Plain(After(s, acts))
    ensures forall i :: 0 <= i < |s.threads| ==>
      Explained(Plain(s), Order(s, acts), i, s.threads[i], After(s, acts).threads[i])
    decreases |acts|
  {
    hide Inv, Can, Plain, Effective, Do, Step, Allowed, Explained;
    if acts == [] {
      forall i | 0 <= i < |s.threads|
        ensures Explained(Plain(s), Order(s, acts), i, s.threads[i], After(s, acts).threads[i])
      {
        ExplainedNothing(s, i);
      }
    } else {
      var next, rest := Do(s, acts[0]), acts[1..];
      InvKept(s, acts[0]);
      SameThreads(s, acts[0]);
      RunIsSerial(next, rest);
      StepSettles(s, acts[0]);
      SerialStep(s, acts[0], Order(next, rest), Plain(After(next, rest)));
      forall i | 0 <= i < |s.threads|
        ensures Explained(Plain(s), Order(s, acts), i, s.threads[i], After(s, acts).threads[i])
      {
        ExplainedStep(s, acts[0], Order(next, rest), i, After(next, rest).threads[i]);
      }
    }
  }

  lemma SameThreads(s: Machine, a: Act)
    requires Can(s, a)
    ensures |Do(s, a).threads| == |s.threads|
  {
  }

  lemma SerialStep(s: Machine, a: Act, h: seq<(nat, Call)>, end: State)
    requires Can(s, a) && Settles(s, a)
    requires RunAllowed(Plain(Do(s, a)), Calls(h)) && Final(Plain(Do(s, a)), Calls(h)) == end
    ensures RunAllowed(Plain(s), Calls(First(s, a) + h)) && Final(Plain(s), Calls(First(s, a) + h)) == end
  {
    hide Can, Plain, Effective, Do, Step, Allowed, Due, Next;
    if Effective(s, a).Some? {
      var all := First(s, a) + h;
      assert all[1..] == h;
      assert Calls(all) == [Effective(s, a).value] + Calls(h) && Calls(all)[1..] == Calls(h);
    } else {
      assert First(s, a) + h == h;
    }
  }

  // ----- the serial order and time

  lemma {:induction false} OrderSplits(s: Machine, a: seq<Act>, b: seq<Act>)
    requires RunCan(s, a + b)
    ensures RunCan(s, a) && RunCan(After(s, a), b)
    ensures After(s, a + b) == After(After(s, a), b)
    ensures Order(s, a + b) == Order(s, a) + Order(After(s, a), b)
    decreases |a|
  {
    hide Can, Do, First;
    if a == [] {
      assert a + b == b;
    } else {
      assert (a + b)[1..] == a[1..] + b;
      OrderSplits(Do(s, a[0]), a[1..], b);
      ConcatAssoc(First(s, a[0]), Order(Do(s, a[0]), a[1..]), Order(After(s, a), b));
    }
  }

  // At any moment of a run, after its part a: the calls that have returned are
  // in the order up to then, and of a thread's other calls at most the one it is
  // in. So a call that returns before another starts comes before it.
  lemma OrderIsInTime(s: Machine, a: seq<Act>, b: seq<Act>, i: nat)
    requires AtStart(s) && RunCan(s, a + b) && i < |s.threads|
    ensures RunCan(s, a) && RunCan(After(s, a), b) && |After(s, a).threads| == |s.threads|
    ensures Order(s, a + b) == Order(s, a) + Order(After(s, a), b)
    ensures var done := |After(s, a).threads[i].done|;
      && done <= |OpsOf(Order(s, a), i)| <= done + (if After(s, a).threads[i].at.Idle? then 0 else 1)
      && |OpsOf(Order(s, a), i)| <= |s.threads[i].prog|
      && OpsOf(Order(s, a), i) == s.threads[i].prog[..|OpsOf(Order(s, a), i)|]
  {
    hide Inv, Plain, Can, Do;
    OrderSplits(s, a, b);
    StartIsSound(s);
    RunIsSerial(s, a);
    StartIdle(s);
    AllOk(After(s, a), i);
    InTime(Plain(s), Order(s, a), i, s.threads[i], After(s, a).threads[i]);
  }

  lemma AllOk(s: Machine, i: nat)
    requires Inv(s) && i < |s.threads|
    ensures s.threads[i].Ok()
  {
  }

  lemma InTime(st: State, h: seq<(nat, Call)>, i: nat, before: Thread, after: Thread)
    requires Explained(st, h, i, before, after) && before.at.Idle? && before.done == [] && after.Ok()
    ensures |after.done| <= |OpsOf(h, i)| <= |after.done| + (if after.at.Idle? then 0 else 1)
    ensures |OpsOf(h, i)| <= |before.prog| && OpsOf(h, i) == before.prog[..|OpsOf(h, i)|]
  {
    hide Step, Allowed;
    assert Due(before) == [];
  }

  // ----- from a fresh start to the end

  ghost predicate AllIdle(s: Machine) {
    forall i :: 0 <= i < |s.threads| ==> s.threads[i].at.Idle? && s.threads[i].Ok()
  }

  // No thread has started and no lock is taken, but for semaphores already lost.
  ghost predicate AtStart(s: Machine) {
    && Sound(s.st) && s.st.valid <= s.st.t.owners.Keys
    && AllIdle(s) && (forall i :: 0 <= i < |s.threads| ==> s.threads[i].done == [])
    && s.holder == map[] && s.alloc.None? && s.list.None?
  }

  ghost predicate Finished(s: Machine) {
    AllIdle(s) && forall i :: 0 <= i < |s.threads| ==> |s.threads[i].done| == |s.threads[i].prog|
  }

  lemma StartIsSound(s: Machine)
    requires AtStart(s)
    ensures Inv(s)
  {
  }

  lemma IdleIsPlain(s: Machine)
    requires Inv(s) && AllIdle(s)
    ensures Plain(s) == s.st
  {
  }

  // However the threads were interleaved, the lists, counts, events and
  // answers are those of their calls made one after the other, each thread's
  // calls in its own order.
  lemma CompleteRunIsSerial(s: Machine, acts: seq<Act>)
    requires AtStart(s) && RunCan(s, acts) && Finished(After(s, acts))
    ensures var h, end := Order(s, acts), After(s, acts);
      && RunAllowed(s.st, Calls(h)) && Final(s.st, Calls(h)) == end.st
      && |end.threads| == |s.threads|
      && forall i :: 0 <= i < |s.threads| ==>
        OpsOf(h, i) == s.threads[i].prog && end.threads[i].done == Answers(s.st, h, i)
  {
    hide Inv, Plain, AtStart, Can, Do;
    StartIsSound(s);
    RunIsSerial(s, acts);
    StartIdle(s);
    IdleIsPlain(s);
    IdleIsPlain(After(s, acts));
    forall i | 0 <= i < |s.threads|
      ensures OpsOf(Order(s, acts), i) == s.threads[i].prog
      ensures After(s, acts).threads[i].done == Answers(s.st, Order(s, acts), i)
    {
      WholeThread(s.st, Order(s, acts), i, s.threads[i], After(s, acts).threads[i]);
    }
  }

  lemma WholeThread(st: State, h: seq<(nat, Call)>, i: nat, before: Thread, after: Thread)
    requires Explained(st, h, i, before, after) && before.at.Idle? && before.done == []
    requires after.at.Idle? && |after.done| == |after.prog|
    ensures OpsOf(h, i) == before.prog && after.done == Answers(st, h, i)
  {
    hide Step, Allowed;
    assert Due(before) == [] && Due(after) == after.done;
    assert [] + Answers(st, h, i) == Answers(st, h, i);
    assert before.prog[0..|before.prog|] == before.prog;
  }

  lemma StartIdle(s: Machine)
    requires AtStart(s)
    ensures AllIdle(s) && forall i :: 0 <= i < |s.threads| ==> s.threads[i].done == []
  {
  }

  // ----- who waits for whom

  datatype Lock = DeviceSem(dev: nat) | AllocList | GlobalList {
    function Rank(): nat {
      if DeviceSem? then 1 else 2
    }
  }

  // The lock a thread has to get to go on.
  function Wanted(th: Thread): Option<Lock> {
    if |th.done| >= |th.prog| then None
    else if th.at.Idle? || th.at.WaitNested? then Some(AllocList)
    else if th.at.WaitDevice? then Some(DeviceSem(th.Op().dev))
    else if th.at.WaitList? then Some(GlobalList)
    else None
  }

  predicate Has(s: Machine, i: nat, lock: Lock) {
    if lock.DeviceSem? then lock.dev in s.holder && s.holder[lock.dev] == i
    else if lock.AllocList? then s.alloc == Some(i) else s.list == Some(i)
  }

  // A thread holds at most one device semaphore, never both list locks, and
  // only locks that rank below the one it waits for.
  lemma LocksAreOrdered(s: Machine, i: nat, a: Lock, b: Lock)
    requires Inv(s) && i < |s.threads| && Has(s, i, a) && Has(s, i, b) && a != b
    ensures a.Rank() != b.Rank()
    ensures Wanted(s.threads[i]).None?
  {
    hide Inv;
    HoldersStage(s, i, a);
    HoldersStage(s, i, b);
  }

  // Where the holder of a lock is.
  lemma HoldersStage(s: Machine, i: nat, lock: Lock)
    requires Inv(s) && i < |s.threads| && Has(s, i, lock)
    ensures s.threads[i].Ok()
    ensures match lock
      case DeviceSem(d) => s.threads[i].at.HasDevice() && s.threads[i].Op().dev == d
      case AllocList => s.threads[i].at.HasAlloc()
      case GlobalList => s.threads[i].at.InList?
  {
    hide Sound, ThreadsFit, UnlistedFresh;
    var th := s.threads[i];
    assert th.Ok() && (th.at.HasAlloc() <==> s.alloc == Some(i)) && (th.at.InList? <==> s.list == Some(i));
    if lock.DeviceSem? {
      assert Held(s, lock.dev, s.holder[lock.dev]);
    }
  }

  // A thread has the allocation-list lock while it validates its device, for
  // the first time or nested, g_listlock while it works on the lists, and the
  // semaphore of its device from when it has got it to its return.
  lemma LocksAreHeld(s: Machine, i: nat, d: nat)
    requires Inv(s) && i < |s.threads|
    ensures s.threads[i].Ok()
    ensures Has(s, i, AllocList) <==> s.threads[i].at.Validating? || s.threads[i].at.Nested?
    ensures Has(s, i, GlobalList) <==> s.threads[i].at.InList?
    ensures Has(s, i, DeviceSem(d)) <==>
      && !s.threads[i].at.Idle? && !s.threads[i].at.Validating? && !s.threads[i].at.WaitDevice?
      && s.threads[i].Op().dev == d
  {
    hide Inv;
    InvLocks(s, i);
    if Has(s, i, DeviceSem(d)) {
      HoldersStage(s, i, DeviceSem(d));
    }
  }

  lemma InvLocks(s: Machine, i: nat)
    requires Inv(s) && i < |s.threads|
    ensures var th := s.threads[i];
      && th.Ok() && (th.at.HasAlloc() <==> s.alloc == Some(i)) && (th.at.InList? <==> s.list == Some(i))
      && (th.at.HasDevice() ==> th.Op().dev in s.holder && s.holder[th.Op().dev] == i)
  {
    hide Sound, ThreadsFit, UnlistedFresh;
  }

  lemma WaitsUpwards(s: Machine, i: nat, lock: Lock)
    requires Inv(s) && i < |s.threads| && Has(s, i, lock) && Wanted(s.threads[i]).Some?
    ensures lock.Rank() < Wanted(s.threads[i]).value.Rank()
  {
    hide Inv;
    HoldersStage(s, i, lock);
  }

  // Thread i waits for a lock that thread j has.
  predicate WaitsFor(s: Machine, i: nat, j: nat) {
    i < |s.threads| && j < |s.threads| && Wanted(s.threads[i]).Some? && Has(s, j, Wanted(s.threads[i]).value)
  }

  // Along a chain of waiting threads the locks waited for rank higher and higher.
  lemma {:induction false} ChainClimbs(s: Machine, chain: seq<nat>, k: nat)
    requires Inv(s) && k < |chain|
    requires forall n :: 0 <= n < |chain| - 1 ==> WaitsFor(s, chain[n], chain[n + 1])
    requires chain[0] < |s.threads| && Wanted(s.threads[chain[0]]).Some?
    requires chain[|chain| - 1] < |s.threads| && Wanted(s.threads[chain[|chain| - 1]]).Some?
    ensures chain[k] < |s.threads| && Wanted(s.threads[chain[k]]).Some?
    ensures Wanted(s.threads[chain[k]]).value.Rank() >= Wanted(s.threads[chain[0]]).value.Rank() + k
    decreases k
  {
    if k > 0 {
      ChainClimbs(s, chain, k - 1);
      assert WaitsFor(s, chain[k - 1], chain[k]);
      assert k < |chain| - 1 ==> WaitsFor(s, chain[k], chain[k + 1]);
      WaitsUpwards(s, chain[k], Wanted(s.threads[chain[k - 1]]).value);
    }
    hide Inv;
  }

  // Threads never wait for each other in a circle.
  lemma NoCircularWait(s: Machine, chain: seq<nat>)
    requires Inv(s) && |chain| > 1
    requires forall n :: 0 <= n < |chain| - 1 ==> WaitsFor(s, chain[n], chain[n + 1])
    ensures chain[0] != chain[|chain| - 1]
  {
    hide Inv;
    assert WaitsFor(s, chain[0], chain[1]);
    if chain[0] == chain[|chain| - 1] {
      ChainClimbs(s, chain, |chain| - 1);
    }
  }

  // ----- progress

  // Every thread about to do its list work names a session list and a source
  // session that are still there.
  ghost predicate SourcesThere(s: Machine) {
    forall i {:trigger s.threads[i]} :: 0 <= i < |s.threads| && s.threads[i].Ok() && s.threads[i].at.InList? ==>
      Grounded(s.st.t, s.threads[i].Op())
  }

  // The thread can go on without being interrupted.
  ghost predicate Ready(s: Machine, i: nat) {
    Can(s, Act(i, false, None))
  }

  predicate Unfinished(s: Machine, i: nat) {
    i < |s.threads| && |s.threads[i].done| < |s.threads[i].prog|
  }

  // A thread that waits for no lock can go on.
  lemma NothingElseBlocks(s: Machine, i: nat)
    requires Inv(s) && SourcesThere(s) && Unfinished(s, i)
    ensures Wanted(s.threads[i]).None? ==> Ready(s, i)
    ensures Wanted(s.threads[i]) == Some(AllocList) && s.alloc.None? ==> Ready(s, i)
    ensures Wanted(s.threads[i]) == Some(GlobalList) && s.list.None? ==> Ready(s, i)
    ensures s.threads[i].at.WaitDevice? && s.threads[i].Op().dev !in s.holder && s.threads[i].Op().dev !in s.st.stuck ==> Ready(s, i)
  {
    hide LocksFit;
    assert ThreadFits(s.st, s.threads[i]);
    if s.threads[i].at.InList? {
      FoundLinkable(s.st.t, s.threads[i].LinkCall(s.threads[i].at.nested, false, s.threads[i].at.r), s.threads[i].at.r);
      assert Unlisted(s.threads[i]).Some? ==> s.threads[i].at.r !in s.st.t.recs;
    }
  }

  lemma FoundLinkable(t: Tables, c: Call, r: nat)
    requires Wf(t) && c.op.dev in t.owners && Works(c.op) && Searched(t, c) == Link(r) && Grounded(t, c.op)
    ensures (c.op.Add? ==> r !in t.recs) ==> Linkable(t, c.op, r)
  {
    var i := FoundIsFirst(t.recs, t.owners[c.op.dev], c.op.pid);
    OwnersKnown(t, c.op.dev);
  }

  // A thread that waits for the allocation-list lock or g_listlock, or for no
  // lock, can go on or waits for one that can.
  lemma ListLocksComeFree(s: Machine, i: nat) returns (j: nat)
    requires Inv(s) && SourcesThere(s) && Unfinished(s, i) && !s.threads[i].at.WaitDevice?
    ensures Unfinished(s, j) && Ready(s, j)
  {
    hide Ready, Sound, ThreadsFit, UnlistedFresh, SourcesThere;
    j := i;
    if Wanted(s.threads[i]) == Some(AllocList) && s.alloc.Some? {
      j := s.alloc.value;
    } else if Wanted(s.threads[i]) == Some(GlobalList) && s.list.Some? {
      j := s.list.value;
    }
    NothingElseBlocks(s, j);
  }

  // Some thread can go on, unless all that are not finished wait for device
  // semaphores that were left taken for good.
  lemma Progress(s: Machine, i: nat) returns (j: nat)
    requires Inv(s) && SourcesThere(s) && Unfinished(s, i)
    requires !(s.threads[i].at.WaitDevice? && s.threads[i].Op().dev in s.st.stuck)
    ensures Unfinished(s, j) && Ready(s, j)
  {
    hide Ready, Sound, ThreadsFit, UnlistedFresh, SourcesThere;
    if !s.threads[i].at.WaitDevice? {
      j := ListLocksComeFree(s, i);
    } else {
      var d := s.threads[i].Op().dev;
      if d in s.holder {
        assert Held(s, d, s.holder[d]);
        j := ListLocksComeFree(s, s.holder[d]);
      } else {
        j := i;
        NothingElseBlocks(s, i);
      }
    }
  }

  // ----- every run ends

  function Place(at: Stage): nat {
    match at
    case Idle => 0
    case Validating => 1
    case WaitDevice => 2
    case Inside => 3
    case WaitNested => 4
    case Nested => 5
    case Searching(_) => 6
    case WaitList(_, _) => 7
    case InList(_, _) => 8
    case Counting => 9
    case Telling => 10
    case Leaving(_) => 11
  }

  // An upper bound on the steps a thread, and all threads, have yet to make.
  function StepsLeft(th: Thread): nat {
    if th.Ok() then 12 * (|th.prog| - |th.done|) - (if |th.done| < |th.prog| then Place(th.at) else 0) else 0
  }

  function AllStepsLeft(ths: seq<Thread>): nat {
    if ths == [] then 0 else StepsLeft(ths[0]) + AllStepsLeft(ths[1..])
  }

  lemma {:induction false} LeftChanges(ths: seq<Thread>, i: nat, now: Thread)
    requires i < |ths|
    ensures AllStepsLeft(ths[i := now]) == AllStepsLeft(ths) - StepsLeft(ths[i]) + StepsLeft(now)
  {
    if i == 0 {
      assert ths[0 := now][1..] == ths[1..];
    } else {
      LeftChanges(ths[1..], i - 1, now);
      assert ths[i := now][1..] == ths[1..][i - 1 := now];
    }
  }

  lemma StepCountsDown(s: Machine, a: Act)
    requires Can(s, a)
    ensures StepsLeft(Next(s, a)) < StepsLeft(s.threads[a.i])
  {
    hide Searched, Linkable, Grounded, IsFresh, AtLimit;
  }

  lemma {:induction false} RunsEnd(s: Machine, acts: seq<Act>)
    requires RunCan(s, acts)
    ensures |acts| + AllStepsLeft(After(s, acts).threads) <= AllStepsLeft(s.threads)
    decreases |acts|
  {
    hide Can, StepsLeft, AllStepsLeft, Next, Shared;
    if acts != [] {
      Acts(s, acts[0]);
      StepCountsDown(s, acts[0]);
      LeftChanges(s.threads, acts[0].i, Next(s, acts[0]));
      RunsEnd(Do(s, acts[0]), acts[1..]);
    }
  }

  // ----- runs in which certain waits are not interrupted

  // No wait for g_listlock is interrupted.
  ghost predicate ListsWaitedFor(s: Machine, acts: seq<Act>)
    requires RunCan(s, acts)
    decreases |acts|
  {
    acts == [] || (!(s.threads[acts[0].i].at.WaitList? && acts[0].lost) && ListsWaitedFor(Do(s, acts[0]), acts[1..]))
  }

  lemma {:induction false} NothingStranded(s: Machine, acts: seq<Act>)
    requires RunCan(s, acts) && ListsWaitedFor(s, acts)
    ensures After(s, acts).st.stuck == s.st.stuck && After(s, acts).st.leaked == s.st.leaked
    decreases |acts|
  {
    hide Can, Linked, Told, Bumped;
    if acts != [] {
      SharedUnstuck(s, acts[0]);
      NothingStranded(Do(s, acts[0]), acts[1..]);
    }
  }

  lemma SharedUnstuck(s: Machine, a: Act)
    requires Can(s, a) && !(s.threads[a.i].at.WaitList? && a.lost)
    ensures Do(s, a).st.stuck == s.st.stuck && Do(s, a).st.leaked == s.st.leaked
  {
    hide Linked, Told, Bumped, Next;
  }

  // In a run that cannot go on, every thread that has calls left waits for a
  // device semaphore that was left taken.
  lemma StopsOnlyWhereStuck(s: Machine, acts: seq<Act>, i: nat)
    requires AtStart(s) && RunCan(s, acts) && SourcesThere(After(s, acts))
    requires forall j :: 0 <= j < |s.threads| ==> !Unfinished(After(s, acts), j) || !Ready(After(s, acts), j)
    requires Unfinished(After(s, acts), i)
    ensures var end := After(s, acts);
      end.threads[i].at.WaitDevice? && end.threads[i].Op().dev in end.st.stuck
  {
    hide AtStart, Can, Ready, SourcesThere, Plain, Inv;
    StartIsSound(s);
    RunIsSerial(s, acts);
    var end := After(s, acts);
    if !(end.threads[i].at.WaitDevice? && end.threads[i].Op().dev in end.st.stuck) {
      var j := Progress(end, i);
    }
  }

  // A run that cannot go on although no wait for g_listlock was interrupted is
  // one in which every thread has made all its calls.
  lemma NoDeadlock(s: Machine, acts: seq<Act>)
    requires AtStart(s) && s.st.stuck == {} && RunCan(s, acts) && ListsWaitedFor(s, acts) && SourcesThere(After(s, acts))
    requires forall j :: 0 <= j < |s.threads| ==> !Unfinished(After(s, acts), j) || !Ready(After(s, acts), j)
    ensures Finished(After(s, acts))
  {
    hide AtStart, Can, Ready, SourcesThere, Plain, Sound, ThreadsFit, UnlistedFresh;
    var end := After(s, acts);
    StartIsSound(s);
    RunIsSerial(s, acts);
    NothingStranded(s, acts);
    forall i | 0 <= i < |end.threads|
      ensures !Unfinished(end, i)
    {
      if Unfinished(end, i) {
        StopsOnlyWhereStuck(s, acts, i);
      }
    }
    AllMade(end);
  }

  // ----- sources that are there

  // A program that names only session lists there are, and of the sessions in
  // no record, which outlive every owner, only ones there are.
  predicate ProgGrounded(t: Tables, prog: seq<Op>) {
    forall op :: op in prog ==>
      && (op.Add? || op.Update? ==> op.slist in t.devlists)
      && (op.Update? && op.src.Some? && op.src.value.Elsewhere? ==> op.src.value in t.sess)
  }

  // A source session in a record is that of the owner updated, the one whose
  // copying the code leaves out.
  predicate OwnSource(th: Thread) {
    th.Ok() && th.at.InList? && th.Op().Update? && th.Op().src.Some? && th.Op().src.value.Embedded? ==>
      th.Op().src.value == Embedded(th.at.r)
  }

  predicate OwnSources(s: Machine) {
    forall i {:trigger s.threads[i]} :: 0 <= i < |s.threads| ==> OwnSource(s.threads[i])
  }

  ghost predicate AllGrounded(s: Machine) {
    forall i {:trigger s.threads[i]} :: 0 <= i < |s.threads| ==> ProgGrounded(s.st.t, s.threads[i].prog)
  }

  lemma GroundedKept(t: Tables, op: Op, r: nat, prog: seq<Op>)
    requires Linkable(t, op, r) && ProgGrounded(t, prog)
    ensures ProgGrounded(Linked(t, op, r), prog)
  {
  }

  lemma AllGroundedKept(s: Machine, a: Act)
    requires Can(s, a) && AllGrounded(s)
    ensures AllGrounded(Do(s, a))
  {
    hide ProgGrounded, Linked, Searched, Told, Bumped, IsFresh, Linkable, Grounded;
    forall i | 0 <= i < |s.threads|
      ensures ProgGrounded(Do(s, a).st.t, Do(s, a).threads[i].prog)
    {
      if s.threads[a.i].at.InList? {
        GroundedKept(s.st.t, s.threads[a.i].Op(), s.threads[a.i].at.r, s.threads[i].prog);
      }
    }
  }

  lemma {:induction false} RunKeepsGrounded(s: Machine, acts: seq<Act>)
    requires AllGrounded(s) && RunCan(s, acts)
    ensures AllGrounded(After(s, acts))
    decreases |acts|
  {
    hide Can, AllGrounded;
    if acts != [] {
      AllGroundedKept(s, acts[0]);
      RunKeepsGrounded(Do(s, acts[0]), acts[1..]);
    }
  }

  lemma FoundHasSession(t: Tables, c: Call, r: nat)
    requires Wf(t) && c.op.dev in t.owners && c.op.Update? && Searched(t, c) == Link(r)
    ensures Embedded(r) in t.sess
  {
    var i := FoundIsFirst(t.recs, t.owners[c.op.dev], c.op.pid);
  }

  // With such programs everything a thread is about to use is there, at every
  // moment: nobody takes an owner off a device while a call on it is under way.
  lemma OwnSourcesAreThere(s: Machine, acts: seq<Act>)
    requires AtStart(s) && AllGrounded(s) && RunCan(s, acts)
    requires OwnSources(After(s, acts))
    ensures SourcesThere(After(s, acts))
  {
    hide AtStart, Plain, LocksFit, UnlistedFresh, Searched, Wf, Devices, Can, Do;
    StartIsSound(s);
    RunIsSerial(s, acts);
    RunKeepsGrounded(s, acts);
    var end := After(s, acts);
    forall i | 0 <= i < |end.threads| && end.threads[i].Ok() && end.threads[i].at.InList?
      ensures Grounded(end.st.t, end.threads[i].Op())
    {
      var th := end.threads[i];
      assert ThreadFits(end.st, th) && OwnSource(th) && th.Op() in th.prog && ProgGrounded(end.st.t, th.prog);
      if th.Op().Update? {
        FoundHasSession(end.st.t, th.LinkCall(th.at.nested, false, th.at.r), th.at.r);
      }
    }
  }

  lemma AllMade(s: Machine)
    requires Inv(s) && forall i {:trigger Unfinished(s, i)} :: 0 <= i < |s.threads| ==> !Unfinished(s, i)
    ensures Finished(s)
  {
    forall i | 0 <= i < |s.threads|
      ensures s.threads[i].at.Idle? && s.threads[i].Ok() && |s.threads[i].done| == |s.threads[i].prog|
    {
      assert !Unfinished(s, i);
    }
  }

  // No wait of a nested validation is interrupted.
  ghost predicate SearchesWaitedFor(s: Machine, acts: seq<Act>)
    requires RunCan(s, acts)
    decreases |acts|
  {
    acts == [] || (!(s.threads[acts[0].i].at.WaitNested? && acts[0].lost) && SearchesWaitedFor(Do(s, acts[0]), acts[1..]))
  }

  predicate Undisturbed(at: Stage) {
    at.Searching? || at.WaitList? || at.InList? ==> !at.nested
  }

  ghost predicate AllSearched(s: Machine) {
    forall i {:trigger s.threads[i]} :: 0 <= i < |s.threads| ==> Undisturbed(s.threads[i].at)
  }

  lemma StepSearches(s: Machine, a: Act)
    requires Inv(s) && AllSearched(s) && Can(s, a) && !(s.threads[a.i].at.WaitNested? && a.lost)
    ensures AllSearched(Do(s, a))
    ensures Effective(s, a).Some? ==> !Effective(s, a).value.lostNested
  {
    hide Linked, Told, Bumped, Shared, Searched, LocksFit, UnlistedFresh, Sound, Linkable, Grounded, IsFresh, AtLimit;
    assert ThreadFits(s.st, s.threads[a.i]);
  }

  lemma {:induction false} NothingDoubles(s: Machine, acts: seq<Act>)
    requires Inv(s) && AllSearched(s) && RunCan(s, acts) && SearchesWaitedFor(s, acts)
    ensures RunAllowed(Plain(s), Calls(Order(s, acts))) && NoneDoubles(Plain(s), Calls(Order(s, acts)))
    decreases |acts|
  {
    hide Inv, Can, Plain, Effective, Do, Step, Allowed, AllSearched;
    RunIsSerial(s, acts);
    if acts != [] {
      var a, next, rest := acts[0], Do(s, acts[0]), Order(Do(s, acts[0]), acts[1..]);
      InvKept(s, a);
      StepSearches(s, a);
      StepSettles(s, a);
      NothingDoubles(next, acts[1..]);
      if Effective(s, a).Some? {
        assert (First(s, a) + rest)[1..] == rest;
        assert Calls(First(s, a) + rest) == [Effective(s, a).value] + Calls(rest);
        assert Calls(First(s, a) + rest)[1..] == Calls(rest);
      } else {
        assert First(s, a) + rest == rest;
      }
    }
  }

  // A device whose semaphore nobody has is as the plain state says.
  lemma FreeIsPlain(s: Machine, d: nat)
    requires Inv(s) && d in s.st.t.owners && d !in s.holder
    ensures IsDevice(s.st, d) && IsDevice(Plain(s), d)
    ensures Plain(s).numowners[d] == s.st.numowners[d] && Plain(s).maxowners[d] == s.st.maxowners[d]
    ensures Plain(s).log[d] == s.st.log[d] && Plain(s).t == s.st.t
  {
    hide Wf, LocksFit, ThreadsFit, UnlistedFresh;
  }

  lemma PlainStaysGood(s: Machine, acts: seq<Act>)
    requires AtStart(s) && Good(s.st) && RunCan(s, acts) && SearchesWaitedFor(s, acts)
    ensures Inv(After(s, acts)) && Plain(s) == s.st
    ensures var h := Order(s, acts);
      RunAllowed(s.st, Calls(h)) && NoneDoubles(s.st, Calls(h)) && Final(s.st, Calls(h)) == Plain(After(s, acts))
    ensures Good(Plain(After(s, acts)))
  {
    StartIsSound(s);
    IdleIsPlain(s);
    RunIsSerial(s, acts);
    NothingDoubles(s, acts);
    RunKeepsGood(s.st, Calls(Order(s, acts)));
    hide Good, Can, Inv, Plain, Do;
  }

  // At every moment of a run in which no nested validation is interrupted the
  // lists are sound and the pids of each device distinct, and of each device
  // whose semaphore nobody has the count is exact and within its limit.
  lemma FreeDevicesStayGood(s: Machine, acts: seq<Act>)
    requires AtStart(s) && Good(s.st) && RunCan(s, acts) && SearchesWaitedFor(s, acts)
    ensures var end := After(s, acts);
      && Sound(end.st) && PidsDistinct(end.st.t)
      && forall d :: d in end.st.t.owners && d !in end.holder ==>
        IsDevice(end.st, d) && end.st.numowners[d] == |end.st.t.owners[d]| <= end.st.maxowners[d]
  {
    hide AtStart, Plain, Wf, Devices, PidsDistinct, LocksFit, ThreadsFit, UnlistedFresh, Can, Do;
    PlainStaysGood(s, acts);
    var end := After(s, acts);
    PlainShares(end);
    forall d | d in end.st.t.owners && d !in end.holder
      ensures IsDevice(end.st, d) && end.st.numowners[d] == |end.st.t.owners[d]| <= end.st.maxowners[d]
    {
      FreeIsPlain(end, d);
    }
  }

  // And replaying what such a device was logged with, over its owners at the
  // start, gives its owners, and every event made sense when it was sent.
  lemma FreeDeviceReplays(s: Machine, acts: seq<Act>, d: nat) returns (more: seq<Event>)
    requires AtStart(s) && Good(s.st) && RunCan(s, acts) && SearchesWaitedFor(s, acts)
    requires s.st.handler && d in s.st.t.owners && d !in After(s, acts).holder
    ensures var end := After(s, acts).st;
      && d in s.st.log && d in end.t.owners && d in end.log && end.log[d] == s.st.log[d] + more
      && Pids(end.t, d) == Replay(Pids(s.st.t, d), more)
      && Sensible(Pids(s.st.t, d), more)
  {
    hide AtStart, Plain, Inv, Can, Do, Pids, Good, Replay;
    PlainStaysGood(s, acts);
    NoEvents(Pids(s.st.t, d));
    more := RunReplays(s.st, Calls(Order(s, acts)), d, Pids(s.st.t, d), []);
    assert [] + more == more;
    PlainShares(After(s, acts));
    FreeIsPlain(After(s, acts), d);
    KnownDevice(s.st, d);
  }

  lemma KnownDevice(st: State, d: nat)
    requires Good(st) && d in st.t.owners
    ensures IsDevice(st, d)
  {
  }

  // So when every thread has returned, all of this holds of every device.
  lemma ThreadsKeepGood(s: Machine, acts: seq<Act>)
    requires AtStart(s) && Good(s.st) && RunCan(s, acts) && SearchesWaitedFor(s, acts) && Finished(After(s, acts))
    ensures Good(After(s, acts).st)
  {
    hide AtStart, Plain, Inv, Can, Do, Good;
    PlainStaysGood(s, acts);
    IdleIsPlain(After(s, acts));
  }

  // The k-th call of a thread has not got the semaphore of its device: it has
  // not come that far, or has gone without.
  predicate StaysOut(th: Thread, k: nat) {
    && k < |th.prog|
    && (|th.done| == k ==> th.at.Idle? || th.at.Validating? || th.at.WaitDevice?)
    && (|th.done| > k ==> th.done[k] == Interrupted(th.prog[k]) || th.done[k] == Invalid(th.prog[k]))
  }

  // In a run of owner calls a semaphore left taken is never free again, and no
  // call on its device that has not got it yet ever does: it waits, or answers
  // that it was interrupted or that the device is not valid.
  lemma {:induction false} StuckForGood(s: Machine, acts: seq<Act>, d: nat, i: nat, k: nat)
    requires RunCan(s, acts) && d in s.st.stuck
    requires i < |s.threads| && StaysOut(s.threads[i], k) && s.threads[i].prog[k].dev == d
    ensures d in After(s, acts).st.stuck
    ensures i < |After(s, acts).threads| && After(s, acts).threads[i].prog == s.threads[i].prog
    ensures StaysOut(After(s, acts).threads[i], k)
    decreases |acts|
  {
    hide Can, Do, StaysOut;
    if acts != [] {
      StuckBlocks(s, acts[0], d, i, k);
      StuckForGood(Do(s, acts[0]), acts[1..], d, i, k);
    }
  }

  lemma StuckBlocks(s: Machine, a: Act, d: nat, i: nat, k: nat)
    requires Can(s, a) && d in s.st.stuck
    requires i < |s.threads| && StaysOut(s.threads[i], k) && s.threads[i].prog[k].dev == d
    ensures d in Do(s, a).st.stuck
    ensures i < |Do(s, a).threads| && Do(s, a).threads[i].prog == s.threads[i].prog
    ensures StaysOut(Do(s, a).threads[i], k)
  {
    hide Linked, Told, Bumped, Searched, Linkable, Grounded, IsFresh;
  }
}
