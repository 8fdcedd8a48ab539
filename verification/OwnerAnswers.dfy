// What an owner call tells: its answer and the events it sends against what it
// has done, on every path, in the numbers that callers and listeners see.
module OwnerAnswers {
  import opened Options
  import opened Sequences
  import opened OwnerSpec
  import opened OwnerProofs
  import opened OwnerRuns

  // ----- answers of calls that do not get through

  // An invalid device: nothing happens, and the answer is 3 for an add, 4 for
  // the others that answer a code, NULL for a session, 0 for a removal.
  lemma InvalidTells(st: State, c: Call)
    requires Allowed(st, c) && (c.lostValid || c.op.dev !in st.valid)
    ensures Step(st, c).0 == st
    ensures Step(st, c).1 == match c.op
      case Add(_, _, _, _, _) => Code(3)
      case IsOwner(_, _) => Code(4)
      case Remove(_, _) => Code(4)
      case Update(_, _, _, _) => Code(4)
      case GetSession(_, _) => Pointer(None)
      case RemoveDevice(_) => Code(0)
  {
  }

  // A wait for a semaphore that is interrupted: 5, NULL or 0.
  lemma InterruptedTells(st: State, c: Call)
    requires Allowed(st, c) && Reaches(st, c)
    requires c.lostSem || (Verdict(st, c).Link? && c.lostList)
    ensures Step(st, c).1 == match c.op
      case GetSession(_, _) => Pointer(None)
      case RemoveDevice(_) => Code(0)
      case _ => Code(5)
    ensures Step(st, c).0.t == st.t && Step(st, c).0.numowners == st.numowners && Step(st, c).0.log == st.log
  {
  }

  // The nested validation interrupted: the owner is not found, whoever it is.
  lemma LostSearchTells(st: State, c: Call)
    requires Allowed(st, c) && Enters(st, c) && c.lostNested
    ensures c.op.IsOwner? || c.op.Remove? || c.op.Update? ==> Step(st, c) == (st, Code(3))
    ensures c.op.GetSession? ==> Step(st, c) == (st, Pointer(None))
    ensures c.op.Add? ==> Step(st, c).1 != Code(2)
  {
    hide Linked;
  }

  // ----- answers of calls that do

  // Nobody interrupted, the answers are these numbers, by who owns the device
  // and how many do; an add is refused with 1 at the limit, with 2 for an owner,
  // with -1 without memory.
  lemma AnswersAre(st: State, c: Call)
    requires Good(st) && Allowed(st, c) && Enters(st, c) && !c.lostNested && !c.lostList
    ensures var d, reply := c.op.dev, Step(st, c).1;
      match c.op
      case Add(_, pid, _, _, _) =>
        reply == Code(if |st.t.owners[d]| >= st.maxowners[d] then 1 else if pid in Pids(st.t, d) then 2
                      else if c.mem.None? then -1 else 0)
      case IsOwner(_, pid) => reply == Code(if pid in Pids(st.t, d) then 0 else 3)
      case Remove(_, pid) => reply == Code(if pid in Pids(st.t, d) then 1 else 3)
      case Update(_, pid, _, _) => reply == Code(if pid in Pids(st.t, d) then 0 else 3)
      case GetSession(_, pid) => reply.Pointer? && (reply.session.Some? <==> pid in Pids(st.t, d))
      case RemoveDevice(_) => reply == Code(if st.t.owners[d] == [] then 1 else 0)
  {
    hide Linked, Wf, Bumped, Told, Linkable;
    var t, d := st.t, c.op.dev;
    if !c.op.RemoveDevice? {
      var i := FoundIsFirst(t.recs, t.owners[d], c.op.pid);
      PidsAreOwners(t, d, c.op.pid);
    }
    CountBelowTop(st, d);
  }

  // The session handed out is the one in the record of the owner asked for.
  lemma SessionIs(st: State, c: Call, k: SessionRef)
    requires Good(st) && Allowed(st, c) && c.op.GetSession? && Step(st, c).1 == Pointer(Some(k))
    ensures k.Embedded? && k in st.t.sess && k.rec in st.t.recs
    ensures c.op.dev in st.t.owners && k.rec in st.t.owners[c.op.dev] && st.t.recs[k.rec].pid == c.op.pid
  {
    hide Indexed;
    var i := FoundIsFirst(st.t.recs, st.t.owners[c.op.dev], c.op.pid);
  }

  // A device as it is made, and a session.
  lemma NewDeviceIs(st: State, d: nat, max: Count)
    ensures var after := WithDevice(st, d, max);
      && d in after.valid && IsDevice(after, d)
      && after.t.owners[d] == [] && after.numowners[d] == 0 && after.maxowners[d] == max && after.log[d] == []
      && (forall e :: e != d && IsDevice(st, e) ==>
        && IsDevice(after, e) && after.t.owners[e] == st.t.owners[e] && after.numowners[e] == st.numowners[e]
        && after.maxowners[e] == st.maxowners[e] && after.log[e] == st.log[e])
  {
  }

  lemma NewSessionIs(st: State, id: nat, context: nat)
    ensures var t := WithSession(st, id, context).t;
      && Elsewhere(id) in t.sess && t.sess[Elsewhere(id)].ownerContext == context && t.sess[Elsewhere(id)].workspaces == []
      && t.sess[Elsewhere(id)].uiapi == t.sess[Elsewhere(id)].uiHandle == t.sess[Elsewhere(id)].pipHandle == 0
      && t.sess[Elsewhere(id)].device == 0
    ensures var lists := WithSessionList(st, id).t.devlists; id in lists && lists[id] == []
  {
  }

  // ----- answers and what has been done

  // A call that answers 0 to an add or an update, or 1 to a remove, has done
  // its list work, and no other call has.
  lemma AnswersTellWork(st: State, c: Call)
    requires Allowed(st, c)
    ensures c.op.Add? || c.op.Update? ==> (Step(st, c).1 == Code(0) <==> Links(st, c))
    ensures c.op.Remove? ==> (Step(st, c).1 == Code(1) <==> Links(st, c))
    ensures !Works(c.op) ==> Step(st, c).0.t == st.t
  {
    hide Linked;
  }

  // An add that answers 0 puts one new record in front, with the arguments of
  // the call: the context where the manifest belongs and the other way round.
  lemma AddMakes(st: State, c: Call)
    requires Allowed(st, c) && c.op.Add? && Step(st, c).1 == Code(0)
    ensures var t := Step(st, c).0.t;
      && c.mem.Some? && c.mem.value !in st.t.recs
      && c.op.dev in st.t.owners && c.op.slist in st.t.devlists
      && t.owners == st.t.owners[c.op.dev := [c.mem.value] + st.t.owners[c.op.dev]]
      && t.devlists == st.t.devlists[c.op.slist := [c.mem.value] + st.t.devlists[c.op.slist]]
      && t.recs.Keys == st.t.recs.Keys + {c.mem.value}
      && t.recs[c.mem.value].pid == c.op.pid && t.recs[c.mem.value].device == c.op.dev
      && t.recs[c.mem.value].manifest == c.op.context && t.recs[c.mem.value].slist == c.op.slist
      && Embedded(c.mem.value) in t.sess && t.sess[Embedded(c.mem.value)].ownerContext == c.op.manifest
      && t.sess[Embedded(c.mem.value)] == Session(0, 0, c.op.manifest, 0, [], 0)
      && (forall r :: r in st.t.recs ==> t.recs[r] == st.t.recs[r])
      && (forall k :: k in st.t.sess && k != Embedded(c.mem.value) ==> k in t.sess && t.sess[k] == st.t.sess[k])
  {
    AnswersTellWork(st, c);
  }

  // An update that answers 0 leaves the record of the owner what it is but for
  // its session list, and gives it the session of the caller, workspaces
  // included, which then has none; given no session, or its own, it keeps that.
  lemma UpdateMakes(st: State, c: Call)
    requires Good(st) && Allowed(st, c) && c.op.Update? && Step(st, c).1 == Code(0)
    ensures var t, d := Step(st, c).0.t, c.op.dev;
      exists r :: r in st.t.owners[d] && r in st.t.recs && st.t.recs[r].pid == c.op.pid && Updated(st.t, t, c.op, r)
  {
    hide Good, Linked, Bumped, Told;
    AnswersTellWork(st, c);
    GoodLists(st);
    var dev, r := c.op.dev, Verdict(st, c).rec;
    VerdictFits(st.t, st.numowners[dev], st.maxowners[dev], c);
    UpdatedSession(st.t, c.op, r);
  }

  lemma GoodLists(st: State)
    requires Good(st)
    ensures Wf(st.t)
  {
  }

  ghost predicate Updated(before: Tables, after: Tables, op: Op, r: nat)
    requires op.Update?
  {
    var me := Embedded(r);
    && after.owners == before.owners && after.recs.Keys == before.recs.Keys
    && r in before.recs && r in after.recs && me in before.sess && me in after.sess
    && after.recs[r].pid == before.recs[r].pid && after.recs[r].device == before.recs[r].device
    && after.recs[r].manifest == before.recs[r].manifest && after.recs[r].slist == op.slist
    && op.slist in after.devlists && after.devlists[op.slist] != [] && after.devlists[op.slist][0] == r
    && (forall q :: q in before.recs && q != r ==> q in after.recs && after.recs[q] == before.recs[q])
    && after.sess.Keys == before.sess.Keys
    && (if op.src.None? || op.src.value == me then after.sess == before.sess
        else
          && op.src.value in before.sess && after.sess[me] == before.sess[op.src.value]
          && after.sess[op.src.value].workspaces == []
          && SameButWorkspaces(after.sess[op.src.value], before.sess[op.src.value])
          && forall k :: k in before.sess && k != me && k != op.src.value ==> after.sess[k] == before.sess[k])
  }

  predicate SameButWorkspaces(a: Session, b: Session) {
    && a.uiapi == b.uiapi && a.uiHandle == b.uiHandle && a.ownerContext == b.ownerContext
    && a.pipHandle == b.pipHandle && a.device == b.device
  }

  lemma UpdatedSession(t: Tables, op: Op, r: nat)
    requires Wf(t) && op.Update? && Linkable(t, op, r)
    ensures Updated(t, Linked(t, op, r), op, r)
  {
    hide Indexed;
    assert Embedded(r) in t.sess;
  }

  // ----- events

  // With a handler, what a device is logged with grows by the event of the
  // call exactly when the call answers that it has done its work.
  lemma EventsAre(st: State, c: Call)
    requires Allowed(st, c) && st.handler && c.op.dev in st.log
    ensures var d, reply, before := c.op.dev, Step(st, c).1, st.log[c.op.dev];
      && d in Step(st, c).0.log && Step(st, c).0.handler
      && var log := Step(st, c).0.log[d];
      match c.op
      case Add(_, pid, _, _, _) => log == before + if reply == Code(0) then [OwnerAdded(pid)] else []
      case Remove(_, pid) => log == before + if reply == Code(1) then [OwnerRemoved(pid)] else []
      case Update(_, pid, _, _) => log == before + if reply == Code(0) then [OwnerUpdated(pid)] else []
      case RemoveDevice(_) => log == before + if reply == Code(1) then [DevRemoved] else []
      case IsOwner(_, _) => log == before
      case GetSession(_, _) => log == before
  {
    hide Linked;
    StepLogs(st, c, c.op.dev);
  }

  // Nothing is logged of any other device, and without a handler nothing at all.
  lemma NoOtherEvents(st: State, c: Call, d: nat)
    requires Allowed(st, c) && d in st.log && (d != c.op.dev || !st.handler)
    ensures d in Step(st, c).0.log && Step(st, c).0.log[d] == st.log[d]
  {
    hide Linked;
    StepLogs(st, c, d);
  }
}
