// The owner operations of aalbus-device.c on plain values: which records are on
// which lists, the counters, the events sent, and what each call answers.
module OwnerSpec {
  import opened Options
  import opened Sequences

  // MAFU_CONFIGURE_UNLIMTEDSHARES, the largest 32-bit count.
  const UNLIMITED: Count := 0xFFFF_FFFF
  type Count = n: nat | n <= 0xFFFF_FFFF
  // A process id the kernel hands out: a pid_t that is not negative.
  type Pid = p: nat | p < 0x8000_0000

  // aaldev_AddOwner_e
  const OK := 0
  const MAX_OWNERS := 1
  const DUP_OWNER := 2
  const NOT_OWNER := 3
  const INVALID_DEVICE := 4
  const INTERRUPTED := 5
  const SYS_ERR := -1

  datatype Event = OwnerAdded(pid: Pid) | OwnerUpdated(pid: Pid) | OwnerRemoved(pid: Pid) | DevRemoved

  // struct aaldev_ownerSession; addresses are integers, 0 is NULL.
  datatype Session = Session(uiapi: nat, uiHandle: nat, ownerContext: nat, pipHandle: nat, workspaces: seq<nat>, device: nat)
  // A session is either the one inside an owner record or one elsewhere.
  datatype SessionRef = Embedded(rec: nat) | Elsewhere(id: nat)

  // struct aaldev_owner; slist says which session's list m_devicelist is on.
  datatype Record = Record(pid: Pid, device: nat, manifest: nat, slist: nat)

  // Devices, session lists and records are named by their addresses.
  datatype Tables = Tables(
    owners: map<nat, seq<nat>>,      // owner list of each device, head first
    devlists: map<nat, seq<nat>>,    // device list of each session, head first
    recs: map<nat, Record>,          // the records on the lists
    sess: map<SessionRef, Session>)

  datatype State = State(
    valid: set<nat>,                 // devices that aaldev_valid accepts
    handler: bool,                   // a configuration update handler is installed
    t: Tables,
    numowners: map<nat, Count>,
    maxowners: map<nat, Count>,
    log: map<nat, seq<Event>>,       // what the handler has been sent, by device
    stuck: set<nat>,                 // devices whose semaphore was left taken
    leaked: set<nat>)                // records lost without being freed

  datatype Op =
    | Add(dev: nat, pid: Pid, manifest: nat, context: nat, slist: nat)
    | IsOwner(dev: nat, pid: Pid)
    | Remove(dev: nat, pid: Pid)
    | Update(dev: nat, pid: Pid, src: Option<SessionRef>, slist: nat)
    | GetSession(dev: nat, pid: Pid)
    | RemoveDevice(dev: nat)

  // An operation with what its surroundings do to it: which of its lock
  // acquires are interrupted, and the address kmalloc returns.
  datatype Call = Call(op: Op, lostValid: bool, lostSem: bool, lostNested: bool, lostList: bool, mem: Option<nat>)

  datatype Reply = Code(code: int) | Pointer(session: Option<SessionRef>)

  // The answer when the device does not validate.
  function Invalid(op: Op): Reply {
    match op
    case Add(_, _, _, _, _) => Code(NOT_OWNER)
    case IsOwner(_, _) => Code(INVALID_DEVICE)
    case Remove(_, _) => Code(INVALID_DEVICE)
    case Update(_, _, _, _) => Code(INVALID_DEVICE)
    case GetSession(_, _) => Pointer(None)
    case RemoveDevice(_) => Code(0)
  }

  // The answer when a semaphore wait is interrupted.
  function Interrupted(op: Op): Reply {
    match op
    case GetSession(_, _) => Pointer(None)
    case RemoveDevice(_) => Code(0)
    case _ => Code(INTERRUPTED)
  }

  // aaldev_find_pid_owner: the first record with this pid.
  function FirstWithPid(recs: map<nat, Record>, s: seq<nat>, pid: Pid): Option<nat> {
    if s == [] then None
    else if s[0] in recs && recs[s[0]].pid == pid then Some(s[0])
    else FirstWithPid(recs, s[1..], pid)
  }

  predicate IsDevice(st: State, d: nat) {
    d in st.t.owners && d in st.numowners && d in st.maxowners && d in st.log
  }

  // aaldev_find_pid_owner answers NULL when its own validation is interrupted.
  function Find(t: Tables, c: Call): Option<nat>
    requires c.op.dev in t.owners && !c.op.RemoveDevice?
  {
    if c.lostNested then None else FirstWithPid(t.recs, t.owners[c.op.dev], c.op.pid)
  }

  // What a call does once it holds the device semaphore and has looked around:
  // answer at once, go on to the lists with a record, or only send an event.
  datatype Decision = Done(reply: Reply) | Link(rec: nat) | Announce

  predicate AtLimit(num: Count, max: Count) {
    num != UNLIMITED && num >= max
  }

  // What the search of the owner list decides, for an operation that has one.
  function Searched(t: Tables, c: Call): Decision
    requires c.op.dev in t.owners && !c.op.RemoveDevice?
  {
    var found := Find(t, c);
    match c.op
    case Add(_, _, _, _, _) =>
      if found.Some? then Done(Code(DUP_OWNER))
      else if c.mem.None? then Done(Code(SYS_ERR))
      else Link(c.mem.value)
    case IsOwner(_, _) => Done(Code(if found.None? then NOT_OWNER else OK))
    case Remove(_, _) => if found.None? then Done(Code(NOT_OWNER)) else Link(found.value)
    case Update(_, _, _, _) => if found.None? then Done(Code(NOT_OWNER)) else Link(found.value)
    case GetSession(_, _) => Done(Pointer(if found.None? then None else Some(Embedded(found.value))))
  }

  function Decide(t: Tables, num: Count, max: Count, c: Call): Decision
    requires c.op.dev in t.owners
  {
    if c.op.RemoveDevice? then (if num != 0 then Done(Code(0)) else Announce)
    else if c.op.Add? && AtLimit(num, max) then Done(Code(MAX_OWNERS))
    else Searched(t, c)
  }

  // The answer of a call that has done its work. aaldev_removeOwner says 1.
  function Success(op: Op): Reply {
    Code(if op.Remove? || op.RemoveDevice? then 1 else OK)
  }

  function TakenOff(lists: map<nat, seq<nat>>, r: nat): map<nat, seq<nat>> {
    map k | k in lists :: Without(lists[k], r)
  }

  // ownerSess_Copy: the fields are copied and the workspace list changes hands.
  function SessionsCopied(sess: map<SessionRef, Session>, to: SessionRef, from: SessionRef): map<SessionRef, Session>
    requires from in sess
  {
    sess[to := sess[from]][from := sess[from].(workspaces := [])]
  }

  predicate Works(op: Op) {
    op.Add? || op.Remove? || op.Update?
  }

  // What the list work asks of its surroundings: a new record is new, a found
  // one is the device's, and the lists and sessions named by the caller exist.
  predicate Linkable(t: Tables, op: Op, r: nat) {
    && Works(op)
    && op.dev in t.owners
    && (if op.Add? then r !in t.recs else r in t.recs && t.recs[r].device == op.dev && t.recs[r].pid == op.pid)
    && (op.Add? || op.Update? ==> op.slist in t.devlists)
    && (op.Update? && op.src.Some? ==> op.src.value in t.sess)
  }

  // The list work done under g_listlock on record r. aaldev_addOwner hands its
  // manifest and context to aaldev_owner_init in swapped order.
  function Linked(t: Tables, op: Op, r: nat): Tables
    requires Linkable(t, op, r)
  {
    match op
    case Add(dev, pid, manifest, context, slist) =>
      Tables(t.owners[dev := [r] + t.owners[dev]],
             t.devlists[slist := [r] + t.devlists[slist]],
             t.recs[r := Record(pid, dev, context, slist)],
             t.sess[Embedded(r) := Session(0, 0, manifest, 0, [], 0)])
    case Remove(_, _) =>
      Tables(TakenOff(t.owners, r), TakenOff(t.devlists, r), t.recs - {r}, t.sess - {Embedded(r)})
    case Update(_, _, src, slist) =>
      Tables(t.owners,
             TakenOff(t.devlists, r)[slist := [r] + Without(t.devlists[slist], r)],
             t.recs[r := t.recs[r].(slist := slist)],
             if src.None? || src.value == Embedded(r) then t.sess
             else SessionsCopied(t.sess, Embedded(r), src.value))
  }

  // The counter is 32 bits wide: it is not stepped past its top, but stepped
  // down without a look.
  function Bumped(op: Op, n: Count): Count {
    if op.Add? then (if n != UNLIMITED then n + 1 else n)
    else if op.Remove? then (if n == 0 then UNLIMITED else n - 1)
    else n
  }

  function Sent(op: Op): Event
    requires Works(op) || op.RemoveDevice?
  {
    match op
    case Add(_, pid, _, _, _) => OwnerAdded(pid)
    case Remove(_, pid) => OwnerRemoved(pid)
    case Update(_, pid, _, _) => OwnerUpdated(pid)
    case RemoveDevice(_) => DevRemoved
  }

  function Told(handler: bool, log: seq<Event>, op: Op): seq<Event>
    requires Works(op) || op.RemoveDevice?
  {
    if handler then log + [Sent(op)] else log
  }

  // ----- whole calls

  predicate Reaches(st: State, c: Call) {
    c.op.dev in st.valid && IsDevice(st, c.op.dev) && !c.lostValid
  }

  // The call gets the device semaphore.
  predicate Enters(st: State, c: Call) {
    Reaches(st, c) && !c.lostSem
  }

  function Verdict(st: State, c: Call): Decision
    requires IsDevice(st, c.op.dev)
  {
    Decide(st.t, st.numowners[c.op.dev], st.maxowners[c.op.dev], c)
  }

  // The call gets as far as doing its list work.
  predicate Links(st: State, c: Call) {
    Enters(st, c) && Verdict(st, c).Link? && !c.lostList
  }

  // A call that waits for a device semaphore gets it; the allocator gives out
  // no record in use; what the list work asks for is there.
  predicate Allowed(st: State, c: Call) {
    Enters(st, c) ==>
      && c.op.dev !in st.stuck
      && (c.op.Add? && Verdict(st, c).Link? ==> Verdict(st, c).rec !in st.t.recs && Verdict(st, c).rec !in st.leaked)
      && (Links(st, c) ==> Linkable(st.t, c.op, Verdict(st, c).rec))
  }

  function Step(st: State, c: Call): (State, Reply)
    requires Allowed(st, c)
  {
    var d := c.op.dev;
    if !Reaches(st, c) then (st, Invalid(c.op))
    else if c.lostSem then (st, Interrupted(c.op))
    else match Verdict(st, c)
      case Done(reply) => (st, reply)
      case Link(r) =>
        if c.lostList then
          // The device semaphore stays taken, and a new record is lost.
          (st.(stuck := st.stuck + {d}, leaked := st.leaked + if c.op.Add? then {r} else {}), Interrupted(c.op))
        else
          (st.(t := Linked(st.t, c.op, r),
               numowners := st.numowners[d := Bumped(c.op, st.numowners[d])],
               log := st.log[d := Told(st.handler, st.log[d], c.op)]), Success(c.op))
      case Announce =>
        (st.(log := st.log[d := Told(st.handler, st.log[d], c.op)]), Success(c.op))
  }

  // aaldev_create of a device nobody owns yet; it validates once registered.
  function WithDevice(st: State, d: nat, max: Count): State {
    st.(valid := st.valid + {d}, t := st.t.(owners := st.t.owners[d := []]),
        numowners := st.numowners[d := 0], maxowners := st.maxowners[d := max], log := st.log[d := []])
  }

  // The memory of a device is given back, as aaldev_destroy_device does with no
  // look at its owners.
  function WithoutDevice(st: State, d: nat): State {
    st.(valid := st.valid - {d}, t := st.t.(owners := st.t.owners - {d}), numowners := st.numowners - {d},
        maxowners := st.maxowners - {d}, log := st.log - {d}, stuck := st.stuck - {d})
  }

  // What aaldev_init does to a device that has been there before: its owner list
  // is empty and its semaphore free, whoever was on it or had it.
  function Reinit(st: State, d: nat): State
    requires d in st.t.owners
  {
    st.(t := st.t.(owners := st.t.owners[d := []]), stuck := st.stuck - {d})
  }

  // A session comes to be: its list of devices, and what ownerSess_Init makes.
  function WithSessionList(st: State, id: nat): State {
    st.(t := st.t.(devlists := st.t.devlists[id := []]))
  }

  function WithSession(st: State, id: nat, context: nat): State {
    st.(t := st.t.(sess := st.t.sess[Elsewhere(id) := Session(0, 0, context, 0, [], 0)]))
  }

  const EMPTY := State({}, false, Tables(map[], map[], map[], map[]), map[], map[], map[], {}, {})

  // ----- what holds of every state

  function DeviceOf(recs: map<nat, Record>): map<nat, nat> {
    map r | r in recs :: recs[r].device
  }

  function SlistOf(recs: map<nat, Record>): map<nat, nat> {
    map r | r in recs :: recs[r].slist
  }

  predicate OnList(lists: map<nat, seq<nat>>, of: map<nat, nat>, r: nat) {
    r in of && of[r] in lists && r in lists[of[r]]
  }

  // Each record that of knows is on the list of says, once, and on no other.
  ghost predicate Indexed(lists: map<nat, seq<nat>>, of: map<nat, nat>) {
    && (forall k {:trigger Distinct(lists[k])} :: k in lists ==> Distinct(lists[k]))
    && (forall k, i {:trigger lists[k][i]} :: k in lists && 0 <= i < |lists[k]| ==>
      lists[k][i] in of && of[lists[k][i]] == k)
    && (forall r {:trigger OnList(lists, of, r)} :: r in of ==> OnList(lists, of, r))
  }

  // The lists are sound: each record is on the owner list of its device and on
  // one session's device list, once, and carries its own session.
  ghost predicate Wf(t: Tables) {
    && Indexed(t.owners, DeviceOf(t.recs))
    && Indexed(t.devlists, SlistOf(t.recs))
    && (forall r :: r in t.recs <==> Embedded(r) in t.sess)
  }
}
