// The owner records on their two lists, at the level of list heads and links.
module OwnerTables {
  import opened Options
  import opened Sequences
  import opened KosalList
  import opened KosalWalk
  import S = OwnerSpec
  import P = OwnerProofs

  // Where the embedded heads are in their structures.
  const AT_OWNERS := 1       // aal_device.m_ownerlist
  const AT_SESSION := 2      // the device list head of a session
  const AT_OWNERLIST := 3    // aaldev_owner.m_ownerlist
  const AT_DEVICELIST := 4   // aaldev_owner.m_devicelist
  const AT_WORKSPACES := 5   // aaldev_owner.m_sess.m_wshead
  const AT_ELSEWHERE := 6    // m_wshead of a session that is in no record

  // struct aaldev_ownerSession
  class OwnerSession {
    var m_uiapi: nat
    var m_UIHandle: nat
    var m_ownerContext: nat
    var m_PIPHandle: nat
    var m_device: nat
    const m_wshead: ListHead

    constructor (ownerContext: nat, wshead: ListHead)
      ensures m_uiapi == m_UIHandle == m_PIPHandle == m_device == 0
      ensures m_ownerContext == ownerContext && m_wshead == wshead
    {
      m_uiapi, m_UIHandle, m_PIPHandle, m_device := 0, 0, 0, 0;
      m_ownerContext := ownerContext;
      m_wshead := wshead;
    }
  }

  // struct aaldev_owner
  class OwnerRecord {
    const m_pid: S.Pid
    const m_device: nat
    const m_manifest: nat
    const m_sess: OwnerSession
    const m_devicelist: ListHead
    const m_ownerlist: ListHead

    constructor (pid: S.Pid, device: nat, manifest: nat, sess: OwnerSession, devicelist: ListHead, ownerlist: ListHead)
      ensures m_pid == pid && m_device == device && m_manifest == manifest && m_sess == sess
      ensures m_devicelist == devicelist && m_ownerlist == ownerlist
    {
      m_pid, m_device, m_manifest, m_sess := pid, device, manifest, sess;
      m_devicelist, m_ownerlist := devicelist, ownerlist;
    }
  }

  // ----- lists of links as lists of addresses

  type Heads = map<nat, ListHead>

  ghost function Table(l: Lists, heads: Heads): map<nat, seq<nat>> {
    map k | k in heads && heads[k] in l :: Objs(l[heads[k]])
  }

  // heads are heads of lists, each embedded at offset at in the structure it
  // is listed under, and nothing but the links in link is on their lists.
  ghost predicate Typed(l: Lists, heads: Heads, at: nat, link: Heads) {
    && (forall k :: k in heads ==> heads[k] in l && heads[k].obj == k && heads[k].offset == at)
    && (forall k, n {:trigger n in l[heads[k]]} :: k in heads && heads[k] in l && n in l[heads[k]] ==>
      n.obj in link && link[n.obj] == n)
  }

  // A table of other lists does not notice.
  lemma TableKept(l: Lists, after: Lists, heads: Heads, at: nat, link: Heads)
    requires Typed(l, heads, at, link)
    requires forall k :: k in heads ==> heads[k] in after && after[heads[k]] == l[heads[k]]
    ensures Typed(after, heads, at, link) && Table(after, heads) == Table(l, heads)
  {
  }

  lemma TableAdded(l: Lists, heads: Heads, at: nat, link: Heads, n: ListHead, k: nat)
    requires Typed(l, heads, at, link) && k in heads && n.offset != at
    requires n.obj in link ==> link[n.obj] == n
    ensures Typed(AddedHead(l, n, heads[k]), heads, at, link[n.obj := n])
    ensures Table(AddedHead(l, n, heads[k]), heads) == Table(l, heads)[k := [n.obj] + Table(l, heads)[k]]
  {
    ObjsConcat([n], l[heads[k]]);
    assert Objs([n]) == [n.obj];
  }

  // A link the table does not list is taken off some other list.
  lemma TableUndeleted(l: Lists, heads: Heads, at: nat, link: Heads, n: ListHead)
    requires Typed(l, heads, at, link) && n.offset != at && (n.obj in link ==> link[n.obj] != n)
    ensures Typed(Deleted(l, n), heads, at, link)
    ensures Table(Deleted(l, n), heads) == Table(l, heads)
  {
    forall k | k in heads
      ensures Without(l[heads[k]], n) == l[heads[k]]
    {
      WithoutAbsent(l[heads[k]], n);
    }
    TableKept(l, Deleted(l, n), heads, at, link);
  }

  lemma TableDeleted(l: Lists, heads: Heads, at: nat, link: Heads, n: ListHead)
    requires Typed(l, heads, at, link) && n.offset != at && n.obj in link && link[n.obj] == n
    requires AllDistinct(l, heads)
    ensures Typed(Deleted(l, n), heads, at, link - {n.obj})
    ensures Table(Deleted(l, n), heads) == S.TakenOff(Table(l, heads), n.obj)
  {
    forall k | k in heads
      ensures Objs(Without(l[heads[k]], n)) == Without(Objs(l[heads[k]]), n.obj)
      ensures n !in Without(l[heads[k]], n)
      ensures forall m :: m in Without(l[heads[k]], n) ==> m in l[heads[k]]
    {
      ObjsWithout(l[heads[k]], n);
      WithoutDistinct(l[heads[k]], n);
      WithoutWithin(l[heads[k]], n);
    }
  }

  // A link that is now alone is on no list of the table.
  lemma TableAlone(l: Lists, heads: Heads, at: nat, link: Heads, n: ListHead)
    requires Typed(l, heads, at, link) && n.offset != at
    ensures Typed(l[n := []], heads, at, link) && Table(l[n := []], heads) == Table(l, heads)
  {
    TableKept(l, l[n := []], heads, at, link);
  }

  ghost predicate AllDistinct(l: Lists, heads: Heads) {
    forall k :: k in heads && heads[k] in l ==> Distinct(l[heads[k]])
  }

  lemma ListsDistinct(l: Lists, home: map<ListHead, ListHead>, heads: Heads, at: nat, link: Heads)
    requires Separate(l, home) && Typed(l, heads, at, link)
    ensures AllDistinct(l, heads)
  {
  }

  lemma DeletedDistinct(l: Lists, heads: Heads, at: nat, link: Heads, n: ListHead)
    requires AllDistinct(l, heads) && Typed(l, heads, at, link) && n.offset != at
    ensures AllDistinct(Deleted(l, n)[n := []], heads)
  {
    forall k | k in heads && heads[k] in l
      ensures Distinct(Without(l[heads[k]], n))
    {
      WithoutDistinct(l[heads[k]], n);
    }
  }

  // Both tables after a record's links o and d have been put at the head of the
  // owner list of dev and of the device list of slist.
  ghost function Attached(l: Lists, o: ListHead, d: ListHead, h: ListHead, g: ListHead): Lists
    requires h in l && g in l && g != o
  {
    AddedHead(AddedHead(l, o, h), d, g)
  }

  lemma AttachedTables(l: Lists, heads: Heads, sesslists: Heads, ol: Heads, dl: Heads,
                       o: ListHead, d: ListHead, dev: nat, slist: nat)
    requires Typed(l, heads, AT_OWNERS, ol) && Typed(l, sesslists, AT_SESSION, dl)
    requires dev in heads && slist in sesslists
    requires o.offset == AT_OWNERLIST && d.offset == AT_DEVICELIST && o.obj !in ol && d.obj !in dl
    ensures var after := Attached(l, o, d, heads[dev], sesslists[slist]);
      && Typed(after, heads, AT_OWNERS, ol[o.obj := o]) && Typed(after, sesslists, AT_SESSION, dl[d.obj := d])
      && Table(after, heads) == Table(l, heads)[dev := [o.obj] + Table(l, heads)[dev]]
      && Table(after, sesslists) == Table(l, sesslists)[slist := [d.obj] + Table(l, sesslists)[slist]]
  {
    var mid, after := AddedHead(l, o, heads[dev]), Attached(l, o, d, heads[dev], sesslists[slist]);
    TableAdded(l, heads, AT_OWNERS, ol, o, dev);
    TableKept(mid, after, heads, AT_OWNERS, ol[o.obj := o]);
    TableKept(l, mid, sesslists, AT_SESSION, dl);
    TableAdded(mid, sesslists, AT_SESSION, dl, d, slist);
  }

  // ----- the records

  // The loop of aaldev_find_pid_owner over the owner list headed by h.
  method SearchPid(space: ListSpace, h: ListHead, records: map<nat, OwnerRecord>, ghost recs: map<nat, S.Record>, pid: S.Pid)
    returns (found: OwnerRecord?)
    requires space.Valid() && h in space.lists
    requires forall n :: n in space.lists[h] ==>
      n.obj in records && records[n.obj].m_ownerlist == n && n.obj in recs && recs[n.obj].pid == records[n.obj].m_pid
    ensures found == null <==> S.FirstWithPid(recs, Objs(space.lists[h]), pid).None?
    ensures found != null ==> found.m_ownerlist in space.lists[h] && records[found.m_ownerlist.obj] == found
    ensures found != null ==> S.FirstWithPid(recs, Objs(space.lists[h]), pid) == Some(found.m_ownerlist.obj)
  {
    ghost var s, k := Objs(space.lists[h]), 0;
    space.Neighbours(h);
    var pos := h.next;
    while pos != h
      invariant 0 <= k <= |s| && pos == if k < |s| then space.lists[h][k] else h
      invariant S.FirstWithPid(recs, s, pid) == S.FirstWithPid(recs, s[k..], pid)
      decreases |s| - k
    {
      assert space.lists[h][k] in space.lists[h];
      var rec := records[pos.obj];
      if rec.m_pid == pid {
        return rec;
      }
      space.NextAt(h, k);
      pos := pos.next;
      k := k + 1;
    }
    return null;
  }

  // A record at r that is initialised and on no list.
  ghost predicate Prepared(l: Lists, nodes: set<ListHead>, rec: OwnerRecord, r: nat)
    reads rec.m_sess
  {
    && rec.m_ownerlist.obj == r && rec.m_ownerlist.offset == AT_OWNERLIST && rec.m_ownerlist in nodes
    && rec.m_devicelist.obj == r && rec.m_devicelist.offset == AT_DEVICELIST && rec.m_devicelist in nodes
    && Loose(l, rec.m_ownerlist) && Loose(l, rec.m_devicelist)
    && rec.m_sess.m_wshead.obj == r && rec.m_sess.m_wshead.offset == AT_WORKSPACES
    && rec.m_sess.m_wshead in l && l[rec.m_sess.m_wshead] == []
    && rec.m_sess.m_uiapi == rec.m_sess.m_UIHandle == rec.m_sess.m_PIPHandle == rec.m_sess.m_device == 0
  }

  // The lists of l with heads of their own added, all of them new.
  ghost predicate Extends(l: Lists, after: Lists) {
    forall h :: h in l ==> h in after && after[h] == l[h]
  }

  // kosal_kmalloc of a record at address r, then aaldev_owner_init.
  method MakeRecord(space: ListSpace, r: nat, pid: S.Pid, device: nat, manifest: nat, ownerContext: nat)
    returns (rec: OwnerRecord)
    requires space.Valid()
    modifies space
    ensures space.Valid() && old(space.nodes) <= space.nodes && fresh(space.nodes - old(space.nodes))
    ensures Extends(old(space.lists), space.lists)
    ensures fresh(rec) && rec.m_pid == pid && rec.m_device == device && rec.m_manifest == manifest
    ensures fresh(rec.m_sess) && rec.m_sess.m_ownerContext == ownerContext
    ensures Prepared(space.lists, space.nodes, rec, r)
  {
    var o := space.NewHead(r, AT_OWNERLIST);
    var d := space.NewHead(r, AT_DEVICELIST);
    var w := space.NewHead(r, AT_WORKSPACES);
    space.HeadsAreOnNoList(o);
    space.HeadsAreOnNoList(d);
    var session := new OwnerSession(ownerContext, w);
    rec := new OwnerRecord(pid, device, manifest, session, d, o);
  }

  // Both tables after the links o and d of a record have been taken off, d first.
  ghost function Detached(l: Lists, o: ListHead, d: ListHead): Lists {
    Deleted(Deleted(l, d)[d := []], o)[o := []]
  }

  lemma DetachedTables(l: Lists, home: map<ListHead, ListHead>, heads: Heads, sesslists: Heads,
                       ol: Heads, dl: Heads, o: ListHead, d: ListHead)
    requires Separate(l, home) && Typed(l, heads, AT_OWNERS, ol) && Typed(l, sesslists, AT_SESSION, dl)
    requires o.offset == AT_OWNERLIST && d.offset == AT_DEVICELIST
    requires o.obj == d.obj && o.obj in ol && ol[o.obj] == o && d.obj in dl && dl[d.obj] == d
    ensures var after := Detached(l, o, d);
      && Typed(after, heads, AT_OWNERS, ol - {o.obj}) && Typed(after, sesslists, AT_SESSION, dl - {d.obj})
      && Table(after, heads) == S.TakenOff(Table(l, heads), o.obj)
      && Table(after, sesslists) == S.TakenOff(Table(l, sesslists), d.obj)
  {
    hide Typed, Table, Separate, S.TakenOff;
    var l1 := Deleted(l, d);
    var l2: Lists := l1[d := []];
    var l3 := Deleted(l2, o);
    ListsDistinct(l, home, heads, AT_OWNERS, ol);
    ListsDistinct(l, home, sesslists, AT_SESSION, dl);
    TableUndeleted(l, heads, AT_OWNERS, ol, d);
    TableDeleted(l, sesslists, AT_SESSION, dl, d);
    TableAlone(l1, heads, AT_OWNERS, ol, d);
    TableAlone(l1, sesslists, AT_SESSION, dl - {d.obj}, d);
    DeletedDistinct(l, heads, AT_OWNERS, ol, d);
    TableDeleted(l2, heads, AT_OWNERS, ol, o);
    TableUndeleted(l2, sesslists, AT_SESSION, dl - {d.obj}, o);
    TableAlone(l3, heads, AT_OWNERS, ol - {o.obj}, o);
    TableAlone(l3, sesslists, AT_SESSION, dl - {d.obj}, o);
  }

  method LinkBoth(space: ListSpace, rec: OwnerRecord, h: ListHead, g: ListHead)
    requires space.Valid() && h in space.lists && g in space.lists && h.offset == AT_OWNERS && g.offset == AT_SESSION
    requires Prepared(space.lists, space.nodes, rec, rec.m_ownerlist.obj)
    modifies space, space.nodes
    ensures space.Valid() && space.nodes == old(space.nodes)
    ensures space.lists == Attached(old(space.lists), rec.m_ownerlist, rec.m_devicelist, h, g)
  {
    space.Neighbours(h);
    space.AddHead(rec.m_ownerlist, h);
    space.Neighbours(g);
    space.AddHead(rec.m_devicelist, g);
  }

  // What is in memory, and the tables t it stands for.
  datatype Layout = Layout(
    heads: Heads,                              // &m_ownerlist of each device
    sesslists: Heads,                          // device list head of each session
    records: map<nat, OwnerRecord>,            // the records in use, by address
    sess: map<S.SessionRef, OwnerSession>,     // the sessions in use
    owned: set<OwnerSession>,                  // the objects in sess
    t: S.Tables)

  ghost function OwnerLinks(records: map<nat, OwnerRecord>): Heads {
    map r | r in records :: records[r].m_ownerlist
  }

  ghost function DeviceLinks(records: map<nat, OwnerRecord>): Heads {
    map r | r in records :: records[r].m_devicelist
  }

  ghost predicate RecordIs(rec: OwnerRecord, r: nat, nodes: set<ListHead>, it: S.Record) {
    && rec.m_ownerlist.obj == r && rec.m_ownerlist.offset == AT_OWNERLIST && rec.m_ownerlist in nodes
    && rec.m_devicelist.obj == r && rec.m_devicelist.offset == AT_DEVICELIST && rec.m_devicelist in nodes
    && it.(slist := 0) == S.Record(rec.m_pid, rec.m_device, rec.m_manifest, 0)
  }

  ghost predicate RecordsLaidOut(nodes: set<ListHead>, v: Layout) {
    && v.t.recs.Keys == v.records.Keys
    && forall r :: r in v.records ==>
      && RecordIs(v.records[r], r, nodes, v.t.recs[r])
      && S.Embedded(r) in v.sess && v.sess[S.Embedded(r)] == v.records[r].m_sess
  }

  function Fields(o: OwnerSession): (nat, nat, nat, nat, nat)
    reads o
  {
    (o.m_uiapi, o.m_UIHandle, o.m_ownerContext, o.m_PIPHandle, o.m_device)
  }

  // o with fields f is the session k, whose contents are s.
  ghost predicate SessionFits(l: Lists, o: OwnerSession, f: (nat, nat, nat, nat, nat), k: S.SessionRef, s: S.Session) {
    && o.m_wshead in l
    && o.m_wshead.obj == (if k.Embedded? then k.rec else k.id)
    && o.m_wshead.offset == (if k.Embedded? then AT_WORKSPACES else AT_ELSEWHERE)
    && s == S.Session(f.0, f.1, f.2, f.3, Objs(l[o.m_wshead]), f.4)
  }

  ghost predicate SessionIs(l: Lists, o: OwnerSession, k: S.SessionRef, s: S.Session)
    reads o
  {
    SessionFits(l, o, Fields(o), k, s)
  }

  ghost predicate SessionsLaidOut(l: Lists, v: Layout)
    reads v.owned
  {
    && v.t.sess.Keys == v.sess.Keys
    && forall k :: k in v.sess ==> v.sess[k] in v.owned && SessionIs(l, v.sess[k], k, v.t.sess[k])
  }

  ghost predicate ListsLaidOut(l: Lists, v: Layout) {
    && Typed(l, v.heads, AT_OWNERS, OwnerLinks(v.records)) && v.t.owners == Table(l, v.heads)
    && Typed(l, v.sesslists, AT_SESSION, DeviceLinks(v.records)) && v.t.devlists == Table(l, v.sesslists)
  }

  ghost predicate Shaped(l: Lists, nodes: set<ListHead>, v: Layout)
    reads v.owned
  {
    ListsLaidOut(l, v) && RecordsLaidOut(nodes, v) && SessionsLaidOut(l, v) && S.Wf(v.t)
  }

  lemma ShapedParts(l: Lists, nodes: set<ListHead>, v: Layout)
    requires Shaped(l, nodes, v)
    ensures ListsLaidOut(l, v) && RecordsLaidOut(nodes, v) && SessionsLaidOut(l, v) && S.Wf(v.t)
  {
  }

  // New heads elsewhere change nothing.
  lemma Grown(l: Lists, nodes: set<ListHead>, v: Layout, after: Lists, more: set<ListHead>)
    requires Shaped(l, nodes, v) && nodes <= more && Extends(l, after)
    ensures Shaped(after, more, v)
  {
    TableKept(l, after, v.heads, AT_OWNERS, OwnerLinks(v.records));
    TableKept(l, after, v.sesslists, AT_SESSION, DeviceLinks(v.records));
  }

  lemma TableGrown(l: Lists, heads: Heads, at: nat, link: Heads, k: nat, h: ListHead)
    requires Typed(l, heads, at, link) && h.obj == k && h.offset == at && h in l && l[h] == []
    ensures Typed(l, heads[k := h], at, link) && Table(l, heads[k := h]) == Table(l, heads)[k := []]
  {
    assert Objs([]) == [];
  }

  lemma DeviceGrown(l: Lists, nodes: set<ListHead>, v: Layout, d: nat, h: ListHead)
    requires Shaped(l, nodes, v) && d !in v.t.owners
    requires h.obj == d && h.offset == AT_OWNERS && h in l && l[h] == []
    ensures Shaped(l, nodes, v.(heads := v.heads[d := h], t := v.t.(owners := v.t.owners[d := []])))
  {
    hide RecordIs, SessionIs, Typed, Table, S.Indexed, Objs;
    TableGrown(l, v.heads, AT_OWNERS, OwnerLinks(v.records), d, h);
    P.IndexedGrown(v.t.owners, S.DeviceOf(v.t.recs), d);
  }

  lemma SessionListGrown(l: Lists, nodes: set<ListHead>, v: Layout, id: nat, h: ListHead)
    requires Shaped(l, nodes, v) && id !in v.t.devlists
    requires h.obj == id && h.offset == AT_SESSION && h in l && l[h] == []
    ensures Shaped(l, nodes, v.(sesslists := v.sesslists[id := h], t := v.t.(devlists := v.t.devlists[id := []])))
  {
    hide RecordIs, SessionIs, Typed, Table, S.Indexed, Objs;
    TableGrown(l, v.sesslists, AT_SESSION, DeviceLinks(v.records), id, h);
    P.IndexedGrown(v.t.devlists, S.SlistOf(v.t.recs), id);
  }

  lemma SessionGrown(l: Lists, nodes: set<ListHead>, v: Layout, id: nat, it: OwnerSession)
    requires Shaped(l, nodes, v) && S.Elsewhere(id) !in v.t.sess
    requires SessionIs(l, it, S.Elsewhere(id), S.Session(0, 0, it.m_ownerContext, 0, [], 0))
    ensures Shaped(l, nodes, v.(sess := v.sess[S.Elsewhere(id) := it], owned := v.owned + {it},
                                t := v.t.(sess := v.t.sess[S.Elsewhere(id) := S.Session(0, 0, it.m_ownerContext, 0, [], 0)])))
  {
    hide RecordIs, SessionIs, S.Indexed, Typed, Table;
  }

  // The layout with a record attached.
  ghost function WithRecord(v: Layout, rec: OwnerRecord, op: S.Op): Layout
    requires S.Linkable(v.t, op, rec.m_ownerlist.obj)
  {
    var r := rec.m_ownerlist.obj;
    v.(records := v.records[r := rec], sess := v.sess[S.Embedded(r) := rec.m_sess],
       owned := v.owned + {rec.m_sess}, t := S.Linked(v.t, op, r))
  }

  lemma LaidOutKeys(l: Lists, v: Layout)
    requires ListsLaidOut(l, v)
    ensures v.t.owners.Keys == v.heads.Keys && v.t.devlists.Keys == v.sesslists.Keys
  {
  }

  lemma AttachedLists(l: Lists, v: Layout, rec: OwnerRecord, op: S.Op)
    requires ListsLaidOut(l, v) && op.Add? && S.Linkable(v.t, op, rec.m_ownerlist.obj)
    requires rec.m_ownerlist.offset == AT_OWNERLIST && rec.m_devicelist.offset == AT_DEVICELIST
    requires rec.m_devicelist.obj == rec.m_ownerlist.obj && v.t.recs.Keys == v.records.Keys
    ensures ListsLaidOut(Attached(l, rec.m_ownerlist, rec.m_devicelist, v.heads[op.dev], v.sesslists[op.slist]),
                         WithRecord(v, rec, op))
  {
    hide Typed, Table, Attached;
    LaidOutKeys(l, v);
    var r := rec.m_ownerlist.obj;
    AttachedTables(l, v.heads, v.sesslists, OwnerLinks(v.records), DeviceLinks(v.records),
                   rec.m_ownerlist, rec.m_devicelist, op.dev, op.slist);
    assert OwnerLinks(v.records[r := rec]) == OwnerLinks(v.records)[r := rec.m_ownerlist];
    assert DeviceLinks(v.records[r := rec]) == DeviceLinks(v.records)[r := rec.m_devicelist];
  }

  lemma AttachedRecords(nodes: set<ListHead>, v: Layout, rec: OwnerRecord, op: S.Op)
    requires RecordsLaidOut(nodes, v) && op.Add? && S.Linkable(v.t, op, rec.m_ownerlist.obj)
    requires RecordIs(rec, rec.m_ownerlist.obj, nodes, S.Record(op.pid, op.dev, op.context, op.slist))
    ensures RecordsLaidOut(nodes, WithRecord(v, rec, op))
  {
  }

  lemma AttachedSessions(l: Lists, after: Lists, v: Layout, rec: OwnerRecord, op: S.Op)
    requires SessionsLaidOut(l, v) && op.Add? && S.Linkable(v.t, op, rec.m_ownerlist.obj)
    requires SessionIs(l, rec.m_sess, S.Embedded(rec.m_ownerlist.obj), S.Session(0, 0, op.manifest, 0, [], 0))
    requires ListsOfSessionsKept(l, after)
    ensures SessionsLaidOut(after, WithRecord(v, rec, op))
  {
  }

  ghost predicate ListsOfSessionsKept(l: Lists, after: Lists) {
    forall h :: h in l && (h.offset == AT_WORKSPACES || h.offset == AT_ELSEWHERE) ==> h in after && after[h] == l[h]
  }

  lemma HeadsLaidOut(l: Lists, nodes: set<ListHead>, v: Layout)
    requires Shaped(l, nodes, v)
    ensures v.t.recs.Keys == v.records.Keys && v.t.owners.Keys == v.heads.Keys && v.t.devlists.Keys == v.sesslists.Keys
    ensures forall d :: d in v.heads ==> v.heads[d] in l && v.heads[d].offset == AT_OWNERS
    ensures forall s :: s in v.sesslists ==> v.sesslists[s] in l && v.sesslists[s].offset == AT_SESSION
  {
    hide SessionsLaidOut, S.Wf;
  }

  lemma AttachedShape(l: Lists, nodes: set<ListHead>, v: Layout, rec: OwnerRecord, op: S.Op)
    requires Shaped(l, nodes, v) && op.Add? && S.Linkable(v.t, op, rec.m_ownerlist.obj)
    requires Prepared(l, nodes, rec, rec.m_ownerlist.obj)
    requires rec.m_pid == op.pid && rec.m_device == op.dev && rec.m_manifest == op.context
    requires rec.m_sess.m_ownerContext == op.manifest
    ensures op.dev in v.heads && op.slist in v.sesslists && v.heads[op.dev] in l && v.sesslists[op.slist] in l
    ensures v.heads[op.dev].offset == AT_OWNERS && v.sesslists[op.slist].offset == AT_SESSION
    ensures Shaped(Attached(l, rec.m_ownerlist, rec.m_devicelist, v.heads[op.dev], v.sesslists[op.slist]),
                   nodes, WithRecord(v, rec, op))
  {
    hide ListsLaidOut, RecordsLaidOut, SessionsLaidOut, S.Wf, S.Linked;
    HeadsLaidOut(l, nodes, v);
    var h, g := v.heads[op.dev], v.sesslists[op.slist];
    AttachedLists(l, v, rec, op);
    AttachedRecords(nodes, v, rec, op);
    AttachedSessions(l, Attached(l, rec.m_ownerlist, rec.m_devicelist, h, g), v, rec, op);
    P.LinkedWf(v.t, op, rec.m_ownerlist.obj);
  }

  // ----- a record leaves

  lemma ListedLink(l: Lists, heads: Heads, at: nat, link: Heads, of: map<nat, nat>, r: nat)
    requires Typed(l, heads, at, link) && S.Indexed(Table(l, heads), of) && r in of && r in link
    ensures OnLists(l, link[r], at)
  {
    assert S.OnList(Table(l, heads), of, r);
    var k := of[r];
    var i :| 0 <= i < |l[heads[k]]| && Objs(l[heads[k]])[i] == r;
    assert l[heads[k]][i] in l[heads[k]];
  }

  // Both links of a record in use are on a list.
  lemma RecordListed(l: Lists, nodes: set<ListHead>, v: Layout, r: nat)
    requires Shaped(l, nodes, v) && r in v.records
    ensures RecordIs(v.records[r], r, nodes, v.t.recs[r])
    ensures OnLists(l, v.records[r].m_ownerlist, AT_OWNERS) && OnLists(l, v.records[r].m_devicelist, AT_SESSION)
  {
    hide Typed, S.Indexed, Table, SessionsLaidOut, OnLists;
    ListedLink(l, v.heads, AT_OWNERS, OwnerLinks(v.records), S.DeviceOf(v.t.recs), r);
    ListedLink(l, v.sesslists, AT_SESSION, DeviceLinks(v.records), S.SlistOf(v.t.recs), r);
  }

  ghost function WithoutRecord(v: Layout, op: S.Op, r: nat): Layout
    requires S.Linkable(v.t, op, r)
  {
    v.(records := v.records - {r}, sess := v.sess - {S.Embedded(r)}, t := S.Linked(v.t, op, r))
  }

  lemma DetachedLists(l: Lists, home: map<ListHead, ListHead>, nodes: set<ListHead>, v: Layout, op: S.Op, r: nat)
    requires Separate(l, home) && ListsLaidOut(l, v) && RecordsLaidOut(nodes, v)
    requires op.Remove? && S.Linkable(v.t, op, r)
    ensures r in v.records
    ensures ListsLaidOut(Detached(l, v.records[r].m_ownerlist, v.records[r].m_devicelist), WithoutRecord(v, op, r))
  {
    hide Separate, Typed, Table, Detached, S.TakenOff;
    DetachedTables(l, home, v.heads, v.sesslists, OwnerLinks(v.records), DeviceLinks(v.records),
                   v.records[r].m_ownerlist, v.records[r].m_devicelist);
    assert OwnerLinks(v.records - {r}) == OwnerLinks(v.records) - {r};
    assert DeviceLinks(v.records - {r}) == DeviceLinks(v.records) - {r};
  }

  lemma DetachedRecords(nodes: set<ListHead>, v: Layout, op: S.Op, r: nat)
    requires RecordsLaidOut(nodes, v) && op.Remove? && S.Linkable(v.t, op, r)
    ensures RecordsLaidOut(nodes, WithoutRecord(v, op, r))
  {
  }

  lemma DetachedSessions(l: Lists, after: Lists, v: Layout, op: S.Op, r: nat)
    requires SessionsLaidOut(l, v) && op.Remove? && S.Linkable(v.t, op, r) && ListsOfSessionsKept(l, after)
    ensures SessionsLaidOut(after, WithoutRecord(v, op, r))
  {
  }

  lemma DetachedKeepsSessions(l: Lists, home: map<ListHead, ListHead>, o: ListHead, d: ListHead)
    requires Separate(l, home) && o.offset == AT_OWNERLIST && d.offset == AT_DEVICELIST
    requires OnLists(l, o, AT_OWNERS) && OnLists(l, d, AT_SESSION)
    ensures ListsOfSessionsKept(l, Detached(l, o, d))
  {
    forall h | h in l && (h.offset == AT_WORKSPACES || h.offset == AT_ELSEWHERE)
      ensures Without(Without(l[h], d), o) == l[h]
    {
      WithoutAbsent(l[h], d);
      WithoutAbsent(l[h], o);
    }
  }

  lemma DetachedShape(l: Lists, home: map<ListHead, ListHead>, nodes: set<ListHead>, v: Layout, op: S.Op, r: nat)
    requires Separate(l, home) && Shaped(l, nodes, v) && op.Remove? && S.Linkable(v.t, op, r)
    ensures r in v.records
    ensures Shaped(Detached(l, v.records[r].m_ownerlist, v.records[r].m_devicelist), nodes, WithoutRecord(v, op, r))
  {
    hide Separate, ListsLaidOut, RecordsLaidOut, SessionsLaidOut, S.Wf, S.Linked, Detached, OnLists;
    HeadsLaidOut(l, nodes, v);
    RecordListed(l, nodes, v, r);
    var o, d := v.records[r].m_ownerlist, v.records[r].m_devicelist;
    DetachedLists(l, home, nodes, v, op, r);
    DetachedRecords(nodes, v, op, r);
    DetachedKeepsSessions(l, home, o, d);
    DetachedSessions(l, Detached(l, o, d), v, op, r);
    P.LinkedWf(v.t, op, r);
  }

  // list_del_init of both links, the session's first.
  method UnlinkBoth(space: ListSpace, o: ListHead, d: ListHead)
    requires space.Valid() && OnAList(space.lists, o) && OnAList(space.lists, d) && o != d
    requires o in space.nodes && d in space.nodes
    modifies space, space.nodes
    ensures space.Valid() && space.nodes == old(space.nodes)
    ensures space.lists == Detached(old(space.lists), o, d)
  {
    space.NearNodes(d);
    StillListed(space.lists, space.home, o, d);
    space.DelInit(d);
    space.NearNodes(o);
    space.DelInit(o);
  }

  lemma StillListed(l: Lists, home: map<ListHead, ListHead>, o: ListHead, d: ListHead)
    requires Separate(l, home) && OnAList(l, o) && OnAList(l, d) && o != d
    ensures OnAList(Deleted(l, d)[d := []], o)
  {
    var h :| h in l && o in l[h];
    var after: Lists := Deleted(l, d)[d := []];
    WithoutDistinct(l[h], d);
    assert d !in l;
    assert h in after && o in after[h];
  }

  // n is on the list of a head embedded at offset at.
  ghost predicate OnLists(l: Lists, n: ListHead, at: nat) {
    exists h :: h in l && h.offset == at && n in l[h]
  }

  // ----- a record changes sessions

  // The lists after the workspace list of one session was handed to another.
  ghost function Handed(l: Lists, from: OwnerSession?, to: OwnerSession): Lists
    requires from != null ==> from.m_wshead in l
  {
    if from == null || from == to then l else l[to.m_wshead := l[from.m_wshead]][from.m_wshead := []]
  }

  ghost function Relisted(l: Lists, d: ListHead, g: ListHead, from: OwnerSession?, to: OwnerSession): Lists
    requires g in l && g != d && to.m_wshead in l && (from != null ==> from.m_wshead in l && from.m_wshead != d)
  {
    AddedHead(Handed(Deleted(l, d), from, to), d, g)
  }

  ghost predicate IsSession(l: Lists, o: OwnerSession) {
    o.m_wshead in l && (o.m_wshead.offset == AT_WORKSPACES || o.m_wshead.offset == AT_ELSEWHERE)
  }

  lemma HeadAt(l: Lists, heads: Heads, at: nat, link: Heads, k: nat)
    requires Typed(l, heads, at, link) && k in heads
    ensures heads[k] in l && heads[k].obj == k && heads[k].offset == at && k in Table(l, heads)
  {
  }

  lemma HandedKeeps(l: Lists, from: OwnerSession?, to: OwnerSession, g: ListHead)
    requires g in l && g.offset == AT_SESSION && IsSession(l, to) && (from != null ==> IsSession(l, from))
    ensures g in Handed(l, from, to)
  {
  }

  lemma TakenOffAt(lists: map<nat, seq<nat>>, r: nat, k: nat)
    requires k in lists
    ensures k in S.TakenOff(lists, r) && S.TakenOff(lists, r)[k] == Without(lists[k], r)
  {
  }

  lemma TableHanded(l: Lists, heads: Heads, at: nat, link: Heads, from: OwnerSession?, to: OwnerSession)
    requires Typed(l, heads, at, link) && at != AT_WORKSPACES && at != AT_ELSEWHERE
    requires IsSession(l, to) && (from != null ==> IsSession(l, from))
    ensures Typed(Handed(l, from, to), heads, at, link) && Table(Handed(l, from, to), heads) == Table(l, heads)
  {
    TableKept(l, Handed(l, from, to), heads, at, link);
  }

  lemma TableAside(l: Lists, heads: Heads, at: nat, link: Heads, n: ListHead, g: ListHead)
    requires Typed(l, heads, at, link) && n.offset != at && g in l && g.offset != at
    ensures Typed(AddedHead(l, n, g), heads, at, link) && Table(AddedHead(l, n, g), heads) == Table(l, heads)
  {
    TableKept(l, AddedHead(l, n, g), heads, at, link);
  }

  lemma RelistedTables(l: Lists, home: map<ListHead, ListHead>, heads: Heads, sesslists: Heads, ol: Heads, dl: Heads,
                       d: ListHead, slist: nat, from: OwnerSession?, to: OwnerSession)
    requires Separate(l, home) && Typed(l, heads, AT_OWNERS, ol) && Typed(l, sesslists, AT_SESSION, dl)
    requires d.offset == AT_DEVICELIST && d.obj in dl && dl[d.obj] == d && (d.obj in ol ==> ol[d.obj] != d)
    requires slist in sesslists && IsSession(l, to) && (from != null ==> IsSession(l, from))
    ensures var after := Relisted(l, d, sesslists[slist], from, to);
      && Typed(after, heads, AT_OWNERS, ol) && Typed(after, sesslists, AT_SESSION, dl)
      && Table(after, heads) == Table(l, heads)
      && Table(after, sesslists) ==
        S.TakenOff(Table(l, sesslists), d.obj)[slist := [d.obj] + Without(Table(l, sesslists)[slist], d.obj)]
  {
    hide Separate, Typed, Table, Handed, S.TakenOff;
    var l1 := Deleted(l, d);
    HeadAt(l, sesslists, AT_SESSION, dl, slist);
    HandedKeeps(l1, from, to, sesslists[slist]);
    var l2 := Handed(l1, from, to);
    ListsDistinct(l, home, sesslists, AT_SESSION, dl);
    TableUndeleted(l, heads, AT_OWNERS, ol, d);
    TableHanded(l1, heads, AT_OWNERS, ol, from, to);
    TableAside(l2, heads, AT_OWNERS, ol, d, sesslists[slist]);
    TableDeleted(l, sesslists, AT_SESSION, dl, d);
    TableHanded(l1, sesslists, AT_SESSION, dl - {d.obj}, from, to);
    TableAdded(l2, sesslists, AT_SESSION, dl - {d.obj}, d, slist);
    TakenOffAt(Table(l, sesslists), d.obj, slist);
    assert (dl - {d.obj})[d.obj := d] == dl;
  }

  ghost function SourceOf(v: Layout, op: S.Op, r: nat): OwnerSession?
    requires op.Update?
  {
    if op.src.None? || op.src.value == S.Embedded(r) || op.src.value !in v.sess then null else v.sess[op.src.value]
  }

  ghost function WithTables(v: Layout, op: S.Op, r: nat): Layout
    requires S.Linkable(v.t, op, r)
  {
    v.(t := S.Linked(v.t, op, r))
  }

  lemma RelistedLists(l: Lists, home: map<ListHead, ListHead>, nodes: set<ListHead>, v: Layout, op: S.Op, r: nat,
                      from: OwnerSession?, to: OwnerSession)
    requires Separate(l, home) && ListsLaidOut(l, v) && RecordsLaidOut(nodes, v)
    requires op.Update? && S.Linkable(v.t, op, r) && IsSession(l, to) && (from != null ==> IsSession(l, from))
    ensures r in v.records && op.slist in v.sesslists && v.sesslists[op.slist] in l
    ensures v.sesslists[op.slist].offset == AT_SESSION && v.records[r].m_devicelist.offset == AT_DEVICELIST
    ensures ListsLaidOut(Relisted(l, v.records[r].m_devicelist, v.sesslists[op.slist], from, to), WithTables(v, op, r))
  {
    hide Separate, Typed, Relisted, S.TakenOff;
    HeadAt(l, v.sesslists, AT_SESSION, DeviceLinks(v.records), op.slist);
    RelistedTables(l, home, v.heads, v.sesslists, OwnerLinks(v.records), DeviceLinks(v.records),
                   v.records[r].m_devicelist, op.slist, from, to);
  }

  lemma RelistedRecords(nodes: set<ListHead>, v: Layout, op: S.Op, r: nat)
    requires RecordsLaidOut(nodes, v) && op.Update? && S.Linkable(v.t, op, r)
    ensures RecordsLaidOut(nodes, WithTables(v, op, r))
  {
  }

  // The fields of the sessions at some moment.
  ghost function Snapshot(owned: set<OwnerSession>): map<OwnerSession, (nat, nat, nat, nat, nat)>
    reads owned
  {
    map o | o in owned :: Fields(o)
  }

  // Since the snapshot, to has taken over the fields of from, if there is one.
  ghost predicate CopiedSince(was: map<OwnerSession, (nat, nat, nat, nat, nat)>, from: OwnerSession?, to: OwnerSession)
    requires to in was && (from != null ==> from in was)
    reads was.Keys
  {
    && Fields(to) == (if from == null then was[to] else was[from])
    && forall o :: o in was && o != to ==> Fields(o) == was[o]
  }

  method OwnerSessCopy(space: ListSpace, to: OwnerSession, from: OwnerSession)
    requires space.Valid() && to.m_wshead in space.lists && from.m_wshead in space.lists
    requires to.m_wshead != from.m_wshead
    modifies space, space.nodes, to
    ensures space.Valid() && space.nodes == old(space.nodes)
    ensures space.lists == old(space.lists)[to.m_wshead := old(space.lists)[from.m_wshead]][from.m_wshead := []]
    ensures Fields(to) == old(Fields(from))
  {
    to.m_uiapi := from.m_uiapi;
    to.m_UIHandle := from.m_UIHandle;
    to.m_ownerContext := from.m_ownerContext;
    to.m_PIPHandle := from.m_PIPHandle;
    to.m_device := from.m_device;
    label copied:
    space.HeadsAreOnNoList(to.m_wshead);
    space.Neighbours(from.m_wshead);
    space.ReplaceInit(from.m_wshead, to.m_wshead);
    assert unchanged@copied(to);
  }

  method CopyIfAny(space: ListSpace, to: OwnerSession, from: OwnerSession?, ghost owned: set<OwnerSession>)
    requires space.Valid() && to.m_wshead in space.lists && (from != null ==> from.m_wshead in space.lists)
    requires from != null ==> from.m_wshead != to.m_wshead
    requires to in owned && (from != null ==> from in owned)
    modifies space, space.nodes, to
    ensures space.Valid() && space.nodes == old(space.nodes)
    ensures space.lists == Handed(old(space.lists), from, to)
    ensures CopiedSince(old(Snapshot(owned)), from, to)
  {
    hide ListSpace.Valid;
    if from != null {
      OwnerSessCopy(space, to, from);
    }
  }

  lemma StaysLoose(l: Lists, from: OwnerSession?, to: OwnerSession, n: ListHead)
    requires Loose(l, n) && n != to.m_wshead && to.m_wshead in l && (from != null ==> from.m_wshead in l && n != from.m_wshead)
    ensures Loose(Handed(l, from, to), n)
  {
  }

  // The list work of aaldev_updateOwner: the link is deleted, the session
  // copied by ownerSess_Copy if there is one to copy, the link added. The
  // struct assignment also copies the two links of the workspace head, which
  // the list replacement then sets.
  method MoveAndCopy(space: ListSpace, d: ListHead, g: ListHead, from: OwnerSession?, to: OwnerSession,
                     ghost owned: set<OwnerSession>)
    requires space.Valid() && OnAList(space.lists, d) && d in space.nodes && d.offset == AT_DEVICELIST
    requires g in space.lists && g.offset == AT_SESSION
    requires IsSession(space.lists, to) && (from != null ==> IsSession(space.lists, from))
    requires from != null ==> from.m_wshead != to.m_wshead
    requires to in owned && (from != null ==> from in owned)
    modifies space, space.nodes, to
    ensures space.Valid() && space.nodes == old(space.nodes)
    ensures space.lists == Relisted(old(space.lists), d, g, from, to)
    ensures CopiedSince(old(Snapshot(owned)), from, to)
  {
    hide ListSpace.Valid, CopiedSince, OnAList, Loose;
    space.NearNodes(d);
    space.Del(d);
    StaysLoose(space.lists, from, to, d);
    CopyIfAny(space, to, from, owned);
    space.HeadNodes(g);
    space.AddHead(d, g);
  }

  // The workspace lists after are those of l with one handed over.
  ghost predicate OnlyHanded(l: Lists, after: Lists, from: OwnerSession?, to: OwnerSession)
    requires from != null ==> from.m_wshead in l
  {
    forall h :: h in l && (h.offset == AT_WORKSPACES || h.offset == AT_ELSEWHERE) ==>
      h in after && h in Handed(l, from, to) && after[h] == Handed(l, from, to)[h]
  }

  lemma RelistedOnlyHands(l: Lists, home: map<ListHead, ListHead>, d: ListHead, g: ListHead, from: OwnerSession?, to: OwnerSession)
    requires Separate(l, home) && d.offset == AT_DEVICELIST && g in l && g.offset == AT_SESSION
    requires OnLists(l, d, AT_SESSION) && IsSession(l, to) && (from != null ==> IsSession(l, from))
    ensures OnlyHanded(l, Relisted(l, d, g, from, to), from, to)
  {
    forall h | h in l && (h.offset == AT_WORKSPACES || h.offset == AT_ELSEWHERE)
      ensures Without(l[h], d) == l[h]
    {
      WithoutAbsent(l[h], d);
    }
  }

  ghost predicate SessionsWere(l: Lists, v: Layout, was: map<OwnerSession, (nat, nat, nat, nat, nat)>) {
    && v.t.sess.Keys == v.sess.Keys && was.Keys == v.owned
    && forall k :: k in v.sess ==> v.sess[k] in v.owned && SessionFits(l, v.sess[k], was[v.sess[k]], k, v.t.sess[k])
  }

  lemma TakeSnapshot(l: Lists, v: Layout)
    requires SessionsLaidOut(l, v)
    ensures SessionsWere(l, v, Snapshot(v.owned))
  {
  }

  lemma SessionsRelisted(l: Lists, after: Lists, v: Layout, op: S.Op, r: nat, to: OwnerSession,
                         was: map<OwnerSession, (nat, nat, nat, nat, nat)>)
    requires SessionsWere(l, v, was) && op.Update? && S.Linkable(v.t, op, r)
    requires S.Embedded(r) in v.sess && v.sess[S.Embedded(r)] == to
    requires CopiedSince(was, SourceOf(v, op, r), to)
    requires OnlyHanded(l, after, SourceOf(v, op, r), to)
    ensures SessionsLaidOut(after, WithTables(v, op, r))
  {
    var from, w := SourceOf(v, op, r), WithTables(v, op, r);
    forall k | k in w.sess
      ensures w.sess[k] in w.owned && SessionIs(after, w.sess[k], k, w.t.sess[k])
    {
      assert SessionFits(l, v.sess[k], was[v.sess[k]], k, v.t.sess[k]);
      assert SessionFits(l, to, was[to], S.Embedded(r), v.t.sess[S.Embedded(r)]);
      if from != null {
        assert SessionFits(l, from, was[from], op.src.value, v.t.sess[op.src.value]);
      }
    }
  }

  lemma SourceLaidOut(l: Lists, nodes: set<ListHead>, v: Layout, op: S.Op, r: nat)
    requires Shaped(l, nodes, v) && op.Update? && S.Linkable(v.t, op, r)
    ensures r in v.records && S.Embedded(r) in v.sess && v.sess[S.Embedded(r)] == v.records[r].m_sess
    ensures IsSession(l, v.records[r].m_sess) && v.records[r].m_sess in v.owned
    ensures op.src.Some? ==> op.src.value in v.sess
    ensures var from := SourceOf(v, op, r);
      from != null ==> IsSession(l, from) && from.m_wshead != v.records[r].m_sess.m_wshead
  {
    hide ListsLaidOut, S.Wf;
    assert SessionIs(l, v.sess[S.Embedded(r)], S.Embedded(r), v.t.sess[S.Embedded(r)]);
    if op.src.Some? {
      assert SessionIs(l, v.sess[op.src.value], op.src.value, v.t.sess[op.src.value]);
    }
  }

  // What the list work of an update may rely on.
  lemma RelistReady(l: Lists, home: map<ListHead, ListHead>, nodes: set<ListHead>, v: Layout, op: S.Op, r: nat)
    requires Separate(l, home) && Shaped(l, nodes, v) && op.Update? && S.Linkable(v.t, op, r)
    ensures r in v.records && v.records[r].m_devicelist in nodes && v.records[r].m_devicelist.offset == AT_DEVICELIST
    ensures OnLists(l, v.records[r].m_devicelist, AT_SESSION)
    ensures op.slist in v.sesslists && v.sesslists[op.slist] in l && v.sesslists[op.slist].offset == AT_SESSION
    ensures S.Embedded(r) in v.sess && v.sess[S.Embedded(r)] == v.records[r].m_sess
    ensures IsSession(l, v.records[r].m_sess) && v.records[r].m_sess in v.owned
    ensures op.src.Some? ==> op.src.value in v.sess
    ensures var from := SourceOf(v, op, r);
      from != null ==> IsSession(l, from) && from.m_wshead != v.records[r].m_sess.m_wshead
  {
    hide ListsLaidOut, RecordsLaidOut, SessionsLaidOut, S.Wf, Separate, OnLists;
    HeadsLaidOut(l, nodes, v);
    SourceLaidOut(l, nodes, v, op, r);
    RecordListed(l, nodes, v, r);
  }

  lemma RelistShape(l: Lists, home: map<ListHead, ListHead>, nodes: set<ListHead>, v: Layout, op: S.Op, r: nat,
                    after: Lists, was: map<OwnerSession, (nat, nat, nat, nat, nat)>)
    requires Separate(l, home) && ListsLaidOut(l, v) && RecordsLaidOut(nodes, v) && S.Wf(v.t)
    requires SessionsWere(l, v, was) && op.Update? && S.Linkable(v.t, op, r)
    requires r in v.records && op.slist in v.sesslists && v.sesslists[op.slist] in l
    requires OnLists(l, v.records[r].m_devicelist, AT_SESSION)
    requires S.Embedded(r) in v.sess && v.sess[S.Embedded(r)] == v.records[r].m_sess
    requires v.sesslists[op.slist].offset == AT_SESSION && v.records[r].m_devicelist.offset == AT_DEVICELIST
    requires IsSession(l, v.records[r].m_sess) && (SourceOf(v, op, r) != null ==> IsSession(l, SourceOf(v, op, r)))
    requires after == Relisted(l, v.records[r].m_devicelist, v.sesslists[op.slist], SourceOf(v, op, r), v.records[r].m_sess)
    requires CopiedSince(was, SourceOf(v, op, r), v.records[r].m_sess)
    ensures Shaped(after, nodes, WithTables(v, op, r))
  {
    hide ListsLaidOut, RecordsLaidOut, SessionsLaidOut, S.Wf, S.Linked, Separate, CopiedSince, OnlyHanded, Relisted, OnLists;
    var from, to := SourceOf(v, op, r), v.records[r].m_sess;
    RelistedLists(l, home, nodes, v, op, r, from, to);
    RelistedRecords(nodes, v, op, r);
    RelistedOnlyHands(l, home, v.records[r].m_devicelist, v.sesslists[op.slist], from, to);
    SessionsRelisted(l, after, v, op, r, to, was);
    P.LinkedWf(v.t, op, r);
  }

  lemma OnListsOnAList(l: Lists, n: ListHead, at: nat)
    requires OnLists(l, n, at)
    ensures OnAList(l, n)
  {
  }

  class OwnerTables {
    const space: ListSpace
    var heads: Heads
    var sesslists: Heads
    var records: map<nat, OwnerRecord>
    var sess: map<S.SessionRef, OwnerSession>
    ghost var owned: set<OwnerSession>
    ghost var t: S.Tables

    ghost function View(): Layout
      reads this
    {
      Layout(heads, sesslists, records, sess, owned, t)
    }

    ghost predicate Valid()
      reads this, space, space.nodes, owned
    {
      space.Valid() && Shaped(space.lists, space.nodes, View())
    }

    constructor ()
      ensures Valid() && fresh(space) && t == S.Tables(map[], map[], map[], map[])
    {
      hide Shaped;
      space := new ListSpace();
      heads, sesslists, records, sess := map[], map[], map[], map[];
      owned, t := {}, S.Tables(map[], map[], map[], map[]);
      new;
      EmptyShape();
    }

    lemma EmptyShape()
      ensures Shaped(map[], {}, Layout(map[], map[], map[], map[], {}, S.Tables(map[], map[], map[], map[])))
    {
      assert S.DeviceOf(map[]) == map[] && S.SlistOf(map[]) == map[];
    }

    // A device comes to be, with its owner list initialised by aaldev_init.
    method NewDevice(d: nat)
      requires Valid() && d !in t.owners
      modifies this, space
      ensures Valid() && t == old(t).(owners := old(t).owners[d := []])
      ensures fresh(space.nodes - old(space.nodes)) && unchanged(`records) && unchanged(`sess) && unchanged(`owned)
    {
      hide Shaped, ListSpace.Valid;
      ghost var l: Lists, nodes, v := space.lists, space.nodes, View();
      var h := space.NewHead(d, AT_OWNERS);
      heads := heads[d := h];
      t := t.(owners := t.owners[d := []]);
      Grown(l, nodes, v, space.lists, space.nodes);
      DeviceGrown(space.lists, space.nodes, v, d, h);
    }

    // A session starts a list of the devices it owns.
    method NewSessionList(id: nat)
      requires Valid() && id !in t.devlists
      modifies this, space
      ensures Valid() && t == old(t).(devlists := old(t).devlists[id := []])
      ensures fresh(space.nodes - old(space.nodes)) && unchanged(`records) && unchanged(`sess) && unchanged(`owned)
    {
      hide Shaped, ListSpace.Valid;
      ghost var l: Lists, nodes, v := space.lists, space.nodes, View();
      var h := space.NewHead(id, AT_SESSION);
      sesslists := sesslists[id := h];
      t := t.(devlists := t.devlists[id := []]);
      Grown(l, nodes, v, space.lists, space.nodes);
      SessionListGrown(space.lists, space.nodes, v, id, h);
    }

    // ownerSess_Init of a session that is in no record.
    method NewSession(id: nat, ownerContext: nat)
      requires Valid() && S.Elsewhere(id) !in t.sess
      modifies this, space
      ensures Valid()
      ensures t == old(t).(sess := old(t).sess[S.Elsewhere(id) := S.Session(0, 0, ownerContext, 0, [], 0)])
      ensures fresh(space.nodes - old(space.nodes)) && fresh(owned - old(owned))
    {
      hide Shaped, ListSpace.Valid;
      ghost var l: Lists, nodes, v := space.lists, space.nodes, View();
      var h := space.NewHead(id, AT_ELSEWHERE);
      Grown(l, nodes, v, space.lists, space.nodes);
      var it := new OwnerSession(ownerContext, h);
      SessionGrown(space.lists, space.nodes, v, id, it);
      sess := sess[S.Elsewhere(id) := it];
      owned := owned + {it};
      t := t.(sess := t.sess[S.Elsewhere(id) := S.Session(0, 0, ownerContext, 0, [], 0)]);
    }

    predicate Knows(rec: OwnerRecord)
      reads this
    {
      rec.m_ownerlist.obj in records && records[rec.m_ownerlist.obj] == rec
    }

    // aaldev_find_pid_owner, behind its validation of the device.
    method FindPid(dev: nat, pid: S.Pid) returns (found: OwnerRecord?)
      requires Valid() && dev in t.owners
      ensures found == null <==> S.FirstWithPid(t.recs, t.owners[dev], pid).None?
      ensures found != null ==> Knows(found)
      ensures found != null ==> S.FirstWithPid(t.recs, t.owners[dev], pid) == Some(found.m_ownerlist.obj)
    {
      found := SearchPid(space, heads[dev], records, t.recs, pid);
    }

    lemma OwnersSpelled(dev: nat)
      requires dev in t.owners && dev in heads
      ensures Valid() ==> heads[dev] in space.lists && |space.lists[heads[dev]]| == |t.owners[dev]|
    {
      hide S.Wf, RecordsLaidOut, SessionsLaidOut;
    }

    // aaldev_doForeachOwner: the owner the walk stopped on, or null.
    method DoForeachOwner(dev: nat, cb: Callback) returns (stop: OwnerRecord?, ghost seen: seq<ListHead>)
      requires Valid() && dev in t.owners
      modifies space, space.nodes
      ensures space.Valid() && old(heads[dev] in space.lists) && Objs(old(space.lists[heads[dev]])) == t.owners[dev]
      ensures stop != null ==> Knows(stop)
      ensures SeenUpToStop(old(space.lists[heads[dev]]), seen, if stop == null then null else stop.m_ownerlist, cb)
      ensures Walked(old(space.lists), space.lists, heads[dev], |seen|, cb)
      ensures Valid() <==> forall i :: 0 <= i < |seen| ==> !cb.Unlinks(seen[i])
    {
      hide ListSpace.Valid, Walked, RecordsLaidOut, SessionsLaidOut, S.Wf;
      ghost var l: Lists, nodes := space.lists, space.nodes;
      ghost var h := heads[dev];
      var link, s := ForEachSafe(space, heads[dev], cb);
      seen := s;
      assert link != null ==> link in l[h];
      stop := null;
      if link != null {
        stop := records[link.obj];
      }
      WalkedUnchanged(l, space.lists, h, |s|, cb);
      OwnersSpelled(dev);
    }

    method NewRecord(r: nat, pid: S.Pid, device: nat, manifest: nat, ownerContext: nat) returns (rec: OwnerRecord)
      requires Valid()
      modifies space
      ensures Valid() && fresh(space.nodes - old(space.nodes))
      ensures fresh(rec) && rec.m_pid == pid && rec.m_device == device && rec.m_manifest == manifest
      ensures fresh(rec.m_sess) && rec.m_sess.m_ownerContext == ownerContext
      ensures Prepared(space.lists, space.nodes, rec, r)
    {
      hide Shaped, ListSpace.Valid;
      ghost var l: Lists, nodes := space.lists, space.nodes;
      rec := MakeRecord(space, r, pid, device, manifest, ownerContext);
      Grown(l, nodes, View(), space.lists, space.nodes);
    }

    // The list work of aaldev_addOwner.
    method Attach(rec: OwnerRecord, dev: nat, slistp: nat, ghost op: S.Op)
      requires Valid() && op.Add? && dev == op.dev && slistp == op.slist
      requires S.Linkable(t, op, rec.m_ownerlist.obj)
      requires Prepared(space.lists, space.nodes, rec, rec.m_ownerlist.obj)
      requires rec.m_pid == op.pid && rec.m_device == dev && rec.m_manifest == op.context
      requires rec.m_sess.m_ownerContext == op.manifest
      modifies this, space, space.nodes
      ensures Valid() && space.nodes == old(space.nodes)
      ensures t == S.Linked(old(t), op, rec.m_ownerlist.obj)
    {
      hide Shaped, S.Linked, Attached, ListSpace.Valid;
      ghost var v := View();
      AttachedShape(space.lists, space.nodes, v, rec, op);
      LinkBoth(space, rec, heads[dev], sesslists[slistp]);
      records := records[rec.m_ownerlist.obj := rec];
      sess := sess[S.Embedded(rec.m_ownerlist.obj) := rec.m_sess];
      owned := owned + {rec.m_sess};
      t := S.Linked(t, op, rec.m_ownerlist.obj);
      assert View() == WithRecord(v, rec, op);
    }

    // The list work of aaldev_removeOwner, and the kfree of the record.
    method Detach(rec: OwnerRecord, ghost op: S.Op)
      requires Valid() && Knows(rec) && op.Remove? && S.Linkable(t, op, rec.m_ownerlist.obj)
      modifies this, space, space.nodes
      ensures Valid() && space.nodes == old(space.nodes)
      ensures t == S.Linked(old(t), op, rec.m_ownerlist.obj)
    {
      hide Shaped, S.Linked, Detached, OnAList, OnLists, ListSpace.Valid;
      space.IsSeparate();
      RecordListed(space.lists, space.nodes, View(), rec.m_ownerlist.obj);
      OnListsOnAList(space.lists, rec.m_ownerlist, AT_OWNERS);
      OnListsOnAList(space.lists, rec.m_devicelist, AT_SESSION);
      ghost var v := View();
      DetachedShape(space.lists, space.home, space.nodes, v, op, rec.m_ownerlist.obj);
      UnlinkBoth(space, rec.m_ownerlist, rec.m_devicelist);
      records := records - {rec.m_ownerlist.obj};
      sess := sess - {S.Embedded(rec.m_ownerlist.obj)};
      t := S.Linked(t, op, rec.m_ownerlist.obj);
      assert View() == WithoutRecord(v, op, rec.m_ownerlist.obj);
    }

    // The list work of aaldev_updateOwner.
    method Relist(rec: OwnerRecord, src: Option<S.SessionRef>, slistp: nat, ghost op: S.Op)
      requires Valid() && Knows(rec) && op.Update? && src == op.src && slistp == op.slist
      requires S.Linkable(t, op, rec.m_ownerlist.obj)
      modifies this, space, space.nodes, owned
      ensures Valid() && space.nodes == old(space.nodes)
      ensures t == S.Linked(old(t), op, rec.m_ownerlist.obj)
    {
      hide Shaped, S.Linked, Relisted, OnAList, ListSpace.Valid, ListsLaidOut, RecordsLaidOut, SessionsLaidOut;
      hide S.Wf, SessionsWere, CopiedSince, IsSession, OnLists, S.Linkable;
      ghost var l: Lists, home, nodes, v := space.lists, space.home, space.nodes, View();
      ghost var r, was := rec.m_ownerlist.obj, Snapshot(owned);
      space.IsSeparate();
      RelistReady(l, home, nodes, v, op, r);
      OnListsOnAList(l, rec.m_devicelist, AT_SESSION);
      ShapedParts(l, nodes, v);
      TakeSnapshot(l, v);
      var from: OwnerSession? := null;
      if src.Some? && src.value != S.Embedded(rec.m_ownerlist.obj) {
        from := sess[src.value];
      }
      MoveAndCopy(space, rec.m_devicelist, sesslists[slistp], from, rec.m_sess, owned);
      t := S.Linked(t, op, r);
      RelistShape(l, home, nodes, v, op, r, space.lists, was);
      assert View() == WithTables(v, op, r);
    }
  }
}
