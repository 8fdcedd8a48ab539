// What every owner call keeps.
module OwnerProofs {
  import opened Sequences
  import opened OwnerSpec

  // ----- the search for a pid

  ghost predicate HasPid(recs: map<nat, Record>, s: seq<nat>, pid: Pid) {
    exists r :: r in s && r in recs && recs[r].pid == pid
  }

  // The search finds the first record with the pid, if there is one.
  lemma {:induction false} FoundIsFirst(recs: map<nat, Record>, s: seq<nat>, pid: Pid) returns (i: nat)
    ensures FirstWithPid(recs, s, pid).Some? <==> HasPid(recs, s, pid)
    ensures FirstWithPid(recs, s, pid).Some? ==>
      && i < |s| && s[i] == FirstWithPid(recs, s, pid).value && s[i] in recs && recs[s[i]].pid == pid
      && !HasPid(recs, s[..i], pid)
  {
    i := 0;
    if s != [] && !(s[0] in recs && recs[s[0]].pid == pid) {
      var j := FoundIsFirst(recs, s[1..], pid);
      i := j + 1;
      assert forall r :: r in s <==> r == s[0] || r in s[1..];
      if j < |s[1..]| {
        assert s[..i] == [s[0]] + s[1..][..j];
      }
    }
  }

  // ----- the lists

  lemma IndexedGrown(lists: map<nat, seq<nat>>, of: map<nat, nat>, k: nat)
    requires Indexed(lists, of) && k !in lists
    ensures Indexed(lists[k := []], of)
  {
    forall r | r in of
      ensures OnList(lists[k := []], of, r)
    {
      assert OnList(lists, of, r);
    }
  }

  lemma IndexedAdded(lists: map<nat, seq<nat>>, of: map<nat, nat>, k: nat, r: nat)
    requires Indexed(lists, of) && k in lists && r !in of
    ensures Indexed(lists[k := [r] + lists[k]], of[r := k])
  {
    var after, of' := lists[k := [r] + lists[k]], of[r := k];
    forall q | q in of'
      ensures OnList(after, of', q)
    {
      assert q in of ==> OnList(lists, of, q);
    }
    assert Distinct(lists[k]);
  }

  lemma TakenOffOne(lists: map<nat, seq<nat>>, of: map<nat, nat>, r: nat)
    requires Indexed(lists, of) && r in of
    ensures of[r] in lists && TakenOff(lists, r) == lists[of[r] := Without(lists[of[r]], r)]
  {
    assert OnList(lists, of, r);
    forall k | k in lists && k != of[r]
      ensures Without(lists[k], r) == lists[k]
    {
      WithoutAbsent(lists[k], r);
    }
  }

  lemma IndexedRemoved(lists: map<nat, seq<nat>>, of: map<nat, nat>, r: nat)
    requires Indexed(lists, of) && r in of
    ensures Indexed(TakenOff(lists, r), of - {r})
  {
    TakenOffOne(lists, of, r);
    assert Distinct(lists[of[r]]);
    WithoutDistinct(lists[of[r]], r);
    forall q | q in of - {r}
      ensures OnList(TakenOff(lists, r), of - {r}, q)
    {
      assert OnList(lists, of, q);
    }
  }

  lemma RecordStored(recs: map<nat, Record>, r: nat, rec: Record)
    ensures DeviceOf(recs[r := rec]) == DeviceOf(recs)[r := rec.device]
    ensures SlistOf(recs[r := rec]) == SlistOf(recs)[r := rec.slist]
  {
  }

  lemma RecordRelisted(recs: map<nat, Record>, r: nat, slist: nat)
    requires r in recs
    ensures DeviceOf(recs[r := recs[r].(slist := slist)]) == DeviceOf(recs)
    ensures SlistOf(recs[r := recs[r].(slist := slist)]) == (SlistOf(recs) - {r})[r := slist]
  {
  }

  lemma RecordDropped(recs: map<nat, Record>, r: nat)
    ensures DeviceOf(recs - {r}) == DeviceOf(recs) - {r}
    ensures SlistOf(recs - {r}) == SlistOf(recs) - {r}
  {
  }

  // Every piece of list work leaves the lists sound.
  lemma LinkedWf(t: Tables, op: Op, r: nat)
    requires Wf(t) && Linkable(t, op, r)
    ensures Wf(Linked(t, op, r))
  {
    var devs, slists := DeviceOf(t.recs), SlistOf(t.recs);
    match op
    case Add(dev, pid, _, context, slist) =>
      IndexedAdded(t.owners, devs, dev, r);
      IndexedAdded(t.devlists, slists, slist, r);
      RecordStored(t.recs, r, Record(pid, dev, context, slist));
    case Remove(_, _) =>
      IndexedRemoved(t.owners, devs, r);
      IndexedRemoved(t.devlists, slists, r);
      RecordDropped(t.recs, r);
    case Update(_, _, _, slist) =>
      IndexedRemoved(t.devlists, slists, r);
      IndexedAdded(TakenOff(t.devlists, r), slists - {r}, slist, r);
      RecordRelisted(t.recs, r, slist);
  }

  // The owner list of its device is the only owner list a call changes, and
  // an update changes none.
  function OwnersAfter(op: Op, s: seq<nat>, r: nat): seq<nat> {
    if op.Add? then [r] + s else if op.Remove? then Without(s, r) else s
  }

  lemma LinkedOwners(t: Tables, op: Op, r: nat)
    requires Wf(t) && Linkable(t, op, r)
    ensures Linked(t, op, r).owners == t.owners[op.dev := OwnersAfter(op, t.owners[op.dev], r)]
  {
    if op.Remove? {
      TakenOffOne(t.owners, DeviceOf(t.recs), r);
    }
  }

  lemma OwnersStay(t: Tables, op: Op, r: nat)
    requires Linkable(t, op, r)
    ensures Linked(t, op, r).owners.Keys == t.owners.Keys
  {
  }

  // The session lists changed are the one the record leaves and the one it
  // comes to head, which may be the same.
  function DevlistsAfter(t: Tables, op: Op, r: nat): map<nat, seq<nat>>
    requires Linkable(t, op, r) && (!op.Add? ==> t.recs[r].slist in t.devlists)
  {
    var lists := t.devlists;
    if op.Add? then lists[op.slist := [r] + lists[op.slist]]
    else
      var was := t.recs[r].slist;
      if op.Remove? then lists[was := Without(lists[was], r)]
      else if op.slist == was then lists[was := [r] + Without(lists[was], r)]
      else lists[was := Without(lists[was], r)][op.slist := [r] + lists[op.slist]]
  }

  lemma LinkedDevlists(t: Tables, op: Op, r: nat)
    requires Wf(t) && Linkable(t, op, r)
    ensures !op.Add? ==> t.recs[r].slist in t.devlists
    ensures Linked(t, op, r).devlists == DevlistsAfter(t, op, r)
  {
    if !op.Add? {
      var of := SlistOf(t.recs);
      TakenOffOne(t.devlists, of, r);
      if op.Update? && op.slist != of[r] {
        NotOnOther(t.devlists, of, r, op.slist);
        WithoutAbsent(t.devlists[op.slist], r);
      }
    }
  }

  lemma NotOnOther(lists: map<nat, seq<nat>>, of: map<nat, nat>, r: nat, k: nat)
    requires Indexed(lists, of) && r in of && k in lists && k != of[r]
    ensures r !in lists[k]
  {
  }

  lemma OwnersKnown(t: Tables, d: nat)
    requires Wf(t) && d in t.owners
    ensures Distinct(t.owners[d])
    ensures forall r :: r in t.owners[d] ==> r in t.recs && t.recs[r].device == d
  {
  }

  // What sound lists mean for a record in use: of all owner lists it is on that
  // of its device, of all session lists on one, and on each of these once.
  lemma OnItsTwoLists(t: Tables, r: nat)
    requires Wf(t) && r in t.recs
    ensures t.recs[r].device in t.owners && t.recs[r].slist in t.devlists && Embedded(r) in t.sess
    ensures forall d :: d in t.owners ==> multiset(t.owners[d])[r] == if d == t.recs[r].device then 1 else 0
    ensures forall k :: k in t.devlists ==> multiset(t.devlists[k])[r] == if k == t.recs[r].slist then 1 else 0
  {
    OnOneList(t.owners, DeviceOf(t.recs), r);
    OnOneList(t.devlists, SlistOf(t.recs), r);
  }

  lemma OnOneList(lists: map<nat, seq<nat>>, of: map<nat, nat>, r: nat)
    requires Indexed(lists, of) && r in of
    ensures of[r] in lists
    ensures forall k :: k in lists ==> multiset(lists[k])[r] == if k == of[r] then 1 else 0
  {
    assert OnList(lists, of, r);
    forall k | k in lists
      ensures multiset(lists[k])[r] == if k == of[r] then 1 else 0
    {
      assert Distinct(lists[k]);
      OnceInDistinct(lists[k], r);
      if k != of[r] {
        NotOnOther(lists, of, r, k);
      }
    }
  }

  function Workspaces(sess: map<SessionRef, Session>, a: SessionRef, b: SessionRef): multiset<nat>
    requires a in sess && b in sess
  {
    multiset(sess[a].workspaces) + multiset(sess[b].workspaces)
  }

  // A copied session takes over the workspaces of its source, and none is lost
  // exactly when its own list was empty.
  lemma CopyMovesWorkspaces(sess: map<SessionRef, Session>, to: SessionRef, from: SessionRef)
    requires to in sess && from in sess && to != from
    ensures var after := SessionsCopied(sess, to, from);
      && after[to] == sess[from] && after[from] == sess[from].(workspaces := [])
      && (Workspaces(after, to, from) == Workspaces(sess, to, from) <==> sess[to].workspaces == [])
  {
  }

  // ----- pids and counts

  ghost predicate OnePidEach(recs: map<nat, Record>, s: seq<nat>) {
    forall r, q :: r in s && q in s && r in recs && q in recs && recs[r].pid == recs[q].pid ==> r == q
  }

  function PidsOf(recs: map<nat, Record>, s: seq<nat>): (pids: seq<nat>)
    requires forall r :: r in s ==> r in recs
    ensures |pids| == |s| && forall i :: 0 <= i < |s| ==> pids[i] == recs[s[i]].pid
  {
    seq(|s|, i requires 0 <= i < |s| => assert s[i] in s; recs[s[i]].pid)
  }

  // A list without repeated pids never fills the 32-bit counter.
  lemma CounterNeverSaturates(recs: map<nat, Record>, s: seq<nat>)
    requires Distinct(s) && OnePidEach(recs, s) && forall r :: r in s ==> r in recs
    ensures |s| <= 0x8000_0000 < UNLIMITED
  {
    Pigeonhole(PidsOf(recs, s), 0x8000_0000);
  }

  lemma OnePidAdded(recs: map<nat, Record>, s: seq<nat>, r: nat, rec: Record)
    requires OnePidEach(recs, s) && r !in recs && forall q :: q in s ==> q in recs
    ensures OnePidEach(recs[r := rec], s)
    ensures OnePidEach(recs[r := rec], [r] + s) <==> !HasPid(recs, s, rec.pid)
  {
    assert r in [r] + s && forall q :: q in s ==> q in [r] + s;
  }

  lemma OnePidKept(recs: map<nat, Record>, after: map<nat, Record>, s: seq<nat>, u: seq<nat>)
    requires OnePidEach(recs, s) && forall q :: q in u ==> q in s
    requires forall q :: q in after && q in u ==> q in recs && after[q].pid == recs[q].pid
    ensures OnePidEach(after, u)
  {
  }

  // A list keeps to one record a pid unless a pid is added that it has.
  lemma LinkedOnePid(t: Tables, op: Op, r: nat, d: nat)
    requires Linkable(t, op, r) && d in t.owners
    requires Linked(t, op, r).owners == t.owners[op.dev := OwnersAfter(op, t.owners[op.dev], r)]
    requires OnePidEach(t.recs, t.owners[d]) && forall q :: q in t.owners[d] ==> q in t.recs
    ensures var after := Linked(t, op, r);
      OnePidEach(after.recs, after.owners[d]) <==> !(op.Add? && d == op.dev && HasPid(t.recs, t.owners[d], op.pid))
  {
    var after, s := Linked(t, op, r), t.owners[d];
    if op.Add? {
      OnePidAdded(t.recs, s, r, Record(op.pid, op.dev, op.context, op.slist));
    } else {
      WithoutWithin(s, r);
      OnePidKept(t.recs, after.recs, s, after.owners[d]);
    }
  }
}
