// The list walks of kosal.h with the callbacks their users pass.
module KosalWalk {
  import opened Sequences
  import opened KosalList

  // The callback of a walk, as a table: the items it gives a non-zero answer
  // for, and the items it takes off their list before answering.
  datatype Callback = Callback(stops: map<ListHead, int>, unlinked: set<ListHead>) {
    function Answer(n: ListHead): int {
      if n in stops then stops[n] else 0
    }

    predicate Unlinks(n: ListHead) {
      n in unlinked
    }
  }

  // The items of s the callback leaves in place.
  ghost function Kept(s: seq<ListHead>, cb: Callback): seq<ListHead> {
    if s == [] then []
    else Kept(s[..|s| - 1], cb) + if cb.Unlinks(s[|s| - 1]) then [] else [s[|s| - 1]]
  }

  // The items of s the callback unlinks.
  ghost function Cut(s: seq<ListHead>, cb: Callback): set<ListHead> {
    set n | n in s && cb.Unlinks(n)
  }

  // now is the table l after the callback has been called on the first k
  // items of h: those it unlinks are alone, and nothing else has changed.
  ghost predicate Walked(l: Lists, now: Lists, h: ListHead, k: nat, cb: Callback)
    requires h in l && k <= |l[h]|
  {
    && now.Keys == l.Keys + Cut(l[h][..k], cb)
    && now[h] == Kept(l[h][..k], cb) + l[h][k..]
    && (forall g :: g in now && g != h ==> now[g] == if g in l then l[g] else [])
  }

  // seen is what a walk over s sees: everything up to the first item with a
  // non-zero answer, which is where it stops.
  ghost predicate SeenUpToStop(s: seq<ListHead>, seen: seq<ListHead>, stop: ListHead?, cb: Callback) {
    && seen <= s
    && (forall i :: 0 <= i < |seen| && seen[i] != stop ==> cb.Answer(seen[i]) == 0)
    && (stop == null ==> seen == s)
    && (stop != null ==> seen != [] && seen[|seen| - 1] == stop && cb.Answer(stop) != 0)
  }

  lemma {:induction false} KeptWithin(s: seq<ListHead>, cb: Callback)
    ensures forall n :: n in Kept(s, cb) <==> n in s && !cb.Unlinks(n)
    ensures Distinct(s) ==> Distinct(Kept(s, cb))
  {
    if s != [] {
      KeptWithin(s[..|s| - 1], cb);
    }
  }

  lemma {:induction false} KeptAll(s: seq<ListHead>, cb: Callback)
    ensures (forall i :: 0 <= i < |s| ==> !cb.Unlinks(s[i])) ==> Kept(s, cb) == s
    ensures |Kept(s, cb)| <= |s|
    ensures (exists i :: 0 <= i < |s| && cb.Unlinks(s[i])) ==> |Kept(s, cb)| < |s|
  {
    if s != [] {
      var k := |s| - 1;
      KeptAll(s[..k], cb);
      assert s == s[..k] + [s[k]];
    }
  }

  // A walk changes nothing exactly when the callback unlinks no item it sees.
  lemma WalkedUnchanged(l: Lists, now: Lists, h: ListHead, k: nat, cb: Callback)
    requires h in l && k <= |l[h]| && Walked(l, now, h, k, cb)
    ensures (exists i :: 0 <= i < k && cb.Unlinks(l[h][i])) ==> |now[h]| < |l[h]|
    ensures (forall i :: 0 <= i < k ==> !cb.Unlinks(l[h][i])) ==> now == l
  {
    hide Kept;
    var first := l[h][..k];
    KeptAll(first, cb);
    assert first + l[h][k..] == l[h];
    if forall i :: 0 <= i < k ==> !cb.Unlinks(first[i]) {
      assert now.Keys == l.Keys;
      forall g | g in l
        ensures now[g] == l[g]
      {
      }
    }
  }

  lemma WalkedNone(l: Lists, h: ListHead, cb: Callback)
    requires h in l
    ensures Walked(l, l, h, 0, cb)
  {
    assert l[h][0..] == l[h];
  }

  lemma WalkedKeep(l: Lists, now: Lists, h: ListHead, k: nat, cb: Callback)
    requires h in l && k < |l[h]| && Walked(l, now, h, k, cb)
    ensures h in now && now[h] == Kept(l[h][..k], cb) + [l[h][k]] + l[h][k + 1..]
    ensures !cb.Unlinks(l[h][k]) ==> Walked(l, now, h, k + 1, cb)
  {
    hide Kept, Cut;
    NextOf(l[h], k, cb);
  }

  lemma WalkedUnlink(l: Lists, now: Lists, home: map<ListHead, ListHead>, h: ListHead, k: nat, cb: Callback)
    requires h in l && k < |l[h]| && cb.Unlinks(l[h][k])
    requires Separate(now, home) && Walked(l, now, h, k, cb)
    ensures Walked(l, Deleted(now, l[h][k])[l[h][k] := []], h, k + 1, cb)
  {
    hide *;
    var s, n, kept := l[h], l[h][k], Kept(l[h][..k], cb);
    WalkedKeep(l, now, h, k, cb);
    TakenOut(kept, n, s[k + 1..]);
    ItemIsNoHead(now, home, h, |kept|);
    DeletedAt(now, home, n, h, |kept|);
    TwoWrites(now, h, kept + s[k + 1..], n);
    WalkedWithout(l, now, now[h := kept + s[k + 1..]][n := []], h, k, cb);
  }

  lemma WalkedWithout(l: Lists, now: Lists, after: Lists, h: ListHead, k: nat, cb: Callback)
    requires h in l && k < |l[h]| && cb.Unlinks(l[h][k]) && Walked(l, now, h, k, cb)
    requires after.Keys == now.Keys + {l[h][k]} && h in after && after[h] == Kept(l[h][..k], cb) + l[h][k + 1..]
    requires forall g :: g in after && g != h ==> after[g] == if g in now then now[g] else []
    ensures Walked(l, after, h, k + 1, cb)
  {
    hide Kept, Cut, Callback.Unlinks;
    NextOf(l[h], k, cb);
  }

  lemma TwoWrites(l: Lists, h: ListHead, s: seq<ListHead>, n: ListHead)
    requires h in l && n !in l
    ensures var after := l[h := s][n := []];
      && after.Keys == l.Keys + {n}
      && after[h] == s
      && forall g :: g in after && g != h ==> after[g] == if g in l then l[g] else []
  {
  }

  lemma ItemIsNoHead(l: Lists, home: map<ListHead, ListHead>, h: ListHead, k: nat)
    requires Separate(l, home) && h in l && k < |l[h]|
    ensures l[h][k] !in l
  {
  }

  lemma TakenOut(a: seq<ListHead>, n: ListHead, c: seq<ListHead>)
    ensures var s := a + [n] + c; s[|a|] == n && s[..|a|] + s[|a| + 1..] == a + c
  {
  }

  lemma NextOf(s: seq<ListHead>, k: nat, cb: Callback)
    requires k < |s|
    ensures Kept(s[..k + 1], cb) == Kept(s[..k], cb) + if cb.Unlinks(s[k]) then [] else [s[k]]
    ensures Cut(s[..k + 1], cb) == Cut(s[..k], cb) + if cb.Unlinks(s[k]) then {s[k]} else {}
    ensures s[k..] == [s[k]] + s[k + 1..]
  {
    assert s[..k + 1][..k] == s[..k];
    assert s[..k + 1] == s[..k] + [s[k]];
  }

  // One round of the loop: fetch the following item, then call back.
  method Visit(space: ListSpace, pos: ListHead, cb: Callback, ghost l: Lists, ghost h: ListHead, ghost k: nat)
    returns (following: ListHead, answer: int)
    requires space.Valid() && h in l && k < |l[h]| && pos == l[h][k] && Walked(l, space.lists, h, k, cb)
    modifies space, space.nodes
    ensures space.Valid() && Walked(l, space.lists, h, k + 1, cb)
    ensures space.nodes == old(space.nodes)
    ensures following == if k + 1 < |l[h]| then l[h][k + 1] else h
    ensures answer == cb.Answer(pos)
  {
    ghost var now: Lists := space.lists;
    WalkedKeep(l, now, h, k, cb);
    space.NearNodes(pos);
    space.NextAt(h, |Kept(l[h][..k], cb)|);
    following := pos.next;
    if cb.Unlinks(pos) {
      WalkedUnlink(l, now, space.home, h, k, cb);
      space.DelInit(pos);
    }
    answer := cb.Answer(pos);
  }

  // No item of s has stopped the walk.
  ghost predicate Passed(s: seq<ListHead>, cb: Callback) {
    forall i :: 0 <= i < |s| ==> cb.Answer(s[i]) == 0
  }

  lemma PassedNone(s: seq<ListHead>, cb: Callback)
    ensures Passed(s[..0], cb)
  {
  }

  lemma PassedStep(s: seq<ListHead>, k: nat, cb: Callback)
    requires k < |s| && Passed(s[..k], cb)
    ensures cb.Answer(s[k]) == 0 ==> Passed(s[..k + 1], cb)
    ensures cb.Answer(s[k]) != 0 ==> SeenUpToStop(s, s[..k + 1], s[k], cb)
  {
    assert s[..k + 1] == s[..k] + [s[k]];
  }

  lemma PassedAll(s: seq<ListHead>, k: nat, cb: Callback)
    requires k == |s| && Passed(s[..k], cb)
    ensures SeenUpToStop(s, s, null, cb)
  {
    assert s[..k] == s;
  }

  lemma NotOnItsOwn(space: ListSpace, h: ListHead)
    requires space.Valid() && h in space.lists
    ensures h !in space.lists[h]
  {
    space.HeadsAreOnNoList(h);
  }

  method ForEachSafe(space: ListSpace, h: ListHead, cb: Callback) returns (stop: ListHead?, ghost seen: seq<ListHead>)
    requires space.Valid() && h in space.lists
    modifies space, space.nodes
    ensures space.Valid() && space.nodes == old(space.nodes)
    ensures SeenUpToStop(old(space.lists)[h], seen, stop, cb)
    ensures Walked(old(space.lists), space.lists, h, |seen|, cb)
  {
    hide *;
    ghost var was: Lists, k := space.lists, 0;
    ghost var s := was[h];
    space.Neighbours(h);
    NotOnItsOwn(space, h);
    WalkedNone(was, h, cb);
    PassedNone(s, cb);
    var pos := h.next;
    while pos != h
      invariant 0 <= k <= |s|
      invariant space.Valid() && space.nodes == old(space.nodes)
      invariant Walked(was, space.lists, h, k, cb)
      invariant pos == if k < |s| then s[k] else h
      invariant Passed(s[..k], cb)
      decreases |s| - k
    {
      var following, answer := Visit(space, pos, cb, was, h, k);
      PassedStep(s, k, cb);
      if answer != 0 {
        return pos, s[..k + 1];
      }
      k := k + 1;
      pos := following;
    }
    PassedAll(s, k, cb);
    return null, s;
  }
}
