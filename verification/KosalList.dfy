// The circular doubly linked lists of kosal.h: the nodes, the primitives on them,
// and a table of which sequence each head stands for.
module KosalList {
  import opened Sequences

  // A list head or the link of an item, embedded at some offset in the structure
  // at address obj, which is what kosal_container_of recovers.
  class ListHead {
    const obj: nat
    const offset: nat
    var prev: ListHead
    var next: ListHead

    constructor (obj: nat, offset: nat)
      ensures this.obj == obj && this.offset == offset && next == this && prev == this
    {
      this.obj, this.offset := obj, offset;
      prev := this;
      next := this;
    }
  }

  type Lists = map<ListHead, seq<ListHead>>

  ghost predicate Within(l: Lists, nodes: set<ListHead>) {
    && (forall h {:trigger h in l} :: h in l ==> h in nodes)
    && (forall h, i {:trigger l[h][i]} :: h in l && 0 <= i < |l[h]| ==> l[h][i] in nodes)
  }

  // Heads and elements are all different: home names the one head of an element.
  ghost predicate Separate(l: Lists, home: map<ListHead, ListHead>) {
    && (forall h {:trigger l[h]} :: h in l ==> Distinct(l[h]))
    && (forall h, i {:trigger l[h][i]} :: h in l && 0 <= i < |l[h]| ==>
      l[h][i] !in l && l[h][i] in home && home[l[h][i]] == h)
  }

  ghost function Circle(h: ListHead, s: seq<ListHead>): seq<ListHead> {
    [h] + s
  }

  // Position i of the circle through h: h itself at 0 and again at |s| + 1.
  ghost function At(h: ListHead, s: seq<ListHead>, i: nat): ListHead
    requires i <= |s| + 1
  {
    if i == 0 || i == |s| + 1 then h else s[i - 1]
  }

  ghost predicate LinkedAt(h: ListHead, s: seq<ListHead>, i: nat)
    requires i <= |s|
    reads h, s
  {
    At(h, s, i).next == At(h, s, i + 1) && At(h, s, i + 1).prev == At(h, s, i)
  }

  // The next and prev pointers of h and its elements form one circle spelling out s.
  ghost predicate Ring(h: ListHead, s: seq<ListHead>)
    reads h, s
  {
    forall i :: 0 <= i <= |s| ==> LinkedAt(h, s, i)
  }

  // What each primitive does to the table of lists.
  ghost function Deleted(l: Lists, n: ListHead): Lists {
    map h | h in l && h != n :: Without(l[h], n)
  }

  ghost function AddedHead(l: Lists, n: ListHead, h: ListHead): Lists
    requires h in l
  {
    (l - {n})[h := [n] + l[h]]
  }

  ghost function AddedTail(l: Lists, n: ListHead, h: ListHead): Lists
    requires h in l
  {
    (l - {n})[h := l[h] + [n]]
  }

  ghost predicate OnAList(l: Lists, n: ListHead) {
    exists h :: h in l && n in l[h]
  }

  // n is safe to unlink: an element of some list, or alone.
  ghost predicate Initialised(l: Lists, n: ListHead) {
    OnAList(l, n) || (n in l && l[n] == [])
  }

  // n heads no list with elements and is an element of none.
  ghost predicate Loose(l: Lists, n: ListHead) {
    (n in l ==> l[n] == []) && !OnAList(l, n)
  }

  // The elements of s up to n.
  ghost function UpTo(s: seq<ListHead>, n: ListHead): set<ListHead> {
    set i | 0 <= i < |s| && n !in s[..i] :: s[i]
  }

  // From h one gets into a circle that does not come back to h.
  ghost predicate GoesRound(h: ListHead, circle: set<ListHead>)
    reads h, circle
  {
    h.next in circle && h !in circle && forall c :: c in circle ==> c.next in circle
  }

  // list_add. Of a node that is on the list already it makes, with what was in
  // front of it, a circle without the head.
  method LinkHead(n: ListHead, h: ListHead, ghost s: seq<ListHead>)
    requires Ring(h, s) && n != h && h !in s && Distinct(s)
    modifies n, h, h.next
    ensures n !in s ==> Ring(h, [n] + s)
    ensures n in s ==> GoesRound(h, UpTo(s, n))
  {
    assert LinkedAt(h, s, 0);
    var first := h.next;
    n.next := first;
    n.prev := h;
    first.prev := n;
    h.next := n;
    if n !in s {
      forall i | 0 <= i <= |s| + 1
        ensures LinkedAt(h, [n] + s, i)
      {
        if i > 1 {
          assert old(LinkedAt(h, s, i - 1));
        }
      }
    } else {
      ghost var k :| 0 <= k < |s| && s[k] == n;
      forall i | 0 <= i < k
        ensures s[i].next == s[i + 1]
      {
        assert old(LinkedAt(h, s, i + 1));
      }
      RoundUpTo(h, s, k);
    }
  }

  lemma RoundUpTo(h: ListHead, s: seq<ListHead>, k: nat)
    requires k < |s| && Distinct(s) && h !in s && h.next == s[k] && s[k].next == s[0]
    requires forall i :: 0 <= i < k ==> s[i].next == s[i + 1]
    ensures GoesRound(h, UpTo(s, s[k]))
  {
    var circle := UpTo(s, s[k]);
    forall i | 0 <= i <= k
      ensures s[i] in circle
    {
      assert s[k] !in s[..i];
    }
    forall c | c in circle
      ensures c.next in circle
    {
      var i :| 0 <= i < |s| && s[k] !in s[..i] && s[i] == c;
      assert c.next == if i < k then s[i + 1] else s[0];
    }
  }

  method LinkTail(n: ListHead, h: ListHead, ghost s: seq<ListHead>)
    requires Ring(h, s) && n != h && n !in s && h !in s && Distinct(s)
    modifies n, h, h.prev
    ensures Ring(h, s + [n])
  {
    assert LinkedAt(h, s, |s|);
    var last := h.prev;
    n.next := h;
    n.prev := last;
    last.next := n;
    h.prev := n;
    forall i | 0 <= i <= |s| + 1
      ensures LinkedAt(h, s + [n], i)
    {
      if i < |s| {
        assert old(LinkedAt(h, s, i));
      }
    }
  }

  // n is either alone in its circle or element k of the circle through h.
  method Unlink(n: ListHead, ghost h: ListHead, ghost s: seq<ListHead>, ghost k: nat)
    requires Ring(h, s) && h !in s && Distinct(s)
    requires if n == h then s == [] else k < |s| && s[k] == n
    modifies n.prev, n.next
    ensures Ring(h, if n == h then [] else s[..k] + s[k + 1..])
  {
    assert n == h ==> LinkedAt(h, s, 0);
    assert n != h ==> LinkedAt(h, s, k) && LinkedAt(h, s, k + 1);
    var p, q := n.prev, n.next;
    p.next := q;
    q.prev := p;
    ghost var t := if n == h then [] else s[..k] + s[k + 1..];
    forall i | 0 <= i <= |t|
      ensures LinkedAt(h, t, i)
    {
      assert n != h ==> old(LinkedAt(h, s, if i <= k then i else i + 1));
    }
  }

  method Relink(from: ListHead, to: ListHead, ghost s: seq<ListHead>)
    requires Ring(from, s) && Distinct(s) && from !in s && to !in s && from != to
    modifies to, from, from.prev, from.next
    ensures Ring(to, s)
  {
    assert LinkedAt(from, s, 0) && LinkedAt(from, s, |s|);
    to.prev := from.prev;
    to.prev.next := to;
    to.next := from.next;
    to.next.prev := to;
    forall i | 0 <= i <= |s|
      ensures LinkedAt(to, s, i)
    {
      assert old(LinkedAt(from, s, i));
    }
  }

  lemma DeletedAt(l: Lists, home: map<ListHead, ListHead>, n: ListHead, h: ListHead, k: nat)
    requires Separate(l, home) && h in l
    requires if n == h then l[h] == [] else k < |l[h]| && l[h][k] == n
    ensures Deleted(l, n) == if n == h then l - {n} else l[h := l[h][..k] + l[h][k + 1..]]
  {
    if n != h {
      WithoutAt(l[h], n, k);
      assert n !in l;
    }
    forall g | g in l && g != h
      ensures Without(l[g], n) == l[g]
    {
      assert n !in l[g];
      WithoutAbsent(l[g], n);
    }
    assert Deleted(l, n) == if n == h then l - {n} else l[h := l[h][..k] + l[h][k + 1..]];
  }

  lemma HeadIsOnNone(l: Lists, home: map<ListHead, ListHead>, h: ListHead)
    requires Separate(l, home) && h in l
    ensures h !in l[h] && Distinct(l[h])
  {
  }

  lemma CirclesApart(l: Lists, home: map<ListHead, ListHead>, h: ListHead, g: ListHead, x: ListHead)
    requires Separate(l, home) && h in l && g in l && g != h && x in Circle(h, l[h])
    ensures x != g && x !in l[g]
  {
  }

  lemma DeletedSeparate(l: Lists, home: map<ListHead, ListHead>, nodes: set<ListHead>, n: ListHead)
    requires Separate(l, home) && Within(l, nodes) && (n in l ==> l[n] == [])
    ensures Separate(Deleted(l, n), home) && Within(Deleted(l, n), nodes) && Loose(Deleted(l, n), n)
  {
    forall h | h in l
      ensures Distinct(Without(l[h], n)) && n !in Without(l[h], n)
      ensures forall i {:trigger Without(l[h], n)[i]} :: 0 <= i < |Without(l[h], n)| ==> Without(l[h], n)[i] in l[h]
    {
      WithoutDistinct(l[h], n);
    }
  }

  lemma AddedSeparate(l: Lists, home: map<ListHead, ListHead>, nodes: set<ListHead>, n: ListHead, h: ListHead)
    requires Separate(l, home) && Within(l, nodes) && h in l && n != h && n in nodes && Loose(l, n)
    ensures Separate(AddedHead(l, n, h), home[n := h]) && Within(AddedHead(l, n, h), nodes)
    ensures Separate(AddedTail(l, n, h), home[n := h]) && Within(AddedTail(l, n, h), nodes)
  {
  }

  lemma ReplacedSeparate(l: Lists, home: map<ListHead, ListHead>, nodes: set<ListHead>, from: ListHead, to: ListHead)
    returns (home': map<ListHead, ListHead>)
    requires Separate(l, home) && Within(l, nodes) && from in l && from != to && to in nodes && !OnAList(l, to)
    ensures Separate((l - {from})[to := l[from]], home') && Within((l - {from})[to := l[from]], nodes)
  {
    home' := map n | n in home :: if home[n] == from then to else home[n];
    forall g, i | g in l && 0 <= i < |l[g]|
      ensures l[g][i] != to
    {
      assert l[g][i] in l[g];
    }
  }

  // The structures the links of s are embedded in.
  ghost function Objs(s: seq<ListHead>): (t: seq<nat>)
    ensures |t| == |s| && forall i :: 0 <= i < |s| ==> t[i] == s[i].obj
  {
    seq(|s|, i requires 0 <= i < |s| => s[i].obj)
  }

  lemma ObjsConcat(a: seq<ListHead>, b: seq<ListHead>)
    ensures Objs(a + b) == Objs(a) + Objs(b)
  {
  }

  lemma ObjsCons(n: ListHead, s: seq<ListHead>)
    ensures Objs([n] + s) == [n.obj] + Objs(s)
  {
  }

  lemma {:induction false} ObjsWithout(s: seq<ListHead>, n: ListHead)
    requires forall m :: m in s && m.obj == n.obj ==> m == n
    ensures Objs(Without(s, n)) == Without(Objs(s), n.obj)
  {
    hide Objs;
    if s != [] {
      assert s[0] in s && forall m :: m in s[1..] ==> m in s;
      ObjsWithout(s[1..], n);
      ObjsCons(s[0], s[1..]);
      assert s == [s[0]] + s[1..];
      ObjsCons(s[0], Without(s[1..], n));
    }
  }

  class ListSpace {
    ghost var lists: Lists
    ghost var nodes: set<ListHead>
    ghost var home: map<ListHead, ListHead>

    constructor ()
      ensures Valid() && lists == map[] && nodes == {}
    {
      lists, home, nodes := map[], map[], {};
    }

    ghost predicate Valid()
      reads this, nodes
    {
      && Separate(lists, home)
      && Within(lists, nodes)
      && forall h {:trigger lists[h]} :: h in lists ==> Ring(h, lists[h])
    }

    lemma Neighbours(h: ListHead)
      requires Valid() && h in lists
      ensures lists[h] == [] ==> h.next == h && h.prev == h
      ensures lists[h] != [] ==> h.next == lists[h][0] && h.prev == lists[h][|lists[h]| - 1]
      ensures h.next == h || h.next in lists[h]
      ensures h.prev == h || h.prev in lists[h]
    {
      assert LinkedAt(h, lists[h], 0) && LinkedAt(h, lists[h], |lists[h]|);
    }

    lemma HeadNodes(h: ListHead)
      requires Valid() && h in lists
      ensures h in nodes && h.next in nodes && h.prev in nodes
    {
      Neighbours(h);
    }

    lemma InitialisedNodes(n: ListHead)
      requires Valid() && Initialised(lists, n)
      ensures n in nodes && n.prev in nodes && n.next in nodes
    {
      if n in lists {
        HeadNodes(n);
      } else {
        NearNodes(n);
      }
    }

    lemma IsSeparate()
      requires Valid()
      ensures Separate(lists, home)
    {
    }

    lemma IsWithin()
      requires Valid()
      ensures Within(lists, nodes)
    {
    }

    lemma HeadsAreOnNoList(n: ListHead)
      requires Valid() && n in lists
      ensures !OnAList(lists, n)
    {
    }

    lemma NearNodes(n: ListHead)
      requires Valid() && OnAList(lists, n)
      ensures n in nodes && n.prev in nodes && n.next in nodes
    {
      var h :| h in lists && n in lists[h];
      var k :| 0 <= k < |lists[h]| && lists[h][k] == n;
      assert LinkedAt(h, lists[h], k) && LinkedAt(h, lists[h], k + 1);
      assert forall i :: 0 <= i < |lists[h]| ==> lists[h][i] in lists[h];
    }

    lemma NextAt(h: ListHead, k: nat)
      requires Valid() && h in lists && k < |lists[h]|
      ensures lists[h][k].next == if k + 1 < |lists[h]| then lists[h][k + 1] else h
    {
      assert LinkedAt(h, lists[h], k + 1);
    }

    // kosal_list_init of a head in memory just allocated.
    method InitNew(n: ListHead)
      requires Valid() && n !in nodes
      modifies this, n
      ensures Valid() && nodes == old(nodes) + {n} && lists == old(lists)[n := []]
    {
      n.next := n;
      n.prev := n;
      nodes := nodes + {n};
      lists := lists[n := []];
    }

    method NewHead(obj: nat, offset: nat) returns (n: ListHead)
      requires Valid()
      modifies this
      ensures Valid() && fresh(n) && n.obj == obj && n.offset == offset
      ensures n !in old(nodes) && nodes == old(nodes) + {n} && n !in old(lists) && lists == old(lists)[n := []]
    {
      n := new ListHead(obj, offset);
      InitNew(n);
    }

    method Init(n: ListHead)
      requires Valid() && n in nodes && !OnAList(lists, n)
      modifies this, n
      ensures Valid() && nodes == old(nodes) && lists == old(lists)[n := []]
    {
      n.next := n;
      n.prev := n;
      lists := lists[n := []];
    }

    // list_add of a node that is loose, or on this very list.
    method LinkFirst(n: ListHead, h: ListHead)
      requires Valid() && h in lists && n != h && n in nodes && (Loose(lists, n) || n in lists[h])
      modifies this, n, h, h.next
      ensures nodes == old(nodes)
      ensures Loose(old(lists), n) ==> Valid() && lists == AddedHead(old(lists), n, h)
      ensures n in old(lists)[h] ==> lists == old(lists) && GoesRound(h, UpTo(lists[h], n))
    {
      ghost var was: Lists, first := lists, h.next;
      Neighbours(h);
      LinkHead(n, h, was[h]);
      if Loose(was, n) {
        AddedSeparate(was, home, nodes, n, h);
        lists, home := AddedHead(was, n, h), home[n := h];
        forall g | g in lists && g != h
          ensures Ring(g, lists[g])
        {
          assert old(Ring(g, was[g]));
          assert forall i :: 0 <= i < |was[g]| ==> was[g][i] != first && was[g][i] != n;
        }
      }
    }

    method AddHead(n: ListHead, h: ListHead)
      requires Valid() && h in lists && n != h && n in nodes && Loose(lists, n)
      modifies this, n, h, h.next
      ensures Valid() && nodes == old(nodes) && lists == AddedHead(old(lists), n, h)
    {
      LinkFirst(n, h);
    }

    method AddTail(n: ListHead, h: ListHead)
      requires Valid() && h in lists && n != h && n in nodes && Loose(lists, n)
      modifies this, n, h, h.prev
      ensures Valid() && nodes == old(nodes) && lists == AddedTail(old(lists), n, h)
    {
      ghost var was: Lists, last := lists, h.prev;
      AddedSeparate(was, home, nodes, n, h);
      Neighbours(h);
      LinkTail(n, h, was[h]);
      lists, home := AddedTail(was, n, h), home[n := h];
      forall g | g in lists && g != h
        ensures Ring(g, lists[g])
      {
        assert old(Ring(g, was[g]));
        assert forall i :: 0 <= i < |was[g]| ==> was[g][i] != last && was[g][i] != n;
      }
    }

    // Where n is, or n itself when it is alone.
    lemma Position(n: ListHead) returns (h: ListHead, k: nat)
      requires Valid() && Initialised(lists, n)
      ensures h in lists && if n == h then lists[h] == [] else k < |lists[h]| && lists[h][k] == n
      ensures n in lists ==> lists[n] == []
      ensures n.prev in Circle(h, lists[h]) && n.next in Circle(h, lists[h])
    {
      h, k := n, 0;
      if n !in lists {
        h :| h in lists && n in lists[h];
        k :| 0 <= k < |lists[h]| && lists[h][k] == n;
        assert LinkedAt(h, lists[h], k);
      }
      assert LinkedAt(h, lists[h], if n == h then 0 else k + 1);
    }

    method Del(n: ListHead)
      requires Valid() && n in nodes && Initialised(lists, n)
      modifies this, n.prev, n.next
      ensures Valid() && nodes == old(nodes) && lists == Deleted(old(lists), n) && Loose(lists, n)
    {
      hide Separate, Within, Deleted, Without, Loose;
      ghost var was: Lists, p, q := lists, n.prev, n.next;
      ghost var h, k := Position(n);
      DeletedAt(was, home, n, h, k);
      DeletedSeparate(was, home, nodes, n);
      HeadIsOnNone(was, home, h);
      Unlink(n, h, was[h], k);
      lists := Deleted(was, n);
      forall g | g in lists && g != h
        ensures Ring(g, lists[g])
      {
        assert old(Ring(g, was[g]));
        CirclesApart(was, home, h, g, p);
        CirclesApart(was, home, h, g, q);
      }
    }

    method DelInit(n: ListHead)
      requires Valid() && n in nodes && Initialised(lists, n)
      modifies this, n, n.prev, n.next
      ensures Valid() && nodes == old(nodes) && lists == Deleted(old(lists), n)[n := []]
    {
      Del(n);
      Init(n);
    }

    method Move(n: ListHead, h: ListHead)
      requires Valid() && n in nodes && Initialised(lists, n)
      requires h in lists && n != h
      modifies this, n, n.prev, n.next, h, h.next
      ensures Valid() && nodes == old(nodes) && lists == AddedHead(Deleted(old(lists), n), n, h)
    {
      Neighbours(h);
      ghost var s := lists[h];
      assert s != [] ==> LinkedAt(h, s, 1);
      Del(n);
      Neighbours(h);
      if s != [] && s[0] != n {
        assert Without(s, n)[0] == s[0];
      }
      AddHead(n, h);
    }

    method Replace(from: ListHead, to: ListHead)
      requires Valid() && from in lists && to in nodes && !OnAList(lists, to) && from != to
      modifies this, from, to, from.prev, from.next
      ensures Valid() && nodes == old(nodes) && lists == (old(lists) - {from})[to := old(lists)[from]]
    {
      ghost var was: Lists, p, q := lists, from.prev, from.next;
      ghost var home' := ReplacedSeparate(was, home, nodes, from, to);
      Neighbours(from);
      Relink(from, to, was[from]);
      lists, home := (was - {from})[to := was[from]], home';
      forall g | g in lists && g != to
        ensures Ring(g, lists[g])
      {
        assert old(Ring(g, was[g]));
        assert forall i :: 0 <= i < |was[g]| ==> was[g][i] != p && was[g][i] != q && was[g][i] != to;
      }
    }

    method ReplaceInit(from: ListHead, to: ListHead)
      requires Valid() && from in lists && to in nodes && !OnAList(lists, to) && from != to
      modifies this, from, to, from.prev, from.next
      ensures Valid() && nodes == old(nodes) && lists == old(lists)[to := old(lists)[from]][from := []]
    {
      Replace(from, to);
      Init(from);
    }
  }
}
