// What the queue operations of aalqueue.h do to a table of lists, and what
// any run of them keeps.
module QueueSpec {
  import opened Sequences
  import opened KosalList

  datatype Op =
    | Enqueue(item: ListHead, q: ListHead)
    | Push(item: ListHead, q: ListHead)
    | Dequeue(q: ListHead)
    | Peek(q: ListHead)
    | Find(item: ListHead, q: ListHead)
    | Remove(item: ListHead, q: ListHead)
    | Swap(item: ListHead, q: ListHead, to: ListHead)

  // An operation and the fate of its lock acquires: lost says that the
  // semaphore of q is interrupted, lostTo that the second one of a swap is.
  datatype Call = Call(op: Op, lost: bool, lostTo: bool) {
    predicate Fails() {
      lost || (op.Swap? && lostTo)
    }
  }

  // What a caller has to see to: heads are the queues, and an item goes into a
  // queue only from no queue, or by a swap between different queues.
  ghost predicate Allowed(l: Lists, heads: set<ListHead>, c: Call) {
    && c.op.q in heads && heads <= l.Keys
    && (c.op.Enqueue? || c.op.Push? ==> c.op.item !in heads && Loose(l, c.op.item))
    && (c.op.Remove? || c.op.Swap? ==> c.op.item !in heads && Initialised(l, c.op.item))
    && (c.op.Swap? ==> c.op.to in heads && c.op.to != c.op.q)
  }

  ghost function Effect(l: Lists, heads: set<ListHead>, c: Call): Lists
    requires Allowed(l, heads, c)
  {
    if c.Fails() then l else
    match c.op
    case Enqueue(item, q) => AddedTail(l, item, q)
    case Push(item, q) => AddedHead(l, item, q)
    case Dequeue(q) => if l[q] == [] then l else Deleted(l, l[q][0])[l[q][0] := []]
    case Peek(_) => l
    case Find(_, _) => l
    case Remove(item, _) => Deleted(l, item)[item := []]
    case Swap(item, _, to) => AddedTail(Deleted(l, item)[item := []], item, to)
  }

  // The same operations on the plain sequence that queue q stands for.
  ghost function SeqEffect(s: seq<ListHead>, q: ListHead, c: Call): seq<ListHead> {
    if c.Fails() then s else
    match c.op
    case Enqueue(item, p) => if p == q then s + [item] else s
    case Push(item, p) => if p == q then [item] + s else s
    case Dequeue(p) => if p == q && s != [] then s[1..] else s
    case Peek(_) => s
    case Find(_, _) => s
    case Remove(item, _) => Without(s, item)
    case Swap(item, _, to) => Without(s, item) + if to == q then [item] else []
  }

  ghost function SeqAnswer(s: seq<ListHead>, c: Call): ListHead? {
    if c.Fails() then null else
    match c.op
    case Dequeue(_) => if s == [] then null else s[0]
    case Peek(_) => if s == [] then null else s[0]
    case Find(item, _) => if item in s then item else null
    case _ => null
  }

  // ----- single steps

  lemma EffectSound(l: Lists, home: map<ListHead, ListHead>, nodes: set<ListHead>, heads: set<ListHead>, c: Call)
    returns (home': map<ListHead, ListHead>)
    requires Separate(l, home) && Within(l, nodes) && Allowed(l, heads, c)
    requires c.op.Enqueue? || c.op.Push? ==> c.op.item in nodes
    ensures Separate(Effect(l, heads, c), home') && Within(Effect(l, heads, c), nodes)
  {
    home' := home;
    if !c.Fails() {
      match c.op
      case Enqueue(item, q) =>
        AddedSeparate(l, home, nodes, item, q);
        home' := home[item := q];
      case Push(item, q) =>
        AddedSeparate(l, home, nodes, item, q);
        home' := home[item := q];
      case Dequeue(q) =>
        if l[q] != [] {
          DeletedSeparate(l, home, nodes, l[q][0]);
        }
      case Peek(_) =>
      case Find(_, _) =>
      case Remove(item, _) =>
        DeletedSeparate(l, home, nodes, item);
      case Swap(item, _, to) =>
        DeletedSeparate(l, home, nodes, item);
        AddedSeparate(Deleted(l, item)[item := []], home, nodes, item, to);
        home' := home[item := to];
    }
  }

  lemma EffectOnQueue(l: Lists, home: map<ListHead, ListHead>, heads: set<ListHead>, c: Call, q: ListHead)
    requires Separate(l, home) && Allowed(l, heads, c) && q in heads
    ensures heads <= Effect(l, heads, c).Keys
    ensures Effect(l, heads, c)[q] == SeqEffect(l[q], q, c)
  {
    if c.op.Dequeue? && !c.Fails() && l[c.op.q] != [] {
      var first := l[c.op.q][0];
      assert first !in l;
      if q != c.op.q {
        assert first !in l[q];
        WithoutAbsent(l[q], first);
      }
    }
  }

  // ----- runs

  ghost predicate RunAllowed(l: Lists, heads: set<ListHead>, cs: seq<Call>)
    decreases |cs|
  {
    cs == [] || (Allowed(l, heads, cs[0]) && RunAllowed(Effect(l, heads, cs[0]), heads, cs[1..]))
  }

  ghost function Final(l: Lists, heads: set<ListHead>, cs: seq<Call>): Lists
    requires RunAllowed(l, heads, cs)
    decreases |cs|
  {
    if cs == [] then l else Final(Effect(l, heads, cs[0]), heads, cs[1..])
  }

  ghost function SeqFinal(s: seq<ListHead>, q: ListHead, cs: seq<Call>): seq<ListHead>
    decreases |cs|
  {
    if cs == [] then s else SeqFinal(SeqEffect(s, q, cs[0]), q, cs[1..])
  }

  // Any run of queue operations on the table does to each queue what the same
  // run does to a plain sequence.
  lemma {:induction false} RunRefinesSequence(l: Lists, home: map<ListHead, ListHead>, nodes: set<ListHead>,
                                              heads: set<ListHead>, cs: seq<Call>, q: ListHead)
    requires Separate(l, home) && Within(l, nodes) && RunAllowed(l, heads, cs) && q in heads && q in l
    requires forall c :: c in cs && (c.op.Enqueue? || c.op.Push?) ==> c.op.item in nodes
    ensures q in Final(l, heads, cs) && Final(l, heads, cs)[q] == SeqFinal(l[q], q, cs)
    decreases |cs|
  {
    if cs != [] {
      var home' := EffectSound(l, home, nodes, heads, cs[0]);
      EffectOnQueue(l, home, heads, cs[0], q);
      RunRefinesSequence(Effect(l, heads, cs[0]), home', nodes, heads, cs[1..], q);
    }
  }

  // What a run successfully enqueues on q, and what it dequeues from q, in order.
  ghost predicate Gives(c: Call, q: ListHead) {
    c.op.Enqueue? && c.op.q == q && !c.Fails()
  }

  ghost predicate Takes(c: Call, q: ListHead, s: seq<ListHead>) {
    c.op.Dequeue? && c.op.q == q && !c.Fails() && s != []
  }

  ghost function Given(cs: seq<Call>, q: ListHead): seq<ListHead> {
    if cs == [] then []
    else if Gives(cs[0], q) then [cs[0].op.item] + Given(cs[1..], q)
    else Given(cs[1..], q)
  }

  ghost function Taken(s: seq<ListHead>, q: ListHead, cs: seq<Call>): seq<ListHead>
    decreases |cs|
  {
    if cs == [] then []
    else if Takes(cs[0], q, s) then [s[0]] + Taken(s[1..], q, cs[1..])
    else Taken(SeqEffect(s, q, cs[0]), q, cs[1..])
  }

  ghost predicate FifoOnly(cs: seq<Call>) {
    forall c :: c in cs ==> c.op.Enqueue? || c.op.Dequeue? || c.op.Peek? || c.op.Find?
  }

  // First in, first out: what comes out of q followed by what stays on it is
  // what was on it followed by what went in.
  lemma {:induction false} FirstInFirstOut(s: seq<ListHead>, q: ListHead, cs: seq<Call>)
    requires FifoOnly(cs)
    ensures Taken(s, q, cs) + SeqFinal(s, q, cs) == s + Given(cs, q)
    decreases |cs|
  {
    if cs != [] {
      var c, rest := cs[0], cs[1..];
      assert c in cs && forall d :: d in rest ==> d in cs;
      FirstInFirstOut(SeqEffect(s, q, c), q, rest);
      var taken, left, given := Taken(SeqEffect(s, q, c), q, rest), SeqFinal(s, q, cs), Given(rest, q);
      if Gives(c, q) {
        ConcatAssoc(s, [c.op.item], given);
      } else if Takes(c, q, s) {
        ConcatAssoc([s[0]], taken, left);
        ConcatAssoc([s[0]], s[1..], given);
        assert [s[0]] + s[1..] == s;
      }
    }
  }

  // ----- where items are

  // Where the queues have n: on q alone, or nowhere when q is null.
  ghost predicate Sits(l: Lists, heads: set<ListHead>, n: ListHead, q: ListHead?) {
    && (q == null || q in heads)
    && forall p :: p in heads && p in l ==> (n in l[p] <==> p == q)
  }

  // Where n sits after c, told from what c says and where n sat before.
  ghost function Placed(l: Lists, heads: set<ListHead>, c: Call, n: ListHead, was: ListHead?): ListHead?
    requires Allowed(l, heads, c)
  {
    if c.Fails() then was
    else match c.op
      case Enqueue(item, q) => if item == n then q else was
      case Push(item, q) => if item == n then q else was
      case Dequeue(q) => if l[q] != [] && l[q][0] == n then null else was
      case Peek(_) => was
      case Find(_, _) => was
      case Remove(item, _) => if item == n then null else was
      case Swap(item, _, to) => if item == n then to else was
  }

  ghost function LastPut(l: Lists, heads: set<ListHead>, cs: seq<Call>, n: ListHead, was: ListHead?): ListHead?
    requires RunAllowed(l, heads, cs)
    decreases |cs|
  {
    if cs == [] then was
    else LastPut(Effect(l, heads, cs[0]), heads, cs[1..], n, Placed(l, heads, cs[0], n, was))
  }

  lemma SitsStep(l: Lists, home: map<ListHead, ListHead>, heads: set<ListHead>, c: Call, n: ListHead, was: ListHead?)
    requires Separate(l, home) && Allowed(l, heads, c) && Sits(l, heads, n, was)
    ensures Sits(Effect(l, heads, c), heads, n, Placed(l, heads, c, n, was))
  {
    forall p | p in heads && p in Effect(l, heads, c)
      ensures n in Effect(l, heads, c)[p] <==> p == Placed(l, heads, c, n, was)
    {
      EffectOnQueue(l, home, heads, c, p);
      if c.op.Remove? || c.op.Swap? {
        WithoutDistinct(l[p], c.op.item);
        WithoutWithin(l[p], c.op.item);
      }
      if c.op.Dequeue? && l[p] != [] {
        assert l[p] == [l[p][0]] + l[p][1..];
      }
    }
  }

  // No run loses or duplicates an item: each sits on the one queue that it was
  // last put on, or on none when it was taken off since.
  lemma {:induction false} ItemsSitWherePut(l: Lists, home: map<ListHead, ListHead>, nodes: set<ListHead>,
                                            heads: set<ListHead>, cs: seq<Call>, n: ListHead, was: ListHead?)
    requires Separate(l, home) && Within(l, nodes) && RunAllowed(l, heads, cs) && Sits(l, heads, n, was)
    requires forall c :: c in cs && (c.op.Enqueue? || c.op.Push?) ==> c.op.item in nodes
    ensures Sits(Final(l, heads, cs), heads, n, LastPut(l, heads, cs, n, was))
    decreases |cs|
  {
    if cs != [] {
      var home' := EffectSound(l, home, nodes, heads, cs[0]);
      SitsStep(l, home, heads, cs[0], n, was);
      ItemsSitWherePut(Effect(l, heads, cs[0]), home', nodes, heads, cs[1..], n, Placed(l, heads, cs[0], n, was));
    }
  }

  // Each list of after is the list of l without item, but that to has it last.
  ghost predicate Moved(l: Lists, after: Lists, item: ListHead, to: ListHead)
    requires to in l
  {
    && to in after && after[to] == Without(l[to], item) + [item]
    && (forall g :: g in after && g != to ==> g in l || after[g] == [])
    && (forall g :: g in l && g != item && g != to ==> g in after && after[g] == Without(l[g], item))
  }

  lemma MovedItems(l: Lists, home: map<ListHead, ListHead>, after: Lists, item: ListHead, to: ListHead, n: ListHead)
    requires Separate(l, home) && to in l && to != item && Moved(l, after, item, to)
    requires (item in l ==> l[item] == []) && (item in after ==> after[item] == [])
    ensures OnAList(after, n) <==> OnAList(l, n) || n == item
  {
    hide Separate;
    assert item in after[to];
    if n != item && OnAList(l, n) {
      var g :| g in l && n in l[g];
      WithoutKeepsOthers(l[g], item);
      assert g in after && n in after[g];
    }
    if n != item && OnAList(after, n) {
      var g :| g in after && n in after[g];
      WithoutWithin(l[g], item);
      assert n in l[g];
    }
  }

  // A successful swap: the item becomes last on the target, the order of all
  // others is kept on every list, and the queued items are the same together
  // with the item. From no queue it is an enqueue.
  lemma SwapMoves(l: Lists, home: map<ListHead, ListHead>, heads: set<ListHead>, c: Call)
    requires Separate(l, home) && Allowed(l, heads, c) && c.op.Swap? && !c.Fails()
    ensures var after := Effect(l, heads, c);
      && Moved(l, after, c.op.item, c.op.to)
      && (forall n :: OnAList(after, n) <==> OnAList(l, n) || n == c.op.item)
      && (!OnAList(l, c.op.item) ==> after == Effect(l, heads, Call(Op.Enqueue(c.op.item, c.op.to), false, false)))
  {
    var item, to, after := c.op.item, c.op.to, Effect(l, heads, c);
    forall n
      ensures OnAList(after, n) <==> OnAList(l, n) || n == item
    {
      MovedItems(l, home, after, item, to, n);
    }
    if !OnAList(l, item) {
      forall g | g in l
        ensures Without(l[g], item) == l[g]
      {
        WithoutAbsent(l[g], item);
      }
    }
  }

  // ----- what callers are handed

  // A lock that is not got: nothing happens and nothing is handed out.
  lemma InterruptedDoesNothing(l: Lists, heads: set<ListHead>, c: Call)
    requires Allowed(l, heads, c) && (c.lost || (c.op.Swap? && c.lostTo))
    ensures Effect(l, heads, c) == l && SeqAnswer(l[c.op.q], c) == null
  {
  }

  // A dequeue that hands out an item leaves what was behind it; one that hands
  // out nothing was interrupted or found the queue empty.
  lemma DequeueHandsOver(s: seq<ListHead>, q: ListHead, lost: bool, lostTo: bool)
    ensures var c := Call(Op.Dequeue(q), lost, lostTo);
      && (SeqAnswer(s, c) != null ==> [SeqAnswer(s, c)] + SeqEffect(s, q, c) == s)
      && (SeqAnswer(s, c) == null ==> SeqEffect(s, q, c) == s)
      && (SeqAnswer(s, c) == null <==> lost || s == [])
  {
  }

  // A peek answers what a dequeue in its place would hand out.
  lemma PeekTellsNext(s: seq<ListHead>, q: ListHead, lost: bool, lostTo: bool)
    ensures SeqAnswer(s, Call(Op.Peek(q), lost, lostTo)) == SeqAnswer(s, Call(Op.Dequeue(q), lost, lostTo))
  {
  }

  // A find answers the item exactly when it is on the queue, and never another one.
  lemma FindTells(s: seq<ListHead>, q: ListHead, item: ListHead, lost: bool, lostTo: bool)
    ensures var answer := SeqAnswer(s, Call(Op.Find(item, q), lost, lostTo));
      (answer == item <==> !lost && item in s) && (answer != item ==> answer == null)
  {
  }

  // A remove takes the item out from wherever it is, and nothing else.
  lemma RemoveTakesOne(s: seq<ListHead>, q: ListHead, p: ListHead, k: nat)
    requires k < |s| && Distinct(s)
    ensures SeqEffect(s, q, Call(Op.Remove(s[k], p), false, false)) == s[..k] + s[k + 1..]
  {
    WithoutAt(s, s[k], k);
  }

  // What the dequeues of q in a run hand out, in order.
  ghost function HandedOut(l: Lists, heads: set<ListHead>, cs: seq<Call>, q: ListHead): seq<ListHead>
    requires RunAllowed(l, heads, cs)
    decreases |cs|
  {
    if cs == [] then [] else
    var answer := SeqAnswer(l[cs[0].op.q], cs[0]);
    (if cs[0].op.Dequeue? && cs[0].op.q == q && answer != null then [answer] else [])
      + HandedOut(Effect(l, heads, cs[0]), heads, cs[1..], q)
  }

  // They are what the run takes from the plain sequence.
  lemma {:induction false} HandedOutIsTaken(l: Lists, home: map<ListHead, ListHead>, nodes: set<ListHead>,
                                            heads: set<ListHead>, cs: seq<Call>, q: ListHead)
    requires Separate(l, home) && Within(l, nodes) && RunAllowed(l, heads, cs) && q in heads && q in l
    requires forall c :: c in cs && (c.op.Enqueue? || c.op.Push?) ==> c.op.item in nodes
    ensures HandedOut(l, heads, cs, q) == Taken(l[q], q, cs)
    decreases |cs|
  {
    hide Separate, Within, Effect;
    if cs != [] {
      var c := cs[0];
      assert c in cs && forall d :: d in cs[1..] ==> d in cs;
      var home' := EffectSound(l, home, nodes, heads, c);
      EffectOnQueue(l, home, heads, c, q);
      HandedOutIsTaken(Effect(l, heads, c), home', nodes, heads, cs[1..], q);
    }
  }

  // First in, first out on the nodes: what the dequeues of a run hand out,
  // followed by what is left on q, is what was on q followed by what went in.
  lemma HandedOutInOrder(l: Lists, home: map<ListHead, ListHead>, nodes: set<ListHead>,
                         heads: set<ListHead>, cs: seq<Call>, q: ListHead)
    requires Separate(l, home) && Within(l, nodes) && RunAllowed(l, heads, cs) && q in heads && q in l && FifoOnly(cs)
    requires forall c :: c in cs && c.op.Enqueue? ==> c.op.item in nodes
    ensures q in Final(l, heads, cs) && HandedOut(l, heads, cs, q) + Final(l, heads, cs)[q] == l[q] + Given(cs, q)
  {
    hide Separate, Within, RunAllowed, Final, HandedOut, Taken, SeqFinal, Given;
    HandedOutIsTaken(l, home, nodes, heads, cs, q);
    RunRefinesSequence(l, home, nodes, heads, cs, q);
    FirstInFirstOut(l[q], q, cs);
  }

  // What a run pushes on q, the last one first.
  ghost function Pushed(cs: seq<Call>, q: ListHead): seq<ListHead> {
    if cs == [] then []
    else Pushed(cs[1..], q) + if cs[0].op.Push? && cs[0].op.q == q && !cs[0].lost then [cs[0].op.item] else []
  }

  // Last in, first out: after a run of pushes the last one pushed is in front.
  lemma {:induction false} LastPushedIsFirst(s: seq<ListHead>, q: ListHead, cs: seq<Call>)
    requires forall c :: c in cs ==> c.op.Push?
    ensures SeqFinal(s, q, cs) == Pushed(cs, q) + s
    decreases |cs|
  {
    if cs != [] {
      var c, rest := cs[0], cs[1..];
      assert c in cs && forall d :: d in rest ==> d in cs;
      LastPushedIsFirst(SeqEffect(s, q, c), q, rest);
      if c.op.q == q && !c.lost {
        ConcatAssoc(Pushed(rest, q), [c.op.item], s);
      } else {
        assert Pushed(rest, q) + [] == Pushed(rest, q);
      }
    }
  }
}
