// Swaps between queues by several threads at once: a swap takes the lock of the
// queue it moves from and then, still holding it, that of the queue it moves to.
module QueueLocks {
  import opened Sequences

  datatype Swap = Swap(from: nat, to: nat)
  datatype Stage = Start | HasFrom | HasBoth | Done

  // Thread i makes swaps[i]; owner says which thread has the lock of a queue.
  datatype State = State(at: seq<Stage>, owner: map<nat, nat>)

  function Begin(swaps: seq<Swap>): State {
    State(seq(|swaps|, _ => Start), map[])
  }

  // The next lock of thread i is free, or it needs none.
  predicate Can(swaps: seq<Swap>, s: State, i: nat) {
    i < |swaps| && |s.at| == |swaps| && s.at[i] != Done
    && (s.at[i] == Start ==> swaps[i].from !in s.owner)
    && (s.at[i] == HasFrom ==> swaps[i].to !in s.owner)
  }

  function Do(swaps: seq<Swap>, s: State, i: nat): State
    requires Can(swaps, s, i)
  {
    match s.at[i]
    case Start => State(s.at[i := HasFrom], s.owner[swaps[i].from := i])
    case HasFrom => State(s.at[i := HasBoth], s.owner[swaps[i].to := i])
    case HasBoth => State(s.at[i := Done], s.owner - {swaps[i].from, swaps[i].to})
  }

  predicate RunCan(swaps: seq<Swap>, s: State, run: seq<nat>)
    decreases |run|
  {
    run == [] || (Can(swaps, s, run[0]) && RunCan(swaps, Do(swaps, s, run[0]), run[1..]))
  }

  function After(swaps: seq<Swap>, s: State, run: seq<nat>): State
    requires RunCan(swaps, s, run)
    decreases |run|
  {
    if run == [] then s else After(swaps, Do(swaps, s, run[0]), run[1..])
  }

  function Follow(k: int, n: int): int {
    if k + 1 == n then 0 else k + 1
  }

  // The threads of ts each have their first lock and wait for one that the
  // next of them has, the last one for one that the first has.
  ghost predicate StuckAt(swaps: seq<Swap>, s: State, ts: seq<nat>, k: int)
    requires 0 <= k < |ts|
  {
    && ts[k] < |swaps| && |s.at| == |swaps| && s.at[ts[k]] == HasFrom
    && swaps[ts[k]].to in s.owner && s.owner[swaps[ts[k]].to] == ts[Follow(k, |ts|)]
  }

  ghost predicate Stuck(swaps: seq<Swap>, s: State, ts: seq<nat>) {
    ts != [] && forall k {:trigger StuckAt(swaps, s, ts, k)} :: 0 <= k < |ts| ==> StuckAt(swaps, s, ts, k)
  }

  // Each swap of ts moves to the queue that the next one moves from, in a circle.
  ghost predicate Joins(swaps: seq<Swap>, ts: seq<nat>, k: int)
    requires 0 <= k < |ts|
  {
    ts[k] < |swaps| && ts[Follow(k, |ts|)] < |swaps| && swaps[ts[k]].to == swaps[ts[Follow(k, |ts|)]].from
  }

  ghost predicate Circle(swaps: seq<Swap>, ts: seq<nat>) {
    ts != [] && forall k {:trigger Joins(swaps, ts, k)} :: 0 <= k < |ts| ==> Joins(swaps, ts, k)
  }

  // A thread has the locks its stage says, and nobody else has.
  predicate Owns(swaps: seq<Swap>, s: State, q: nat, i: nat) {
    i < |swaps| && i < |s.at| && (
      (s.at[i] == HasFrom && swaps[i].from == q) || (s.at[i] == HasBoth && (swaps[i].from == q || swaps[i].to == q)))
  }

  ghost predicate Inv(swaps: seq<Swap>, s: State) {
    && |s.at| == |swaps|
    && (forall q :: q in s.owner ==> Owns(swaps, s, q, s.owner[q]))
    && (forall q, i {:trigger Owns(swaps, s, q, i)} :: Owns(swaps, s, q, i) ==> q in s.owner && s.owner[q] == i)
  }

  lemma StepKeepsInv(swaps: seq<Swap>, s: State, i: nat)
    requires Inv(swaps, s) && Can(swaps, s, i)
    ensures Inv(swaps, Do(swaps, s, i))
  {
    var after := Do(swaps, s, i);
    forall q | q in after.owner
      ensures Owns(swaps, after, q, after.owner[q])
    {
      assert q in s.owner ==> Owns(swaps, s, q, s.owner[q]);
    }
    forall q, j: nat | Owns(swaps, after, q, j)
      ensures q in after.owner && after.owner[q] == j
    {
      assert j != i ==> Owns(swaps, s, q, j);
      assert j == i && s.at[i] == HasFrom ==> Owns(swaps, s, swaps[i].from, i);
      assert s.at[i] == HasBoth ==> Owns(swaps, s, swaps[i].from, i) && Owns(swaps, s, swaps[i].to, i);
    }
  }

  lemma {:induction false} RunKeepsInv(swaps: seq<Swap>, s: State, run: seq<nat>)
    requires Inv(swaps, s) && RunCan(swaps, s, run)
    ensures Inv(swaps, After(swaps, s, run))
    decreases |run|
  {
    if run != [] {
      StepKeepsInv(swaps, s, run[0]);
      RunKeepsInv(swaps, Do(swaps, s, run[0]), run[1..]);
    }
  }

  // A circle of waiting threads is a circle of swaps.
  lemma StuckIsCircle(swaps: seq<Swap>, s: State, ts: seq<nat>)
    requires Inv(swaps, s) && Stuck(swaps, s, ts)
    ensures Circle(swaps, ts)
  {
    forall k | 0 <= k < |ts|
      ensures Joins(swaps, ts, k)
    {
      assert StuckAt(swaps, s, ts, k) && StuckAt(swaps, s, ts, Follow(k, |ts|));
      assert Owns(swaps, s, swaps[ts[k]].to, ts[Follow(k, |ts|)]);
    }
  }

  // ----- a circle of swaps can get stuck

  ghost predicate FromsDiffer(swaps: seq<Swap>, ts: seq<nat>) {
    && (forall k :: 0 <= k < |ts| ==> ts[k] < |swaps|)
    && forall j, k :: 0 <= j < k < |ts| ==> swaps[ts[j]].from != swaps[ts[k]].from
  }

  lemma PartIsCircle(swaps: seq<Swap>, ts: seq<nat>, j: nat, k: nat)
    requires Circle(swaps, ts) && j < k < |ts|
    requires ts[j] < |swaps| && ts[k] < |swaps| && swaps[ts[j]].from == swaps[ts[k]].from
    ensures Circle(swaps, ts[j..k])
  {
    var part := ts[j..k];
    forall n | 0 <= n < |part|
      ensures Joins(swaps, part, n)
    {
      assert Joins(swaps, ts, j + n);
    }
  }

  // A circle that comes past a queue twice has a shorter one in it.
  lemma {:induction false} SomeCircleIsSimple(swaps: seq<Swap>, ts: seq<nat>) returns (us: seq<nat>)
    requires Circle(swaps, ts)
    ensures Circle(swaps, us) && FromsDiffer(swaps, us)
    decreases |ts|
  {
    us := ts;
    InSwaps(swaps, ts);
    hide Circle;
    if !FromsDiffer(swaps, ts) {
      var j, k :| 0 <= j < k < |ts| && swaps[ts[j]].from == swaps[ts[k]].from;
      PartIsCircle(swaps, ts, j, k);
      us := SomeCircleIsSimple(swaps, ts[j..k]);
    }
  }

  lemma InSwaps(swaps: seq<Swap>, ts: seq<nat>)
    requires Circle(swaps, ts)
    ensures forall k :: 0 <= k < |ts| ==> ts[k] < |swaps|
  {
    forall k | 0 <= k < |ts|
      ensures ts[k] < |swaps|
    {
      assert Joins(swaps, ts, k);
    }
  }

  // The first n threads of ts have taken their first lock, nothing else is done.
  ghost predicate Taken(swaps: seq<Swap>, s: State, ts: seq<nat>, n: nat)
    requires n <= |ts| && FromsDiffer(swaps, ts)
  {
    && |s.at| == |swaps|
    && (forall k :: 0 <= k < n ==> s.at[ts[k]] == HasFrom && swaps[ts[k]].from in s.owner && s.owner[swaps[ts[k]].from] == ts[k])
    && (forall k :: n <= k < |ts| ==> s.at[ts[k]] == Start && swaps[ts[k]].from !in s.owner)
  }

  lemma {:induction false} TakeFirsts(swaps: seq<Swap>, s: State, ts: seq<nat>, n: nat)
    requires n <= |ts| && FromsDiffer(swaps, ts) && Taken(swaps, s, ts, n)
    ensures RunCan(swaps, s, ts[n..]) && Taken(swaps, After(swaps, s, ts[n..]), ts, |ts|)
    decreases |ts| - n
  {
    if n < |ts| {
      assert ts[n..][0] == ts[n] && ts[n..][1..] == ts[n + 1..];
      assert forall k :: 0 <= k < |ts| && k != n ==> ts[k] != ts[n];
      TakeFirsts(swaps, Do(swaps, s, ts[n]), ts, n + 1);
    }
  }

  lemma CircleGetsStuck(swaps: seq<Swap>, ts: seq<nat>) returns (run: seq<nat>, us: seq<nat>)
    requires Circle(swaps, ts)
    ensures RunCan(swaps, Begin(swaps), run) && Stuck(swaps, After(swaps, Begin(swaps), run), us)
  {
    us := SomeCircleIsSimple(swaps, ts);
    TakeFirsts(swaps, Begin(swaps), us, 0);
    run := us;
    assert us[0..] == us;
    forall k | 0 <= k < |us|
      ensures StuckAt(swaps, After(swaps, Begin(swaps), run), us, k)
    {
      assert Joins(swaps, us, k);
    }
  }

  // ----- stuck for good

  // Thread i has not finished, and will not get another lock however the
  // others go on.
  ghost predicate BlockedForGood(swaps: seq<Swap>, s: State, i: nat) {
    && i < |swaps| && |s.at| == |swaps| && s.at[i] != Done
    && forall more {:trigger RunCan(swaps, s, more)} :: RunCan(swaps, s, more) ==> !Can(swaps, After(swaps, s, more), i)
  }

  lemma StuckCannot(swaps: seq<Swap>, s: State, ts: seq<nat>, k: nat)
    requires Stuck(swaps, s, ts) && k < |ts|
    ensures !Can(swaps, s, ts[k])
  {
    assert StuckAt(swaps, s, ts, k);
  }

  // Whatever the other threads do, the circle stays.
  lemma StepKeepsStuck(swaps: seq<Swap>, s: State, ts: seq<nat>, i: nat)
    requires Inv(swaps, s) && Stuck(swaps, s, ts) && Can(swaps, s, i)
    ensures Stuck(swaps, Do(swaps, s, i), ts)
  {
    forall k | 0 <= k < |ts|
      ensures StuckAt(swaps, Do(swaps, s, i), ts, k)
    {
      var next := Follow(k, |ts|);
      StuckCannot(swaps, s, ts, k);
      StuckCannot(swaps, s, ts, next);
      assert StuckAt(swaps, s, ts, k);
      assert s.at[i] == HasBoth ==> Owns(swaps, s, swaps[i].from, i) && Owns(swaps, s, swaps[i].to, i);
    }
  }

  lemma {:induction false} RunKeepsStuck(swaps: seq<Swap>, s: State, ts: seq<nat>, more: seq<nat>)
    requires Inv(swaps, s) && Stuck(swaps, s, ts) && RunCan(swaps, s, more)
    ensures Stuck(swaps, After(swaps, s, more), ts)
    decreases |more|
  {
    if more != [] {
      StepKeepsInv(swaps, s, more[0]);
      StepKeepsStuck(swaps, s, ts, more[0]);
      RunKeepsStuck(swaps, Do(swaps, s, more[0]), ts, more[1..]);
    }
  }

  lemma StuckIsForGood(swaps: seq<Swap>, s: State, ts: seq<nat>)
    requires Inv(swaps, s) && Stuck(swaps, s, ts)
    ensures BlockedForGood(swaps, s, ts[0])
  {
    assert StuckAt(swaps, s, ts, 0);
    forall more | RunCan(swaps, s, more)
      ensures !Can(swaps, After(swaps, s, more), ts[0])
    {
      RunKeepsStuck(swaps, s, ts, more);
      StuckCannot(swaps, After(swaps, s, more), ts, 0);
    }
  }

  // ----- without a circle everybody gets on

  // Each thread of ts has its first lock and waits for the next one's.
  ghost predicate Waiting(swaps: seq<Swap>, s: State, ts: seq<nat>) {
    && Distinct(ts) && |s.at| == |swaps|
    && (forall k :: 0 <= k < |ts| ==> ts[k] < |swaps| && s.at[ts[k]] == HasFrom)
    && forall k :: 0 <= k < |ts| - 1 ==> swaps[ts[k]].to == swaps[ts[k + 1]].from
  }

  // A lock that a thread waits for, when nobody can go on, is the first lock
  // of a thread that waits in its turn.
  lemma OwnerWaits(swaps: seq<Swap>, s: State, q: nat) returns (j: nat)
    requires Inv(swaps, s) && q in s.owner && forall i: nat :: !Can(swaps, s, i)
    ensures j < |swaps| && s.at[j] == HasFrom && swaps[j].from == q
  {
    j := s.owner[q];
    assert Owns(swaps, s, q, j);
    assert !Can(swaps, s, j);
  }

  // Following the waits leads round in a circle, because there are only so many threads.
  lemma {:induction false} WaitsComeRound(swaps: seq<Swap>, s: State, ts: seq<nat>) returns (us: seq<nat>)
    requires Inv(swaps, s) && ts != [] && Waiting(swaps, s, ts) && forall i: nat :: !Can(swaps, s, i)
    ensures Circle(swaps, us)
    decreases |swaps| - |ts|
  {
    assert forall t :: t in ts ==> 0 <= t < |swaps|;
    Pigeonhole(ts, |swaps|);
    var last := ts[|ts| - 1];
    assert !Can(swaps, s, last);
    var next := OwnerWaits(swaps, s, swaps[last].to);
    if next in ts {
      var j :| 0 <= j < |ts| && ts[j] == next;
      us := ts[j..];
      forall k | 0 <= k < |us|
        ensures Joins(swaps, us, k)
      {
        assert us[k] == ts[j + k] && us[0] == next;
      }
    } else {
      assert forall t :: t in ts + [next] ==> 0 <= t < |swaps|;
      assert Waiting(swaps, s, ts + [next]);
      Pigeonhole(ts + [next], |swaps|);
      us := WaitsComeRound(swaps, s, ts + [next]);
    }
  }

  // As long as a thread has not finished, some thread can go on.
  lemma NoCircleNoWait(swaps: seq<Swap>, s: State, i: nat)
    requires Inv(swaps, s) && (forall ts :: !Circle(swaps, ts)) && i < |swaps| && s.at[i] != Done
    ensures exists j: nat :: Can(swaps, s, j)
  {
    if forall j: nat :: !Can(swaps, s, j) {
      assert !Can(swaps, s, i);
      var t := i;
      if s.at[i] == Start {
        t := OwnerWaits(swaps, s, swaps[i].from);
      }
      var us := WaitsComeRound(swaps, s, [t]);
    }
  }

  function StepsLeft(at: seq<Stage>): nat {
    if at == [] then 0
    else (match at[0] case Start => 3 case HasFrom => 2 case HasBoth => 1 case Done => 0) + StepsLeft(at[1..])
  }

  lemma {:induction false} StepsLess(at: seq<Stage>, i: nat, now: Stage)
    requires i < |at|
    requires match at[i] case Start => now == HasFrom case HasFrom => now == HasBoth case HasBoth => now == Done case Done => false
    ensures StepsLeft(at[i := now]) == StepsLeft(at) - 1
  {
    if i == 0 {
      assert at[0 := now][1..] == at[1..];
    } else {
      StepsLess(at[1..], i - 1, now);
      assert at[i := now][1..] == at[1..][i - 1 := now];
    }
  }

  predicate AllDone(swaps: seq<Swap>, s: State) {
    |s.at| == |swaps| && forall i :: 0 <= i < |swaps| ==> s.at[i] == Done
  }

  // From any state reached, some way to go on ends with every swap made.
  lemma {:induction false} NoCircleAllFinish(swaps: seq<Swap>, s: State) returns (more: seq<nat>)
    requires Inv(swaps, s) && forall ts :: !Circle(swaps, ts)
    ensures RunCan(swaps, s, more) && AllDone(swaps, After(swaps, s, more))
    decreases StepsLeft(s.at)
  {
    more := [];
    if !AllDone(swaps, s) {
      var i: nat :| i < |swaps| && s.at[i] != Done;
      NoCircleNoWait(swaps, s, i);
      var j: nat :| Can(swaps, s, j);
      StepKeepsInv(swaps, s, j);
      StepsLess(s.at, j, Do(swaps, s, j).at[j]);
      var rest := NoCircleAllFinish(swaps, Do(swaps, s, j));
      more := [j] + rest;
      assert more[1..] == rest;
    }
  }

  lemma {:induction false} BlockedStays(swaps: seq<Swap>, s: State, i: nat, more: seq<nat>)
    requires BlockedForGood(swaps, s, i) && RunCan(swaps, s, more)
    ensures |After(swaps, s, more).at| == |swaps| && After(swaps, s, more).at[i] == s.at[i]
    decreases |more|
  {
    if more != [] {
      var next := Do(swaps, s, more[0]);
      assert RunCan(swaps, s, []) && After(swaps, s, []) == s;
      forall rest | RunCan(swaps, next, rest)
        ensures !Can(swaps, After(swaps, next, rest), i)
      {
        assert ([more[0]] + rest)[1..] == rest;
        assert RunCan(swaps, s, [more[0]] + rest);
      }
      BlockedStays(swaps, next, i, more[1..]);
    }
  }

  ghost predicate CanBlockForGood(swaps: seq<Swap>) {
    exists run, i :: RunCan(swaps, Begin(swaps), run) && BlockedForGood(swaps, After(swaps, Begin(swaps), run), i)
  }

  lemma CircleBlocks(swaps: seq<Swap>, ts: seq<nat>)
    requires Circle(swaps, ts)
    ensures CanBlockForGood(swaps)
  {
    var run, us := CircleGetsStuck(swaps, ts);
    RunKeepsInv(swaps, Begin(swaps), run);
    StuckIsForGood(swaps, After(swaps, Begin(swaps), run), us);
  }

  lemma NoCircleNoBlock(swaps: seq<Swap>, run: seq<nat>, i: nat)
    requires (forall ts :: !Circle(swaps, ts)) && RunCan(swaps, Begin(swaps), run)
    ensures !BlockedForGood(swaps, After(swaps, Begin(swaps), run), i)
  {
    var s := After(swaps, Begin(swaps), run);
    RunKeepsInv(swaps, Begin(swaps), run);
    var more := NoCircleAllFinish(swaps, s);
    if BlockedForGood(swaps, s, i) {
      BlockedStays(swaps, s, i, more);
    }
  }

  // Swaps running at the same time can reach a state in which one of them
  // waits for good exactly when some of them move items round in a circle of
  // queues.
  lemma SwapsDeadlockInCircles(swaps: seq<Swap>)
    ensures CanBlockForGood(swaps) <==> exists ts :: Circle(swaps, ts)
  {
    if ts :| Circle(swaps, ts) {
      CircleBlocks(swaps, ts);
    } else {
      forall run, i: nat | RunCan(swaps, Begin(swaps), run)
        ensures !BlockedForGood(swaps, After(swaps, Begin(swaps), run), i)
      {
        NoCircleNoBlock(swaps, run, i);
      }
    }
  }

  // Two threads that swap between the same two queues in opposite directions.
  lemma OppositeSwapsDeadlock(a: nat, b: nat)
    ensures CanBlockForGood([Swap(a, b), Swap(b, a)])
  {
    var swaps, ts := [Swap(a, b), Swap(b, a)], [0, 1];
    assert Joins(swaps, ts, 0) && Joins(swaps, ts, 1);
    assert Circle(swaps, ts);
    CircleBlocks(swaps, ts);
  }
}
