// The descriptor ring of ahmpip.h: moving round a buffer of cache lines.
module DescRing {
  // AHMPIP_AHM_CL_SIZE and AHMPIP_AHM_DESCRIPTOR_SIZE
  const CL_SIZE := 64
  const SLOTS := 1024
  const DESCRIPTOR_SIZE := SLOTS * CL_SIZE

  // ahmpip_desc_forward
  function DescForward(base: int, ptr: int, n: int): int {
    if ptr + n * CL_SIZE < base + DESCRIPTOR_SIZE then ptr + n * CL_SIZE
    else ptr + n * CL_SIZE - DESCRIPTOR_SIZE
  }

  // The remainder of C, which takes the sign of x.
  function Rem(x: int, b: int): int
    requires b > 0
  {
    if x >= 0 then x % b else -((-x) % b)
  }

  // RING_FLEN, RING_FWD and RING_BWD
  function RingFlen(x: int, y: int, b: int): int {
    if x > y then b + y - x else y - x
  }

  function RingFwd(x: int, s: int, b: int): int
    requires b > 0
  {
    Rem(x + s, b)
  }

  function RingBwd(x: int, s: int, b: int): int
    requires b > 0
  {
    RingFwd(x, b - s, b)
  }

  // ptr is the start of a cache line of the buffer, and the index of the line.
  predicate AtLine(base: int, ptr: int) {
    base <= ptr < base + DESCRIPTOR_SIZE && (ptr - base) % CL_SIZE == 0
  }

  function Slot(base: int, ptr: int): int {
    (ptr - base) / CL_SIZE
  }

  function Line(base: int, slot: int): int {
    base + slot * CL_SIZE
  }

  lemma LineOfSlot(base: int, ptr: int)
    requires AtLine(base, ptr)
    ensures 0 <= Slot(base, ptr) < SLOTS && Line(base, Slot(base, ptr)) == ptr
  {
  }

  lemma ForwardOfLine(base: int, slot: int, n: int)
    requires 0 <= slot < SLOTS
    ensures DescForward(base, Line(base, slot), n) == Line(base, if slot + n < SLOTS then slot + n else slot + n - SLOTS)
  {
  }

  // A step forward stays in the buffer exactly when it goes round at most
  // once, and then it is a step of the ring on slot indices.
  lemma ForwardIsRing(base: int, ptr: int, n: int)
    requires AtLine(base, ptr)
    ensures AtLine(base, DescForward(base, ptr, n)) <==> 0 <= Slot(base, ptr) + n < 2048
    ensures AtLine(base, DescForward(base, ptr, n)) ==>
      Slot(base, DescForward(base, ptr, n)) == RingFwd(Slot(base, ptr), n, 1024)
    ensures Slot(base, ptr) == (ptr - base) / 64 && base <= ptr < base + 0x1_0000
  {
  }

  // What callers ask for: up to one whole round.
  lemma ForwardStaysIn(base: int, ptr: int, n: int)
    requires AtLine(base, ptr) && 0 <= n <= SLOTS
    ensures AtLine(base, DescForward(base, ptr, n))
    ensures Slot(base, DescForward(base, ptr, n)) == RingFwd(Slot(base, ptr), n, SLOTS)
  {
    LineOfSlot(base, ptr);
    ForwardIsRing(base, ptr, n);
  }

  // ----- many steps

  function Steps(base: int, ptr: int, k: nat): int {
    if k == 0 then ptr else DescForward(base, Steps(base, ptr, k - 1), 1)
  }

  lemma NoStep(base: int, ptr: int)
    requires AtLine(base, ptr)
    ensures DescForward(base, ptr, 0) == ptr
  {
  }

  // k single steps are one step of k modulo the number of slots.
  lemma {:induction false} StepsAreOne(base: int, ptr: int, k: nat)
    requires AtLine(base, ptr)
    ensures AtLine(base, Steps(base, ptr, k))
    ensures Steps(base, ptr, k) == DescForward(base, ptr, k % SLOTS)
  {
    hide DescForward, AtLine, Slot;
    ForwardStaysIn(base, ptr, k % SLOTS);
    NoStep(base, ptr);
    if k > 0 {
      StepsAreOne(base, ptr, k - 1);
      LineOfSlot(base, ptr);
      var slot, j := Slot(base, ptr), (k - 1) % SLOTS;
      ForwardOfLine(base, slot, j);
      ForwardOfLine(base, if slot + j < SLOTS then slot + j else slot + j - SLOTS, 1);
      ForwardOfLine(base, slot, k % SLOTS);
      assert k % SLOTS == if j + 1 < SLOTS then j + 1 else 0;
    }
  }

  // ----- the ring macros, for any ring size

  lemma RemOnce(x: int, b: int)
    requires b > 0 && 0 <= x < 2 * b
    ensures Rem(x, b) == if x < b then x else x - b
  {
  }

  // Going back undoes going forward, and the other way round.
  lemma BackwardUndoesForward(x: int, s: int, b: int)
    requires b > 0 && 0 <= x < b && 0 <= s <= b
    ensures 0 <= RingFwd(x, s, b) < b
    ensures RingBwd(RingFwd(x, s, b), s, b) == x && RingFwd(RingBwd(x, s, b), s, b) == x
  {
    RemOnce(x + s, b);
    RemOnce(RingFwd(x, s, b) + (b - s), b);
    RemOnce(x + (b - s), b);
    RemOnce(RingBwd(x, s, b) + s, b);
  }

  // Going back leaves the ring, to a negative index, exactly when it goes beyond
  // a whole round past the start and not by whole rounds.
  lemma BackwardInRing(x: int, s: int, b: int)
    requires b > 0 && 0 <= x < b && s >= 0
    ensures -b < RingBwd(x, s, b) < b
    ensures 0 <= RingBwd(x, s, b) <==> s <= x + b || (s - x - b) % b == 0
  {
  }

  // The forward length from x to y is the step that leads from x to y, the
  // one there is below the ring size.
  lemma LengthIsTheStep(x: int, y: int, s: int, b: int)
    requires b > 0 && 0 <= x < b && 0 <= y < b && 0 <= s < b
    ensures RingFwd(x, s, b) == y <==> RingFlen(x, y, b) == s
  {
    RemOnce(x + s, b);
  }
}
