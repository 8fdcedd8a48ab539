// The CSR window as bytes: a write region and the read region that mirrors the
// part of it below the AFUs.
module CsrSpec {
  // AHMPIP_APERTURE_* and the layout of the register window
  const WRITEOFF := 0
  const WRITESIZE := 0x10_0000
  const READOFF := WRITESIZE
  const READSIZE := 0x10_0000
  const APERTURE_SIZE := READSIZE + WRITESIZE
  const AFU_BASE := 0x10000
  const AFU_SIZE := 0x10000
  const SPL_CH_BASE := 0x2000
  const SPL_CH_SIZE := 0x1000
  const REGISTER_SIZE := 0x80

  type Byte = n: nat | n < 0x100
  type Word = n: nat | n < 0x1_0000_0000_0000_0000

  // ----- 64-bit words in memory, low byte first

  function Pow256(n: nat): nat {
    if n == 0 then 1 else 0x100 * Pow256(n - 1)
  }

  function ToBytes(v: nat, n: nat): (s: seq<Byte>)
    ensures |s| == n
  {
    if n == 0 then [] else [v % 0x100] + ToBytes(v / 0x100, n - 1)
  }

  function FromBytes(s: seq<Byte>): nat {
    if s == [] then 0 else s[0] + 0x100 * FromBytes(s[1..])
  }

  lemma {:induction false} BytesRoundTrip(v: nat, n: nat)
    requires v < Pow256(n)
    ensures FromBytes(ToBytes(v, n)) == v
  {
    if n > 0 {
      BytesRoundTrip(v / 0x100, n - 1);
      assert ToBytes(v, n)[1..] == ToBytes(v / 0x100, n - 1);
    }
  }

  lemma WordRoundTrip(v: Word)
    ensures FromBytes(ToBytes(v, 8)) == v
  {
    assert Pow256(8) == 0x1_0000_0000_0000_0000 by {
      assert Pow256(2) == 0x1_0000;
      assert Pow256(4) == 0x1_0000_0000;
      assert Pow256(6) == 0x1_0000_0000_0000;
    }
    BytesRoundTrip(v, 8);
  }

  // The other way: the bytes of what eight bytes read as are those bytes.
  lemma {:induction false} BytesOfWord(s: seq<Byte>)
    ensures ToBytes(FromBytes(s), |s|) == s
  {
    if s != [] {
      BytesOfWord(s[1..]);
      assert FromBytes(s) % 0x100 == s[0] && FromBytes(s) / 0x100 == FromBytes(s[1..]);
    }
  }

  // ----- the registers

  // Where a 64-bit store stays in the buffer, and where a get does. The
  // original checks neither; a store beyond the write region lands in the
  // read region.
  predicate InBuffer(at: nat) {
    at + 8 <= APERTURE_SIZE
  }

  predicate InWindow(off: nat) {
    off + 8 <= READSIZE
  }

  predicate Aligned(at: nat) {
    InBuffer(at) && at % 8 == 0
  }

  function Stored(mem: seq<Byte>, at: nat, val: Word): (after: seq<Byte>)
    requires at + 8 <= |mem|
    ensures |after| == |mem|
  {
    mem[..at] + ToBytes(val, 8) + mem[at + 8..]
  }

  // ahm_csr_set64: below the AFUs the value is copied to the read region, too.
  function Set64(mem: seq<Byte>, off: nat, val: Word): (after: seq<Byte>)
    requires |mem| == APERTURE_SIZE && InBuffer(off)
    ensures |after| == APERTURE_SIZE
  {
    var written := Stored(mem, WRITEOFF + off, val);
    if off < AFU_BASE then Stored(written, READOFF + off, val) else written
  }

  // The 64-bit word in the buffer at at.
  function WordAt(mem: seq<Byte>, at: nat): nat
    requires |mem| == APERTURE_SIZE && InBuffer(at)
  {
    FromBytes(mem[at..at + 8])
  }

  // ahm_csr_get64
  function Get64(mem: seq<Byte>, off: nat): nat
    requires |mem| == APERTURE_SIZE && InWindow(off)
  {
    WordAt(mem, READOFF + off)
  }

  // Offset of the register with index idx: idx << 7 in 64 bits.
  function OffsetOf(idx: nat): nat {
    idx * REGISTER_SIZE % 0x1_0000_0000_0000_0000
  }

  // ----- one set, by byte and by word

  // A set at off writes the byte at k: at off itself, or in the copy.
  predicate Covers(off: nat, k: nat) {
    off <= k < off + 8 || (off < AFU_BASE && READOFF + off <= k < READOFF + off + 8)
  }

  // Which byte of the value it writes there.
  function PlaceIn(off: nat, k: nat): (i: nat)
    requires Covers(off, k)
    ensures i < 8
  {
    if k < off + 8 then k - off else k - READOFF - off
  }

  // A set at off writes the whole word at at, or no byte of it.
  predicate Hits(off: nat, at: nat) {
    off == at || (off < AFU_BASE && READOFF + off == at)
  }

  predicate Whole(off: nat, at: nat) {
    Hits(off, at) || forall k :: at <= k < at + 8 ==> !Covers(off, k)
  }

  lemma ByteAfterSet(mem: seq<Byte>, off: nat, val: Word, k: nat)
    requires |mem| == APERTURE_SIZE && InBuffer(off) && k < APERTURE_SIZE
    ensures Set64(mem, off, val)[k] == if Covers(off, k) then ToBytes(val, 8)[PlaceIn(off, k)] else mem[k]
  {
    hide ToBytes;
  }

  lemma WordAfterSet(mem: seq<Byte>, off: nat, val: Word, at: nat)
    requires |mem| == APERTURE_SIZE && InBuffer(off) && InBuffer(at) && Whole(off, at)
    ensures WordAt(Set64(mem, off, val), at) == if Hits(off, at) then val else WordAt(mem, at)
  {
    hide Set64, ToBytes, FromBytes;
    var after := Set64(mem, off, val);
    WordRoundTrip(val);
    forall k | at <= k < at + 8
      ensures after[k] == if Hits(off, at) then ToBytes(val, 8)[k - at] else mem[k]
    {
      ByteAfterSet(mem, off, val, k);
    }
    assert after[at..at + 8] == if Hits(off, at) then ToBytes(val, 8) else mem[at..at + 8];
  }

  // Aligned sets write whole words only.
  lemma AlignedIsWhole(off: nat, at: nat)
    requires Aligned(off) && Aligned(at)
    ensures Whole(off, at)
  {
  }

  // One set as seen by one get.
  lemma GetAfterSet(mem: seq<Byte>, off: nat, val: Word, b: nat)
    requires |mem| == APERTURE_SIZE && Aligned(off) && Aligned(b) && InWindow(b)
    ensures Get64(Set64(mem, off, val), b) ==
      if (b == off && off < AFU_BASE) || off == READOFF + b then val else Get64(mem, b)
  {
    AlignedIsWhole(off, READOFF + b);
    WordAfterSet(mem, off, val, READOFF + b);
  }

  // ----- runs of sets, by offset or by index

  datatype Op = ByOffset(off: nat, val: Word) | ByIndex(idx: nat, val: Word) {
    function At(): nat {
      if ByOffset? then off else OffsetOf(idx)
    }
  }

  predicate AllInBuffer(ops: seq<Op>) {
    forall op :: op in ops ==> InBuffer(op.At())
  }

  predicate AllAligned(ops: seq<Op>) {
    forall op :: op in ops ==> Aligned(op.At())
  }

  predicate AllWhole(ops: seq<Op>, at: nat) {
    forall op :: op in ops ==> Whole(op.At(), at)
  }

  function AfterSets(mem: seq<Byte>, ops: seq<Op>): (after: seq<Byte>)
    requires |mem| == APERTURE_SIZE && AllInBuffer(ops)
    ensures |after| == APERTURE_SIZE
  {
    if ops == [] then mem
    else
      assert ops[|ops| - 1] in ops;
      Set64(AfterSets(mem, ops[..|ops| - 1]), ops[|ops| - 1].At(), ops[|ops| - 1].val)
  }

  // The j-th set is the last one that writes the byte at k.
  predicate LastCover(ops: seq<Op>, j: nat, k: nat) {
    j < |ops| && Covers(ops[j].At(), k) && forall i :: j < i < |ops| ==> !Covers(ops[i].At(), k)
  }

  predicate Uncovered(ops: seq<Op>, k: nat) {
    forall op :: op in ops ==> !Covers(op.At(), k)
  }

  // After any run of sets at any offsets, overlapping or not, each byte is that
  // of the last set that writes it, or what it was.
  lemma {:induction false} BytesAfterSets(mem: seq<Byte>, ops: seq<Op>, k: nat)
    requires |mem| == APERTURE_SIZE && AllInBuffer(ops) && k < APERTURE_SIZE
    ensures forall j: nat :: LastCover(ops, j, k) ==>
      AfterSets(mem, ops)[k] == ToBytes(ops[j].val, 8)[PlaceIn(ops[j].At(), k)]
    ensures Uncovered(ops, k) ==> AfterSets(mem, ops)[k] == mem[k]
    ensures Uncovered(ops, k) || exists j: nat :: LastCover(ops, j, k)
  {
    hide Set64, ToBytes, Covers, PlaceIn, InBuffer;
    if ops != [] {
      var n := |ops| - 1;
      var last, before := ops[n], ops[..n];
      assert ops == before + [last] && last in ops;
      BytesAfterSets(mem, before, k);
      ByteAfterSet(AfterSets(mem, before), last.At(), last.val, k);
      if Covers(last.At(), k) {
        assert LastCover(ops, n, k);
      } else {
        assert forall j: nat :: LastCover(ops, j, k) ==> LastCover(before, j, k);
        if j: nat :| LastCover(before, j, k) {
          assert LastCover(ops, j, k);
        }
      }
    }
  }

  // So does each byte of what a get at any offset returns.
  lemma GetsLastBytes(mem: seq<Byte>, ops: seq<Op>, off: nat, i: nat)
    requires |mem| == APERTURE_SIZE && AllInBuffer(ops) && InWindow(off) && i < 8
    ensures var byte, k := ToBytes(Get64(AfterSets(mem, ops), off), 8)[i], READOFF + off + i;
      (forall j: nat :: LastCover(ops, j, k) ==> byte == ToBytes(ops[j].val, 8)[PlaceIn(ops[j].At(), k)])
      && (Uncovered(ops, k) ==> byte == mem[k])
  {
    hide ToBytes, FromBytes, AfterSets, Covers, PlaceIn;
    var after := AfterSets(mem, ops);
    BytesOfWord(after[READOFF + off..READOFF + off + 8]);
    BytesAfterSets(mem, ops, READOFF + off + i);
  }

  // Where things are: one megabyte is written, the next one read. A set writes
  // the bytes at its offset, and below 64 kilobytes those a megabyte on, too; a
  // get reads a megabyte on; an index counts registers of 128 bytes.
  lemma LayoutIs(mem: seq<Byte>, off: nat, val: Word, k: nat)
    requires |mem| == 0x20_0000 && off + 8 <= 0x20_0000 && k < 0x20_0000
    ensures Set64(mem, off, val)[k] ==
      if off <= k < off + 8 then ToBytes(val, 8)[k - off]
      else if off < 0x1_0000 && off + 0x10_0000 <= k < off + 0x10_0008 then ToBytes(val, 8)[k - off - 0x10_0000]
      else mem[k]
    ensures off + 8 <= 0x10_0000 ==> Get64(mem, off) == FromBytes(mem[off + 0x10_0000..off + 0x10_0008])
    ensures off < 0x200_0000_0000_0000 ==> OffsetOf(off) == 128 * off
  {
    hide ToBytes, FromBytes;
    ByteAfterSet(mem, off, val, k);
  }

  // Bytes have eight bits, the low one of a value first.
  lemma LowByteFirst(v: nat, n: nat)
    requires n > 0
    ensures ToBytes(v, n)[0] == v % 256 && ToBytes(v, n)[1..] == ToBytes(v / 256, n - 1)
  {
  }

  // The value of the last set that hits the word at at, or was.
  function LastSet(ops: seq<Op>, at: nat, was: nat): nat {
    if ops == [] then was
    else if Hits(ops[|ops| - 1].At(), at) then ops[|ops| - 1].val
    else LastSet(ops[..|ops| - 1], at, was)
  }

  // After any run of sets that write the word at at wholly or not at all, it
  // is the last value set there.
  lemma {:induction false} WordAfterSets(mem: seq<Byte>, ops: seq<Op>, at: nat)
    requires |mem| == APERTURE_SIZE && AllInBuffer(ops) && InBuffer(at) && AllWhole(ops, at)
    ensures WordAt(AfterSets(mem, ops), at) == LastSet(ops, at, WordAt(mem, at))
  {
    hide WordAt, Set64, Whole, Hits, InBuffer;
    if ops != [] {
      var last, before := ops[|ops| - 1], ops[..|ops| - 1];
      assert last in ops && forall op :: op in before ==> op in ops;
      WordAfterSets(mem, before, at);
      WordAfterSet(AfterSets(mem, before), last.At(), last.val, at);
    }
  }

  predicate WithinWrites(ops: seq<Op>) {
    forall op :: op in ops ==> op.At() < WRITESIZE
  }

  // For aligned sets in the write region: a get below the AFUs returns the last
  // value set there, and one at or above them what was there before the run.
  lemma {:induction false} GetsLastSet(mem: seq<Byte>, ops: seq<Op>, off: nat)
    requires |mem| == APERTURE_SIZE && AllAligned(ops) && WithinWrites(ops) && Aligned(off) && InWindow(off)
    ensures Get64(AfterSets(mem, ops), off) ==
      if off < 0x1_0000 then LastSet(ops, off, Get64(mem, off)) else Get64(mem, off)
    ensures WordAt(AfterSets(mem, ops), off) == LastSet(ops, off, WordAt(mem, off))
  {
    hide WordAt, AfterSets;
    forall op | op in ops
      ensures Whole(op.At(), off) && Whole(op.At(), READOFF + off)
    {
      AlignedIsWhole(op.At(), off);
      AlignedIsWhole(op.At(), READOFF + off);
    }
    WordAfterSets(mem, ops, off);
    WordAfterSets(mem, ops, READOFF + off);
    CopySeesWrite(ops, off, WordAt(mem, READOFF + off));
  }

  lemma {:induction false} CopySeesWrite(ops: seq<Op>, off: nat, was: nat)
    requires WithinWrites(ops) && InWindow(off)
    ensures LastSet(ops, READOFF + off, was) == if off < AFU_BASE then LastSet(ops, off, was) else was
  {
    if ops != [] {
      var last, before := ops[|ops| - 1], ops[..|ops| - 1];
      assert last in ops && forall op :: op in before ==> op in ops;
      CopySeesWrite(before, off, was);
    }
  }

  // The write region ends where the read region begins: a set beyond it is got
  // back at the offset less READOFF, AFU registers included.
  lemma SetBeyondIsGot(mem: seq<Byte>, off: nat, val: Word)
    requires |mem| == APERTURE_SIZE && READOFF <= off && InBuffer(off)
    ensures Get64(Set64(mem, off, val), off - READOFF) == val
  {
    hide WordAt, Set64;
    WordAfterSet(mem, off, val, off);
  }

  function Zeroes(n: nat): (s: seq<Byte>)
    ensures |s| == n && forall i :: 0 <= i < n ==> s[i] == 0
  {
    seq(n, _ => 0)
  }

  lemma {:induction false} ZeroBytes(s: seq<Byte>)
    requires forall b :: b in s ==> b == 0
    ensures FromBytes(s) == 0
  {
    if s != [] {
      assert s[0] in s && forall b :: b in s[1..] ==> b in s;
      ZeroBytes(s[1..]);
    }
  }

  // From a new aperture: 0 where nothing was ever set.
  lemma NewGetsLastSet(ops: seq<Op>, off: nat)
    requires AllAligned(ops) && WithinWrites(ops) && Aligned(off) && InWindow(off)
    ensures Get64(AfterSets(Zeroes(APERTURE_SIZE), ops), off) == if off < AFU_BASE then LastSet(ops, off, 0) else 0
  {
    var mem := Zeroes(APERTURE_SIZE);
    ZeroBytes(mem[READOFF + off..READOFF + off + 8]);
    GetsLastSet(mem, ops, off);
  }

  // ----- addresses of the channel and AFU registers

  // AHMPIP_SPL_CHn_BASE, and the register of a channel at slot r; AHMPIP_AFUn_CSR.
  function ChannelRegister(n: nat, r: nat): nat {
    SPL_CH_BASE + n * SPL_CH_SIZE + r * REGISTER_SIZE
  }

  function AfuRegister(n: nat, offset: nat): nat {
    AFU_BASE + n * AFU_SIZE + offset
  }

  predicate IsChannelSlot(r: nat) {
    r < 32
  }

  // The registers of distinct channels, and distinct ones of one channel, never
  // share a byte. There is room for fourteen channels below the AFUs, so gets see
  // what is set in the four there are.
  lemma ChannelsDoNotAlias(n: nat, r: nat, m: nat, q: nat)
    requires n < 14 && m < 14 && IsChannelSlot(r) && IsChannelSlot(q)
    ensures Aligned(ChannelRegister(n, r)) && ChannelRegister(n, r) + REGISTER_SIZE <= AFU_BASE
    ensures n == m && r == q <==> ChannelRegister(n, r) == ChannelRegister(m, q)
    ensures n != m || r != q ==>
      || ChannelRegister(n, r) + 0x80 <= ChannelRegister(m, q)
      || ChannelRegister(m, q) + 0x80 <= ChannelRegister(n, r)
    ensures ChannelRegister(n, r) == 0x2000 + 0x1000 * n + 0x80 * r
    ensures ChannelRegister(n, r) == OffsetOf((SPL_CH_BASE + n * SPL_CH_SIZE) / REGISTER_SIZE + r)
  {
  }

  lemma AfusDoNotAlias(n: nat, a: nat, m: nat, b: nat)
    requires a < AFU_SIZE && b < AFU_SIZE
    ensures AfuRegister(n, a) == 0x1_0000 + 0x1_0000 * n + a && AfuRegister(n, a) >= AFU_BASE
    ensures AfuRegister(n, a) == AfuRegister(m, b) <==> n == m && a == b
  {
  }

  // Setting a register of one channel changes what is got from no other.
  lemma SetOnlyOneChannel(mem: seq<Byte>, n: nat, r: nat, val: Word, m: nat, q: nat)
    requires |mem| == APERTURE_SIZE
    requires n < 14 && m < 14 && IsChannelSlot(r) && IsChannelSlot(q)
    ensures InWindow(ChannelRegister(n, r)) && InWindow(ChannelRegister(m, q))
    ensures Get64(Set64(mem, ChannelRegister(n, r), val), ChannelRegister(m, q)) ==
      if n == m && r == q then val else Get64(mem, ChannelRegister(m, q))
  {
    hide Set64, Get64, ChannelRegister;
    ChannelsDoNotAlias(n, r, m, q);
    ChannelsDoNotAlias(m, q, n, r);
    GetAfterSet(mem, ChannelRegister(n, r), val, ChannelRegister(m, q));
  }
}
