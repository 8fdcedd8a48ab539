// The CSR aperture of ahmpip.h as a buffer in memory.
module CsrAperture {
  import opened CsrSpec

  // What __get_free_pages gave out: the address and the bytes there.
  class Aperture {
    const base: nat
    const mem: array<Byte>

    constructor (base: nat, mem: array<Byte>)
      ensures this.base == base && this.mem == mem
    {
      this.base, this.mem := base, mem;
    }

    ghost predicate Valid() {
      mem.Length == APERTURE_SIZE && base % APERTURE_SIZE == 0
    }

    // One 64-bit store at at.
    method Store(at: nat, val: Word)
      requires at + 8 <= mem.Length
      modifies mem
      ensures mem[..] == Stored(old(mem[..]), at, val)
    {
      hide ToBytes;
      var bytes := ToBytes(val, 8);
      forall i | 0 <= i < 8 {
        mem[at + i] := bytes[i];
      }
    }

    // ahm_csr_set64
    method Set(off: nat, val: Word)
      requires Valid() && InBuffer(off)
      modifies mem
      ensures mem[..] == Set64(old(mem[..]), off, val)
    {
      hide Stored;
      Store(WRITEOFF + off, val);
      if off < AFU_BASE {
        Store(READOFF + off, val);
      }
    }

    // ahm_csr_set64_idx
    method SetIdx(idx: nat, val: Word)
      requires Valid() && InBuffer(OffsetOf(idx))
      modifies mem
      ensures mem[..] == Set64(old(mem[..]), OffsetOf(idx), val)
    {
      hide Stored;
      Store(WRITEOFF + OffsetOf(idx), val);
      if OffsetOf(idx) < AFU_BASE {
        Store(READOFF + OffsetOf(idx), val);
      }
    }

    // ahm_csr_get64
    method Get(off: nat) returns (val: nat)
      requires Valid() && InWindow(off)
      ensures val == Get64(mem[..], off)
    {
      assert mem[READOFF + off..READOFF + off + 8] == mem[..][READOFF + off..READOFF + off + 8];
      val := FromBytes(mem[READOFF + off..READOFF + off + 8]);
    }

    // ahm_csr_get64_idx
    method GetIdx(idx: nat) returns (val: nat)
      requires Valid() && InWindow(OffsetOf(idx))
      ensures val == Get64(mem[..], OffsetOf(idx))
    {
      val := Get(OffsetOf(idx));
    }
  }

  // ahm_alloc_aperture: pages that do not start at a multiple of the aperture
  // size are given back; the others are cleared byte by byte.
  method AllocAperture(pages: array?<Byte>, base: nat) returns (aperture: Aperture?)
    requires pages != null ==> pages.Length == APERTURE_SIZE
    modifies pages
    ensures aperture == null <==> pages == null || base % APERTURE_SIZE != 0
    ensures aperture != null ==>
      fresh(aperture) && aperture.Valid() && aperture.base == base && aperture.mem == pages
      && aperture.mem[..] == Zeroes(APERTURE_SIZE)
  {
    if pages == null || base % APERTURE_SIZE != 0 {
      return null;
    }
    var i := 0;
    while i < APERTURE_SIZE
      invariant 0 <= i <= APERTURE_SIZE
      invariant forall j :: 0 <= j < i ==> pages[j] == 0
    {
      pages[i] := 0;
      i := i + 1;
    }
    aperture := new Aperture(base, pages);
  }
}
