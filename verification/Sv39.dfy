/** Addresses and page-table entries in the Sv39 format of section 4.4 of the RISC-V Privileged
    Architecture, as the macros of `riscv.h` take them apart.

    The macros shift and mask non-negative 64-bit numbers: a right shift is a division by a power
    of two, masking the low bits is a remainder, and `|` of numbers without a common bit is `+`. */
module Sv39 {
  const PGSIZE := 4096
  const MAXVA := 0x40_0000_0000

  function PgRoundUp(sz: nat): nat {
    (sz + PGSIZE - 1) / PGSIZE * PGSIZE
  }

  function PgRoundDown(a: nat): nat {
    a / PGSIZE * PGSIZE
  }

  /** The index into the page-table page of a level. */
  function Px(level: nat, va: nat): nat
    requires level <= 2
  {
    va / (if level == 0 then 4096 else if level == 1 then 2097152 else 1073741824) % 512
  }

  datatype Flags = Flags(v: bool, r: bool, w: bool, x: bool, u: bool)

  datatype Pte = Pte(frame: int, flags: Flags)

  const NOFLAGS := Flags(false, false, false, false, false)
  const ZERO := Pte(0, NOFLAGS)

  /** An entry that points to a page-table page of the next level. */
  function Branch(frame: int): Pte {
    Pte(frame, Flags(true, false, false, false, false))
  }

  /** The test that tells a leaf from a branch. */
  predicate IsLeaf(pte: Pte) {
    pte.flags.v && (pte.flags.r || pte.flags.w || pte.flags.x)
  }

  function Bit(b: bool): nat {
    if b then 1 else 0
  }

  function Bits(f: Flags): nat {
    Bit(f.v) + 2 * Bit(f.r) + 4 * Bit(f.w) + 8 * Bit(f.x) + 16 * Bit(f.u)
  }

  /** `PA2PTE(pa) | flags` for the page frame `pa / PGSIZE`. */
  function Encode(pte: Pte): nat
    requires 0 <= pte.frame
  {
    pte.frame * PGSIZE / 4096 * 1024 + Bits(pte.flags)
  }

  /** `PTE2PA`. */
  function Pte2Pa(bits: nat): nat {
    bits / 1024 * 4096
  }

  /** `PTE_FLAGS`. */
  function PteFlags(bits: nat): nat {
    bits % 1024
  }

  /** The test of one flag, the one with value `bit`. */
  predicate Has(bits: nat, bit: nat)
    requires bit > 0
  {
    bits / bit % 2 == 1
  }

  lemma FlagBits(f: Flags)
    ensures Bits(f) < 32 && Bits(f) % 2 == Bit(f.v) && Bits(f) / 2 % 2 == Bit(f.r) && Bits(f) / 4 % 2 == Bit(f.w)
    ensures Bits(f) / 8 % 2 == Bit(f.x) && Bits(f) / 16 % 2 == Bit(f.u)
  {
  }

  /** Bits above the flags do not disturb the test of a flag. */
  lemma HighBits(frame: nat, low: nat)
    ensures var n := frame * 1024 + low;
            && n / 1 % 2 == low / 1 % 2 && n / 2 % 2 == low / 2 % 2 && n / 4 % 2 == low / 4 % 2
            && n / 8 % 2 == low / 8 % 2 && n / 16 % 2 == low / 16 % 2
  {
    Halves(frame * 512, low);
    Halves(frame * 256, low / 2);
    Halves(frame * 128, low / 4);
    Halves(frame * 64, low / 8);
    Halves(frame * 32, low / 16);
    Quotients(frame, low);
  }

  lemma Halves(h: nat, low: nat)
    ensures (2 * h + low) % 2 == low % 2
  {
  }

  lemma Quotients(frame: nat, low: nat)
    ensures var n := frame * 1024 + low;
            && n / 2 == 2 * (frame * 256) + low / 2 && n / 4 == 2 * (frame * 128) + low / 4
            && n / 8 == 2 * (frame * 64) + low / 8 && n / 16 == 2 * (frame * 32) + low / 16
  {
  }

  lemma Fields(frame: nat, low: nat)
    requires low < 1024
    ensures (frame * 1024 + low) / 1024 == frame && (frame * 1024 + low) % 1024 == low
  {
  }

  /** The physical address and each of the flags come back out of an entry. */
  lemma PteRoundTrip(pte: Pte)
    requires 0 <= pte.frame
    ensures Pte2Pa(Encode(pte)) == pte.frame * PGSIZE && PteFlags(Encode(pte)) == Bits(pte.flags)
    ensures Has(Encode(pte), 1) == pte.flags.v && Has(Encode(pte), 2) == pte.flags.r
            && Has(Encode(pte), 4) == pte.flags.w
    ensures Has(Encode(pte), 8) == pte.flags.x && Has(Encode(pte), 16) == pte.flags.u
  {
    var low := Bits(pte.flags);
    FlagBits(pte.flags);
    assert Encode(pte) == pte.frame * 1024 + low;
    HighBits(pte.frame, low);
    Fields(pte.frame, low);
  }

  lemma Megabytes(va: nat)
    ensures va / 2097152 == va / 4096 / 512 && va / 1073741824 == va / 4096 / 512 / 512
  {
    var p := va / 4096;
    var q := p / 512;
    var r := q / 512;
    assert va == q * 2097152 + (p % 512 * 4096 + va % 4096);
    assert va == r * 1073741824 + (q % 512 * 2097152 + p % 512 * 4096 + va % 4096);
  }

  /** The three indices and the offset are the digits of the address. */
  lemma AddressDigits(va: nat)
    requires va < MAXVA
    ensures Px(2, va) < 256 && Px(1, va) < 512 && Px(0, va) < 512
    ensures va == ((Px(2, va) * 512 + Px(1, va)) * 512 + Px(0, va)) * PGSIZE + va % PGSIZE
    ensures Px(0, va) == va / PGSIZE % 512
    ensures Px(1, va) == va / PGSIZE / 512 % 512
    ensures Px(2, va) == va / PGSIZE / 512 / 512
  {
    Megabytes(va);
    assert va / 4096 / 512 / 512 < 256;
  }
}
