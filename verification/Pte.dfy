/** Sv39/48/57 page-table entries as raw words, and the page geometry of a radix table. */
module Pte {

  const ENTRIES: nat := 512

  /** Exclusive bound of the physical page numbers an entry can encode. */
  const MAX_PPN: nat := 0x1000_0000_0000

  type Raw = nat

  const INVALID: Raw := 0

  /** Bit 0 is V, bits 1 to 3 are R, W and X. */
  predicate IsValid(x: Raw) { x % 2 == 1 }

  predicate IsLeaf(x: Raw) { IsValid(x) && (x / 2) % 8 != 0 }

  predicate IsBranch(x: Raw) { IsValid(x) && (x / 2) % 8 == 0 }

  function PpnOf(x: Raw): nat { x / 1024 }

  function NextFrame(x: Raw): nat { x / 1024 }

  function FlagsOf(x: Raw): nat { x % 1024 }

  /** The flags Map and Protect admit: V, some of R/W/X, and no W without R. */
  predicate ValidLeafFlags(f: nat) {
    && f < 1024
    && f % 2 == 1
    && (f / 2) % 8 != 0
    && ((f / 4) % 2 == 1 ==> (f / 2) % 2 == 1)
  }

  function LeafRaw(ppn: nat, flags: nat): (x: Raw)
    ensures PpnOf(x) == ppn && FlagsOf(x) == flags % 1024
    ensures ValidLeafFlags(flags) ==> IsLeaf(x) && FlagsOf(x) == flags
  {
    LowBits(ppn, flags % 1024);
    ppn * 1024 + flags % 1024
  }

  function BranchRaw(frame: nat): (x: Raw)
    ensures IsBranch(x) && NextFrame(x) == frame
  {
    LowBits(frame, 1);
    frame * 1024 + 1
  }

  /** The ten low bits of a word do not meet the page number above them. */
  lemma LowBits(n: nat, f: nat)
    requires f < 1024
    ensures (n * 1024 + f) / 1024 == n && (n * 1024 + f) % 1024 == f
    ensures (n * 1024 + f) % 2 == f % 2 && ((n * 1024 + f) / 2) % 8 == (f / 2) % 8
  {
    TenBits(n, f);
    LowBit(n * 512, f);
    assert n * 1024 + f == 2 * (n * 512) + f;
    ThreeBits(n * 64, f / 2);
    assert n * 512 + f / 2 == 8 * (n * 64) + f / 2;
  }

  lemma TenBits(n: nat, f: nat)
    requires f < 1024
    ensures (n * 1024 + f) / 1024 == n && (n * 1024 + f) % 1024 == f
  {}

  lemma LowBit(n: nat, f: nat)
    ensures (2 * n + f) % 2 == f % 2 && (2 * n + f) / 2 == n + f / 2
  {}

  lemma ThreeBits(n: nat, f: nat)
    ensures (8 * n + f) % 8 == f % 8
  {}

  /** Pages covered by one slot of a table at `level`. */
  function Pages(level: nat): (p: nat)
    ensures p >= 1
  {
    if level == 0 then 1 else 512 * Pages(level - 1)
  }

  /** First page of slot `i` of a table whose slots cover `p` pages and whose first page is `base`. */
  function SlotBase(base: nat, p: nat, i: nat): (b: nat) { base + i * p }

  /** The slot a page falls into. */
  function SlotOf(base: nat, p: nat, vpn: nat): (i: nat)
    requires p > 0 && base <= vpn
  {
    (vpn - base) / p
  }

  /** `SlotOf` is the only slot holding the page. */
  lemma SlotUnique(base: nat, p: nat, vpn: nat, i: nat)
    requires p > 0 && base <= vpn
    ensures SlotBase(base, p, i) <= vpn < SlotBase(base, p, i) + p <==> SlotOf(base, p, vpn) == i
  {
    var off := vpn - base;
    DivBounds(off, p);
    var q := off / p;
    if q < i {
      MulMono(q, i, p);
    } else if i < q {
      MulMono(i, q, p);
    }
  }

  lemma SlotInTable(base: nat, p: nat, vpn: nat)
    requires p > 0 && base <= vpn < base + 512 * p
    ensures SlotOf(base, p, vpn) < ENTRIES
    ensures SlotBase(base, p, SlotOf(base, p, vpn)) <= vpn < SlotBase(base, p, SlotOf(base, p, vpn)) + p
  {
    SlotUnique(base, p, vpn, SlotOf(base, p, vpn));
    if SlotOf(base, p, vpn) >= ENTRIES {
      MulMono(ENTRIES - 1, SlotOf(base, p, vpn), p);
    }
  }

  lemma DivBounds(x: nat, p: nat)
    requires p > 0
    ensures (x / p) * p <= x < (x / p) * p + p
  {
    assert x == (x / p) * p + x % p;
  }

  lemma MulMono(i: nat, j: nat, p: nat)
    requires i < j
    ensures i * p + p <= j * p
  {
    assert j * p == (i + 1) * p + (j - i - 1) * p;
  }
}
