/** The software TLB of cputlb.c: page-sized entries, a victim table, and one region that covers all large pages. */
module Tlb {
  type Addr = bv64

  const ALL: Addr := 0xFFFFFFFFFFFFFFFF
  const TARGET_PAGE_SIZE: Addr := 0x1000
  const TARGET_PAGE_MASK: Addr := 0xFFFFFFFFFFFFF000
  const TLB_INVALID_MASK: Addr := 0x8
  const CPU_TLB_SIZE: nat := 256
  const CPU_VTLB_SIZE: nat := 8

  /** An entry; vaddr and size are those of the mapping it was made for. */
  datatype Entry = Entry(read: Addr, write: Addr, code: Addr, vaddr: Addr, size: Addr)

  const EMPTY: Entry := Entry(0xFFFFFFFFFFFFFFFF, 0xFFFFFFFFFFFFFFFF, 0xFFFFFFFFFFFFFFFF, 0, 0)

  predicate Live(e: Entry) {
    e.read != ALL || e.write != ALL || e.code != ALL
  }

  function SizeMask(size: Addr): Addr {
    !(size - 1)
  }

  /** A size that is a power of two, at least a page. */
  predicate GoodSize(size: Addr) {
    size >= TARGET_PAGE_SIZE && size & (size - 1) == 0
  }

  /** x lies in the size-aligned block of the mapping. */
  predicate InBlock(x: Addr, vaddr: Addr, size: Addr) {
    Same(x, vaddr, SizeMask(size))
  }

  /** The slot of the main table for an address. */
  function Index(v: Addr): (i: nat)
    ensures i < CPU_TLB_SIZE
  {
    ((v >> 12) & 0xFF) as nat
  }

  // ----- masks -----

  /** Ones followed by zeros. */
  predicate IsMask(m: Addr) {
    !m & (!m + 1) == 0
  }

  lemma MaskAnd(a: Addr, b: Addr)
    requires IsMask(a) && IsMask(b)
    ensures IsMask(a & b)
  {
  }

  /** Mask a is inside mask b. */
  predicate Inside(a: Addr, b: Addr) {
    a & b == a
  }

  function Masked(x: Addr, m: Addr): Addr {
    x & m
  }

  /** x and y agree under mask m. */
  predicate Same(x: Addr, y: Addr, m: Addr) {
    Masked(x, m) == Masked(y, m)
  }

  predicate Differ(x: Addr, y: Addr, m: Addr) {
    (x ^ y) & m != 0
  }

  function Wider(m: Addr): Addr {
    m << 1
  }

  lemma MaskShift(a: Addr)
    requires IsMask(a) && a != 0
    ensures IsMask(Wider(a)) && Wider(a) < a && Inside(Wider(a), a)
  {
  }

  lemma MaskTrans(a: Addr, b: Addr, c: Addr)
    requires Inside(a, b) && Inside(b, c)
    ensures Inside(a, c)
  {
  }

  lemma SizeIsMask(size: Addr)
    requires GoodSize(size)
    ensures IsMask(SizeMask(size))
  {
  }

  lemma DifferMeans(x: Addr, y: Addr, m: Addr)
    ensures Differ(x, y, m) ==> m != 0
  {
  }

  lemma XorSame(x: Addr, y: Addr, m: Addr)
    requires !Differ(x, y, m)
    ensures Same(x, y, m)
  {
  }

  lemma InsideItself(m: Addr)
    ensures Inside(m, m)
  {
  }

  /** Two addresses that agree under a mask agree under any mask inside it. */
  lemma Agree(x: Addr, y: Addr, m: Addr, m': Addr)
    requires Same(x, y, m) && Inside(m', m)
    ensures Same(x, y, m')
  {
  }

  lemma MaskTwice(x: Addr, m: Addr, m': Addr)
    requires Inside(m', m)
    ensures Masked(Masked(x, m), m') == Masked(x, m')
  {
  }

  /** The loop of 'tlb_add_large_page': widens the mask until both addresses are in the same block; it ends because a
      mask that is shifted left gets smaller. */
  method Widened(flushAddr: Addr, vaddr: Addr, start: Addr) returns (mask: Addr)
    requires IsMask(start)
    ensures IsMask(mask) && Inside(mask, start) && Same(flushAddr, vaddr, mask)
  {
    hide IsMask, Inside, Same, Differ, Wider;
    mask := start;
    InsideItself(start);
    while Differ(flushAddr, vaddr, mask)
      invariant IsMask(mask) && Inside(mask, start)
      decreases mask
    {
      DifferMeans(flushAddr, vaddr, mask);
      MaskShift(mask);
      MaskTrans(Wider(mask), mask, start);
      mask := Wider(mask);
    }
    XorSame(flushAddr, vaddr, mask);
  }

  // ----- entries -----

  /** The page address in a field, with the flag that makes it invalid. */
  function PageOf(f: Addr): Addr {
    f & (TARGET_PAGE_MASK | TLB_INVALID_MASK)
  }

  /** A field that is unset, or holds the page address with flags other than TLB_INVALID_MASK. */
  predicate FieldOk(f: Addr, vaddr: Addr) {
    f == ALL || PageOf(f) == vaddr
  }

  predicate EntryOk(e: Entry) {
    Live(e) ==>
      && Masked(e.vaddr, TARGET_PAGE_MASK) == e.vaddr && GoodSize(e.size)
      && FieldOk(e.read, e.vaddr) && FieldOk(e.write, e.vaddr) && FieldOk(e.code, e.vaddr)
  }

  /** Large pages lie in the flush region. */
  predicate Covered(e: Entry, flushAddr: Addr, flushMask: Addr) {
    Live(e) && e.size != TARGET_PAGE_SIZE ==>
      flushAddr != ALL && Masked(e.vaddr, flushMask) == flushAddr && Inside(flushMask, SizeMask(e.size))
  }

  /** The condition of 'tlb_flush_entry'. */
  predicate Matches(e: Entry, addr: Addr) {
    addr == PageOf(e.read) || addr == PageOf(e.write) || addr == PageOf(e.code)
  }

  function Flushed(e: Entry, addr: Addr): Entry {
    if Matches(e, addr) then EMPTY else e
  }

  /** The page of x is flushed: no entry is left for a mapping whose block holds x, if x is not in the flush region. */
  lemma FlushedIsGone(e: Entry, x: Addr, flushAddr: Addr, flushMask: Addr)
    requires EntryOk(e) && Covered(e, flushAddr, flushMask) && Masked(x, flushMask) != flushAddr
    ensures var f := Flushed(e, Masked(x, TARGET_PAGE_MASK)); Live(f) ==> !InBlock(x, f.vaddr, f.size)
  {
    if Live(e) {
      if e.size != TARGET_PAGE_SIZE {
        if InBlock(x, e.vaddr, e.size) { Agree(x, e.vaddr, SizeMask(e.size), flushMask); }
      } else {
        PageBlock(e.size);
        OneField(e);
      }
    }
  }

  lemma PageBlock(size: Addr)
    requires size == TARGET_PAGE_SIZE
    ensures SizeMask(size) == TARGET_PAGE_MASK
  {
  }

  /** A live entry matches the page it was made for. */
  lemma OneField(e: Entry)
    requires Live(e) && EntryOk(e)
    ensures Matches(e, e.vaddr)
  {
    hide PageOf, GoodSize;
  }

  lemma CoveredStill(e: Entry, flushAddr: Addr, flushMask: Addr, mask: Addr)
    requires Covered(e, flushAddr, flushMask) && Inside(mask, flushMask) && Masked(flushAddr, mask) != ALL
    ensures Covered(e, Masked(flushAddr, mask), mask)
  {
    hide SizeMask, Inside, Masked;
    if Live(e) && e.size != TARGET_PAGE_SIZE {
      MaskTrans(mask, flushMask, SizeMask(e.size));
      MaskTwice(e.vaddr, flushMask, mask);
    }
  }

  /** The low bits of a masked address are not all ones. */
  lemma NotAll(x: Addr, mask: Addr, size: Addr)
    requires GoodSize(size) && Inside(mask, SizeMask(size))
    ensures Masked(x, mask) != ALL
  {
    hide Masked, Inside, SizeMask;
    LowBit(size);
    LowClear(x, mask, SizeMask(size));
  }

  lemma LowBit(size: Addr)
    requires GoodSize(size)
    ensures SizeMask(size) & 1 == 0
  {
  }

  lemma LowClear(x: Addr, mask: Addr, sizeMask: Addr)
    requires sizeMask & 1 == 0 && Inside(mask, sizeMask)
    ensures Masked(x, mask) != ALL
  {
  }

  lemma AndInside(a: Addr, b: Addr)
    requires IsMask(a) && IsMask(b)
    ensures IsMask(Masked(a, b)) && Inside(Masked(a, b), a) && Inside(Masked(a, b), b)
  {
    MaskAnd(a, b);
    AndLess(a, b);
  }

  lemma AndLess(a: Addr, b: Addr)
    ensures Inside(Masked(a, b), a) && Inside(Masked(a, b), b)
  {
  }

  lemma NotLive()
    ensures !Live(EMPTY) && EntryOk(EMPTY)
  {
  }

  /** Pages have one slot each. */
  lemma IndexOfPage(x: Addr)
    ensures Index(Masked(x, TARGET_PAGE_MASK)) == Index(x)
  {
    SamePage(x);
  }

  lemma SamePage(x: Addr)
    ensures ((Masked(x, TARGET_PAGE_MASK)) >> 12) & 0xFF == (x >> 12) & 0xFF
  {
  }

  // ----- the flush region -----

  /** The area that large pages have been mapped in; addr is ALL if there are none. */
  datatype Region = Region(addr: Addr, mask: Addr)

  predicate RegionOk(r: Region) {
    if r.addr == ALL then r.mask == 0 else IsMask(r.mask)
  }

  /** 'tlb_add_large_page': the region covers the block of the new page, and all that it covered before. */
  method AddLargePage(r: Region, vaddr: Addr, size: Addr) returns (r': Region)
    requires RegionOk(r) && GoodSize(size)
    ensures RegionOk(r') && r'.addr != ALL && Masked(vaddr, r'.mask) == r'.addr && Inside(r'.mask, SizeMask(size))
    ensures forall e :: Covered(e, r.addr, r.mask) ==> Covered(e, r'.addr, r'.mask)
  {
    hide SizeMask, IsMask, Inside, Masked, GoodSize, Covered;
    SizeIsMask(size);
    var mask := SizeMask(size);
    if r.addr == ALL {
      InsideItself(mask);
      NotAll(vaddr, mask, size);
      r' := Region(Masked(vaddr, mask), mask);
      forall e | Covered(e, r.addr, r.mask) ensures Covered(e, r'.addr, r'.mask) { NoLarge(e, r, r'); }
      return;
    }
    AndInside(mask, r.mask);
    mask := Masked(mask, r.mask);
    mask := Widened(r.addr, vaddr, mask);
    MaskTrans(mask, Masked(SizeMask(size), r.mask), r.mask);
    MaskTrans(mask, Masked(SizeMask(size), r.mask), SizeMask(size));
    NotAll(r.addr, mask, size);
    r' := Region(Masked(r.addr, mask), mask);
    forall e | Covered(e, r.addr, r.mask) ensures Covered(e, r'.addr, r'.mask) {
      CoveredStill(e, r.addr, r.mask, mask);
    }
  }

  /** With no flush region there is no large page. */
  lemma NoLarge(e: Entry, r: Region, r': Region)
    requires r.addr == ALL && Covered(e, r.addr, r.mask)
    ensures Covered(e, r'.addr, r'.mask)
  {
    hide Masked, Inside, SizeMask;
  }

  // ----- the tables -----

  /** An entry is as 'tlb_set_page' makes it, and inside the flush region if it stands for a large page. */
  predicate Good(e: Entry, r: Region) {
    EntryOk(e) && Covered(e, r.addr, r.mask)
  }

  /** e stands for a mapping whose block holds x. */
  predicate Maps(e: Entry, x: Addr) {
    Live(e) && InBlock(x, e.vaddr, e.size)
  }

  predicate InSlot(e: Entry, i: nat) {
    Live(e) ==> Index(e.vaddr) == i
  }

  /** A good entry outside the slot of x does not map x as a small page. */
  lemma OtherSlot(e: Entry, i: nat, x: Addr, r: Region)
    requires Good(e, r) && InSlot(e, i) && i != Index(x) && Masked(x, r.mask) != r.addr
    ensures !Maps(e, x)
  {
    hide Inside;
    if Live(e) {
      if e.size == TARGET_PAGE_SIZE {
        PageBlock(e.size);
        IndexOfPage(x);
        IndexOfPage(e.vaddr);
      } else if InBlock(x, e.vaddr, e.size) {
        Agree(x, e.vaddr, SizeMask(e.size), r.mask);
      }
    }
  }

  lemma FlushedGood(e: Entry, x: Addr, r: Region)
    requires Good(e, r) && Masked(x, r.mask) != r.addr
    ensures var f := Flushed(e, Masked(x, TARGET_PAGE_MASK)); Good(f, r) && !Maps(f, x)
  {
    hide Matches, InBlock, Masked, Inside, GoodSize, FieldOk;
    FlushedIsGone(e, x, r.addr, r.mask);
    NotLive();
  }

  class State {
    const table: array2<Entry>
    const victim: array2<Entry>
    var vindex: nat
    var region: Region

    ghost predicate Valid()
      reads this, table, victim
    {
      && table != victim && table.Length0 == victim.Length0
      && table.Length1 == CPU_TLB_SIZE && victim.Length1 == CPU_VTLB_SIZE
      && RegionOk(region)
      && (forall m, i :: 0 <= m < table.Length0 && 0 <= i < table.Length1 ==>
            Good(table[m, i], region) && InSlot(table[m, i], i))
      && (forall m, i :: 0 <= m < victim.Length0 && 0 <= i < victim.Length1 ==> Good(victim[m, i], region))
    }

    /** Nothing is left for x. */
    ghost predicate Forgotten(x: Addr)
      reads this, table, victim
    {
      && (forall m, i :: 0 <= m < table.Length0 && 0 <= i < table.Length1 ==> !Maps(table[m, i], x))
      && (forall m, i :: 0 <= m < victim.Length0 && 0 <= i < victim.Length1 ==> !Maps(victim[m, i], x))
    }

    constructor (modes: nat)
      ensures Valid() && fresh(table) && fresh(victim)
    {
      table := new Entry[modes, CPU_TLB_SIZE]((_, _) => EMPTY);
      victim := new Entry[modes, CPU_VTLB_SIZE]((_, _) => EMPTY);
      vindex, region := 0, Region(ALL, 0);
    }

    /** 'tlb_flush'. */
    method Flush()
      requires Valid()
      modifies this, table, victim
      ensures Valid() && region == Region(ALL, 0)
      ensures forall m, i :: 0 <= m < table.Length0 && 0 <= i < table.Length1 ==> table[m, i] == EMPTY
      ensures forall m, i :: 0 <= m < victim.Length0 && 0 <= i < victim.Length1 ==> victim[m, i] == EMPTY
    {
      forall m, i | 0 <= m < table.Length0 && 0 <= i < table.Length1 { table[m, i] := EMPTY; }
      forall m, i | 0 <= m < victim.Length0 && 0 <= i < victim.Length1 { victim[m, i] := EMPTY; }
      vindex, region := 0, Region(ALL, 0);
    }

    /** 'tlb_flush_page': afterwards nothing is left for the address, large pages included. */
    method FlushPage(x: Addr)
      requires Valid()
      modifies this, table, victim
      ensures Valid() && Forgotten(x)
      ensures Masked(x, old(region).mask) != old(region).addr ==>
        && region == old(region)
        && (forall m, i ::
              && 0 <= m < table.Length0 && 0 <= i < table.Length1
              && !Matches(old(table[m, i]), Masked(x, TARGET_PAGE_MASK)) ==>
                table[m, i] == old(table[m, i]))
        && (forall m, i ::
              && 0 <= m < victim.Length0 && 0 <= i < victim.Length1
              && !Matches(old(victim[m, i]), Masked(x, TARGET_PAGE_MASK)) ==>
                victim[m, i] == old(victim[m, i]))
    {
      hide EntryOk, Covered, InBlock, IsMask, Live, Matches, Masked, Index, RegionOk;
      if Masked(x, region.mask) == region.addr {
        Flush();
        NotLive();
        return;
      }
      var addr := Masked(x, TARGET_PAGE_MASK);
      IndexOfPage(x);
      Slots(x);
      FlushMain(addr, Index(addr));
      FlushVictim(addr);
    }

    /** What flushing the page of x does to each entry. */
    lemma Slots(x: Addr)
      requires Valid() && Masked(x, region.mask) != region.addr
      ensures forall m, i :: 0 <= m < table.Length0 && 0 <= i < table.Length1 ==>
        var e := table[m, i]; var f := Flushed(e, Masked(x, TARGET_PAGE_MASK));
        && (i != Index(x) ==> !Maps(e, x)) && Good(f, region) && InSlot(f, i) && !Maps(f, x)
      ensures forall m, i :: 0 <= m < victim.Length0 && 0 <= i < victim.Length1 ==>
        var f := Flushed(victim[m, i], Masked(x, TARGET_PAGE_MASK));
        Good(f, region) && !Maps(f, x)
    {
      hide Good, Maps, Masked, Matches, Index, RegionOk;
      NotLive();
      forall m, i | 0 <= m < table.Length0 && 0 <= i < table.Length1
        ensures var e := table[m, i]; var f := Flushed(e, Masked(x, TARGET_PAGE_MASK));
          && (i != Index(x) ==> !Maps(e, x)) && Good(f, region) && InSlot(f, i) && !Maps(f, x)
      {
        if i != Index(x) { OtherSlot(table[m, i], i, x, region); }
        FlushedGood(table[m, i], x, region);
      }
      forall m, i | 0 <= m < victim.Length0 && 0 <= i < victim.Length1
        ensures var f := Flushed(victim[m, i], Masked(x, TARGET_PAGE_MASK)); Good(f, region) && !Maps(f, x)
      {
        FlushedGood(victim[m, i], x, region);
      }
    }

    method FlushMain(addr: Addr, i: nat)
      requires i < table.Length1
      modifies table
      ensures forall m, k :: 0 <= m < table.Length0 && 0 <= k < table.Length1 ==>
        table[m, k] == if k == i then Flushed(old(table[m, k]), addr) else old(table[m, k])
    {
      hide Flushed;
      var m := 0;
      while m < table.Length0
        invariant 0 <= m <= table.Length0
        invariant forall n, k :: 0 <= n < table.Length0 && 0 <= k < table.Length1 ==>
          table[n, k] == if n < m && k == i then Flushed(old(table[n, k]), addr) else old(table[n, k])
      {
        table[m, i] := Flushed(table[m, i], addr);
        m := m + 1;
      }
    }

    method FlushVictim(addr: Addr)
      modifies victim
      ensures forall m, k :: 0 <= m < victim.Length0 && 0 <= k < victim.Length1 ==>
        victim[m, k] == Flushed(old(victim[m, k]), addr)
    {
      hide Flushed;
      var m := 0;
      while m < victim.Length0
        invariant 0 <= m <= victim.Length0
        invariant forall n, k :: 0 <= n < victim.Length0 && 0 <= k < victim.Length1 ==>
          victim[n, k] == if n < m then Flushed(old(victim[n, k]), addr) else old(victim[n, k])
      {
        var k := 0;
        while k < victim.Length1
          invariant 0 <= k <= victim.Length1
          invariant forall n, j :: 0 <= n < victim.Length0 && 0 <= j < victim.Length1 ==>
            victim[n, j] == if n < m || (n == m && j < k) then Flushed(old(victim[n, j]), addr) else old(victim[n, j])
        {
          victim[m, k] := Flushed(victim[m, k], addr);
          k := k + 1;
        }
        m := m + 1;
      }
    }

    /** 'tlb_set_page' for a page-aligned address: the new entry goes to its slot, the old one to the victim table. */
    method SetPage(vaddr: Addr, size: Addr, mode: nat, prot: Prot, mem: Memory)
      requires Valid() && mode < table.Length0 && Masked(vaddr, TARGET_PAGE_MASK) == vaddr && GoodSize(size)
      modifies this, table, victim
      ensures Valid() && Maps(table[mode, Index(vaddr)], vaddr) == (prot.read || prot.write || prot.exec)
      ensures table[mode, Index(vaddr)] == Made(vaddr, size, prot, mem)
      ensures forall m, i :: 0 <= m < table.Length0 && 0 <= i < table.Length1 && (m, i) != (mode, Index(vaddr)) ==>
        table[m, i] == old(table[m, i])
      ensures var v := old(vindex) % CPU_VTLB_SIZE; victim[mode, v] == old(table[mode, Index(vaddr)])
      ensures var v := old(vindex) % CPU_VTLB_SIZE;
        forall m, i :: 0 <= m < victim.Length0 && 0 <= i < victim.Length1 && (m, i) != (mode, v) ==>
          victim[m, i] == old(victim[m, i])
    {
      hide EntryOk, Covered, InBlock, IsMask, Live, Masked, Index, RegionOk, GoodSize, Inside, SizeMask, Made, Tagged;
      hide ReadFlags;
      hide WriteFlags, CodeFlags;
      var vidx := vindex % CPU_VTLB_SIZE;
      vindex := vindex + 1;
      if size != TARGET_PAGE_SIZE { region := AddLargePage(region, vaddr, size); }
      var codeAddress := Tagged(vaddr, CodeFlags(mem));
      var address := Tagged(vaddr, ReadFlags(prot, mem));
      var index := Index(vaddr);
      victim[mode, vidx] := table[mode, index];
      var addrRead := if prot.read then address else ALL;
      var addrCode := if prot.exec then codeAddress else ALL;
      var addrWrite := if prot.write then Tagged(vaddr, WriteFlags(prot, mem)) else ALL;
      MadeIs(vaddr, size, prot, mem);
      table[mode, index] := Entry(addrRead, addrWrite, addrCode, vaddr, size);
      MadeGood(vaddr, size, prot, mem, region);
    }
  }

  datatype Prot = Prot(read: bool, write: bool, exec: bool)

  /** What 'tlb_set_page' asks about the memory behind a page; 'readWatch' and 'writeWatch': the page has a
      watchpoint, for reads or for writes only. */
  datatype Memory = Memory(ram: bool, romd: bool, readonly: bool, clean: bool, readWatch: bool, writeWatch: bool)

  const TLB_NOTDIRTY: Addr := 0x10
  const TLB_MMIO: Addr := 0x20

  function CodeFlags(mem: Memory): Addr {
    if !mem.ram && !mem.romd then TLB_MMIO else 0
  }

  function ReadFlags(prot: Prot, mem: Memory): Addr {
    if mem.readWatch || (mem.writeWatch && prot.write) then TLB_MMIO else CodeFlags(mem)
  }

  function WriteFlags(prot: Prot, mem: Memory): Addr {
    if (mem.ram && mem.readonly) || mem.romd then ReadFlags(prot, mem) | TLB_MMIO
    else if mem.ram && mem.clean then ReadFlags(prot, mem) | TLB_NOTDIRTY
    else ReadFlags(prot, mem)
  }

  /** Flags that 'tlb_set_page' adds to a page address: below the page bits, and not TLB_INVALID_MASK. */
  predicate GoodFlags(f: Addr) {
    f & 0xFFFFFFFFFFFFF008 == 0
  }

  function Tagged(vaddr: Addr, flags: Addr): Addr {
    vaddr | flags
  }

  function Made(vaddr: Addr, size: Addr, prot: Prot, mem: Memory): Entry {
    Entry(if prot.read then Tagged(vaddr, ReadFlags(prot, mem)) else ALL,
          if prot.write then Tagged(vaddr, WriteFlags(prot, mem)) else ALL,
          if prot.exec then Tagged(vaddr, CodeFlags(mem)) else ALL, vaddr, size)
  }

  lemma MadeIs(vaddr: Addr, size: Addr, prot: Prot, mem: Memory)
    ensures Made(vaddr, size, prot, mem) ==
      Entry(if prot.read then Tagged(vaddr, ReadFlags(prot, mem)) else ALL,
            if prot.write then Tagged(vaddr, WriteFlags(prot, mem)) else ALL,
            if prot.exec then Tagged(vaddr, CodeFlags(mem)) else ALL, vaddr, size)
  {
  }

  lemma FlagsGood(prot: Prot, mem: Memory)
    ensures GoodFlags(CodeFlags(mem)) && GoodFlags(ReadFlags(prot, mem)) && GoodFlags(WriteFlags(prot, mem))
  {
  }

  lemma FlagField(vaddr: Addr, f: Addr)
    requires vaddr & 0xFFF == 0 && GoodFlags(f)
    ensures PageOf(Tagged(vaddr, f)) == vaddr && Tagged(vaddr, f) != ALL
  {
  }

  lemma AlignedLow(vaddr: Addr)
    requires Masked(vaddr, TARGET_PAGE_MASK) == vaddr
    ensures vaddr & 0xFFF == 0
  {
  }

  lemma MadeGood(vaddr: Addr, size: Addr, prot: Prot, mem: Memory, r: Region)
    requires Masked(vaddr, TARGET_PAGE_MASK) == vaddr && GoodSize(size)
    requires size != TARGET_PAGE_SIZE ==>
      r.addr != ALL && Masked(vaddr, r.mask) == r.addr && Inside(r.mask, SizeMask(size))
    ensures var e := Made(vaddr, size, prot, mem);
      Good(e, r) && InSlot(e, Index(vaddr)) && Maps(e, vaddr) == (prot.read || prot.write || prot.exec)
  {
    hide PageOf, Masked, Inside, SizeMask, GoodSize, Index, GoodFlags, Tagged, CodeFlags, ReadFlags, WriteFlags;
    AlignedLow(vaddr);
    FlagsGood(prot, mem);
    FlagField(vaddr, CodeFlags(mem));
    FlagField(vaddr, ReadFlags(prot, mem));
    FlagField(vaddr, WriteFlags(prot, mem));
  }
}
