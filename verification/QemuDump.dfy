/** The layout of a guest memory dump (dump.c): where the headers say a byte is, and where the writing loop puts it. */
module Dump {
  import opened Common

  /** A block of guest physical memory. */
  datatype Block = Block(start: nat, end: nat)

  /** has_filter, begin and length. */
  datatype Filter = All | Range(begin: nat, length: nat)

  predicate OutOfRange(b: Block, f: Filter) {
    f.Range? && (b.start >= f.begin + f.length || b.end <= f.begin)
  }

  /** The part of a block that is dumped. */
  function Lo(b: Block, f: Filter): nat {
    if f.Range? && f.begin > b.start then f.begin else b.start
  }

  function Hi(b: Block, f: Filter): nat {
    if f.Range? && f.begin + f.length < b.end then f.begin + f.length else b.end
  }

  predicate Good(blocks: seq<Block>) {
    forall i :: 0 <= i < |blocks| ==> blocks[i].start <= blocks[i].end
  }

  /** A byte of the dump: a guest address in a block. */
  datatype Cell = Cell(block: nat, addr: nat)

  function Addresses(block: nat, lo: nat, hi: nat): (r: seq<Cell>)
    requires lo <= hi
    ensures |r| == hi - lo && forall k :: 0 <= k < |r| ==> r[k] == Cell(block, lo + k)
  {
    seq(hi - lo, k requires 0 <= k < hi - lo => Cell(block, lo + k))
  }

  /** Block i is dumped, in part or as a whole. */
  predicate Dumped(blocks: seq<Block>, f: Filter, i: nat)
    requires i < |blocks|
  {
    !OutOfRange(blocks[i], f) && Lo(blocks[i], f) <= Hi(blocks[i], f)
  }

  /** What the dump holds from block i on, by position. */
  function Memory(blocks: seq<Block>, f: Filter, i: nat): seq<Cell>
    requires i <= |blocks|
    decreases |blocks| - i
  {
    if i == |blocks| then []
    else if Dumped(blocks, f, i) then Addresses(i, Lo(blocks[i], f), Hi(blocks[i], f)) + Memory(blocks, f, i + 1)
    else Memory(blocks, f, i + 1)
  }

  lemma MemoryAt(blocks: seq<Block>, f: Filter, i: nat)
    requires i < |blocks| && Dumped(blocks, f, i)
    ensures Memory(blocks, f, i) == Addresses(i, Lo(blocks[i], f), Hi(blocks[i], f)) + Memory(blocks, f, i + 1)
  {
  }

  lemma InRangeIsDumped(b: Block, f: Filter)
    requires b.start <= b.end && !OutOfRange(b, f)
    ensures Lo(b, f) <= Hi(b, f)
  {
  }

  /** The part of the dump before block i. */
  function Before(blocks: seq<Block>, f: Filter, i: nat): (n: nat)
    requires i <= |blocks|
  {
    if i == 0 then 0 else
      Before(blocks, f, i - 1) + if Dumped(blocks, f, i - 1) then Hi(blocks[i - 1], f) - Lo(blocks[i - 1], f) else 0
  }

  lemma {:induction false} MemoryFrom(blocks: seq<Block>, f: Filter, i: nat)
    requires i <= |blocks|
    ensures Before(blocks, f, i) <= |Memory(blocks, f, 0)|
    ensures Memory(blocks, f, 0)[Before(blocks, f, i)..] == Memory(blocks, f, i)
  {
    if i > 0 {
      MemoryFrom(blocks, f, i - 1);
      var all, n := Memory(blocks, f, 0), Before(blocks, f, i - 1);
      if Dumped(blocks, f, i - 1) {
        var size := Hi(blocks[i - 1], f) - Lo(blocks[i - 1], f);
        assert all[n + size..] == all[n..][size..];
      }
    }
  }

  // ----- reading: what the headers say -----

  /** 'get_offset_range': the offset of an address in the file (None: it is not in the file) and how many bytes
      follow it there. */
  method GetOffsetRange(blocks: seq<Block>, f: Filter, memoryOffset: nat, phys: nat,
                        length: nat) returns (offset: Option<nat>, filesz: nat)
    requires Good(blocks)
    ensures offset.None? <==> forall i :: 0 <= i < |blocks| && Dumped(blocks, f, i) ==>
      !(Lo(blocks[i], f) <= phys < Hi(blocks[i], f))
    ensures offset.None? ==> filesz == 0
    ensures offset.Some? ==>
      && offset.value >= memoryOffset
      && exists i ::
           && 0 <= i < |blocks| && Dumped(blocks, f, i) && Lo(blocks[i], f) <= phys < Hi(blocks[i], f)
           && Holds(blocks, f, i, offset.value - memoryOffset, phys, length, filesz)
  {
    hide Memory, Holds;
    if f.Range? && (phys < f.begin || phys >= f.begin + f.length) {
      return None, 0;
    }
    var at, i := memoryOffset, 0;
    while i < |blocks|
      invariant 0 <= i <= |blocks| && at == memoryOffset + Before(blocks, f, i)
      invariant forall k :: 0 <= k < i && Dumped(blocks, f, k) ==> !(Lo(blocks[k], f) <= phys < Hi(blocks[k], f))
    {
      var b := blocks[i];
      if !OutOfRange(b, f) {
        InRangeIsDumped(b, f);
        var start := if f.All? || f.begin <= b.start then b.start else f.begin;
        var size := b.end - start;
        if f.Range? && f.begin + f.length < b.end { size := size - (b.end - (f.begin + f.length)); }
        if start <= phys < start + size {
          filesz := if phys + length <= start + size then length else size - (phys - start);
          Located(blocks, f, i, phys, length);
          return Some(phys - start + at), filesz;
        }
        at := at + size;
      }
      i := i + 1;
    }
    return None, 0;
  }

  /** At this position of the dump are the bytes of block i from the address on: as many as asked for, or up to the
      end of the part. */
  ghost predicate Holds(blocks: seq<Block>, f: Filter, i: nat, at: nat, phys: nat, length: nat, filesz: nat)
    requires i < |blocks| && Dumped(blocks, f, i)
  {
    && filesz == (if phys + length <= Hi(blocks[i], f) then length else Hi(blocks[i], f) - phys)
    && phys + filesz <= Hi(blocks[i], f) && at + filesz <= |Memory(blocks, f, 0)|
    && Memory(blocks, f, 0)[at..at + filesz] == Addresses(i, phys, phys + filesz)
  }

  lemma Located(blocks: seq<Block>, f: Filter, i: nat, phys: nat, length: nat)
    requires i < |blocks| && Dumped(blocks, f, i) && Lo(blocks[i], f) <= phys < Hi(blocks[i], f)
    ensures Holds(blocks, f, i, Before(blocks, f, i) + phys - Lo(blocks[i], f), phys, length,
      if phys + length <= Hi(blocks[i], f) then length else Hi(blocks[i], f) - phys)
  {
    hide Memory, Addresses, Before;
    MemoryFrom(blocks, f, i);
    MemoryAt(blocks, f, i);
    var lo, hi := Lo(blocks[i], f), Hi(blocks[i], f);
    var n := if phys + length <= hi then length else hi - phys;
    Window(Memory(blocks, f, 0), Before(blocks, f, i), Addresses(i, lo, hi), Memory(blocks, f, i + 1), phys - lo, n);
    AddressPart(i, lo, hi, phys, n);
  }

  lemma Window(all: seq<Cell>, at: nat, part: seq<Cell>, rest: seq<Cell>, d: nat, n: nat)
    requires at <= |all| && all[at..] == part + rest && d + n <= |part|
    ensures at + d + n <= |all| && all[at + d..at + d + n] == part[d..d + n]
  {
    var s := all[at..];
    assert |s| == |part| + |rest|;
    forall k | d <= k < d + n ensures all[at + k] == part[k] {
      assert s[k] == part[k];
    }
  }

  lemma AddressPart(i: nat, lo: nat, hi: nat, phys: nat, n: nat)
    requires lo <= phys && phys + n <= hi
    ensures Addresses(i, lo, hi)[phys - lo..phys - lo + n] == Addresses(i, phys, phys + n)
  {
    hide Addresses;
  }

  // ----- writing -----

  class DumpState {
    const blocks: seq<Block>
    const filter: Filter
    var start: nat
    var nextBlock: nat
    /** The memory part of the file, by position. */
    var out: seq<Cell>

    constructor (blocks: seq<Block>, filter: Filter)
      ensures this.blocks == blocks && this.filter == filter && start == 0 && nextBlock == 0 && out == []
    {
      this.blocks, this.filter := blocks, filter;
      start, nextBlock, out := 0, 0, [];
    }

    /** nextBlock is the first dumped block from i on, and start is where its part begins. */
    ghost predicate At(i: nat)
      reads this
    {
      && i <= nextBlock < |blocks| && Dumped(blocks, filter, nextBlock)
      && blocks[nextBlock].start + start == Lo(blocks[nextBlock], filter)
      && forall k :: i <= k < nextBlock ==> !Dumped(blocks, filter, k)
    }

    /** 'get_start_block': false if no block is in range. */
    method GetStartBlock() returns (found: bool)
      requires Good(blocks) && start == 0 && (filter.All? ==> blocks != [])
      modifies this`start, this`nextBlock
      ensures found ==> At(0)
      ensures !found ==> forall k :: 0 <= k < |blocks| ==> !Dumped(blocks, filter, k)
    {
      if filter.All? {
        nextBlock := 0;
        return true;
      }
      var i := 0;
      while i < |blocks|
        invariant 0 <= i <= |blocks|
        invariant forall k :: 0 <= k < i ==> !Dumped(blocks, filter, k)
      {
        if !OutOfRange(blocks[i], filter) {
          InRangeIsDumped(blocks[i], filter);
          nextBlock := i;
          start := if filter.begin > blocks[i].start then filter.begin - blocks[i].start else 0;
          return true;
        }
        i := i + 1;
      }
      return false;
    }

    /** 'get_next_block': true if there is no further block. */
    method GetNextBlock(block: nat) returns (done: bool)
      requires Good(blocks) && block < |blocks|
      modifies this`start, this`nextBlock
      ensures !done ==> At(block + 1)
      ensures done ==> forall k :: block < k < |blocks| ==> !Dumped(blocks, filter, k)
    {
      var i := block + 1;
      while i < |blocks|
        invariant block < i <= |blocks|
        invariant forall k :: block < k < i ==> !Dumped(blocks, filter, k)
      {
        start := 0;
        nextBlock := i;
        if filter.All? || !OutOfRange(blocks[i], filter) {
          InRangeIsDumped(blocks[i], filter);
          if filter.Range? && filter.begin > blocks[i].start { start := filter.begin - blocks[i].start; }
          return false;
        }
        i := i + 1;
      }
      return true;
    }

    /** 'write_memory'. */
    method WriteMemory(block: nat, offset: nat, size: nat)
      requires block < |blocks|
      modifies this`out
      ensures out == old(out) + Addresses(block, blocks[block].start + offset, blocks[block].start + offset + size)
    {
      out := out + Addresses(block, blocks[block].start + offset, blocks[block].start + offset + size);
    }

    /** 'dump_iterate': writes the parts of all blocks in range, in order, and nothing else. */
    method DumpIterate()
      requires Good(blocks) && At(0) && out == []
      modifies this
      ensures out == Memory(blocks, filter, 0)
    {
      hide Memory, Addresses, Lo, Hi, Good, Dumped, OutOfRange;
      MemoryEnds(blocks, filter);
      Skip(blocks, filter, 0, nextBlock);
      var done := false;
      while !done
        invariant !done ==> At(0 + nextBlock) && out + Memory(blocks, filter, nextBlock) == Memory(blocks, filter, 0)
        invariant done ==> out == Memory(blocks, filter, 0)
        decreases !done, |blocks| - nextBlock
      {
        var block := nextBlock;
        var b := blocks[block];
        var size := b.end - b.start;
        if filter.Range? {
          size := size - start;
          if filter.begin + filter.length < b.end { size := size - (b.end - (filter.begin + filter.length)); }
        }
        NextPart(blocks, filter, block, start, size, out);
        WriteMemory(block, start, size);
        done := GetNextBlock(block);
        Skip(blocks, filter, block + 1, if done then |blocks| else nextBlock);
      }
    }
  }

  /** The size that the loop computes is that of the part. */
  lemma PartSize(b: Block, f: Filter, start: nat, size: int)
    requires b.start <= b.end && !OutOfRange(b, f) && b.start + start == Lo(b, f)
    requires var after := if f.All? || f.begin + f.length >= b.end then 0 else b.end - (f.begin + f.length);
      size == b.end - b.start - (if f.All? then 0 else start + after)
    ensures Lo(b, f) + size == Hi(b, f) && size >= 0
  {
  }

  /** What the loop writes next is what the dump has next. */
  lemma NextPart(blocks: seq<Block>, f: Filter, block: nat, start: nat, size: int, out: seq<Cell>)
    requires Good(blocks) && block < |blocks| && Dumped(blocks, f, block)
    requires blocks[block].start + start == Lo(blocks[block], f)
    requires var b := blocks[block];
      var after := if f.All? || f.begin + f.length >= b.end then 0 else b.end - (f.begin + f.length);
      size == b.end - b.start - (if f.All? then 0 else start + after)
    ensures var from := blocks[block].start + start;
      && size >= 0
      && out + Memory(blocks, f, block) == out + Addresses(block, from, from + size) + Memory(blocks, f, block + 1)
  {
    hide Memory, Addresses, Lo, Hi;
    var b := blocks[block];
    MemoryAt(blocks, f, block);
    PartSize(b, f, start, size);
    Joined(out, Addresses(block, Lo(b, f), Hi(b, f)), Memory(blocks, f, block + 1));
  }

  lemma Joined(a: seq<Cell>, b: seq<Cell>, c: seq<Cell>)
    ensures a + b + c == a + (b + c)
  {
  }

  lemma MemoryEnds(blocks: seq<Block>, f: Filter)
    ensures Memory(blocks, f, |blocks|) == []
  {
  }

  lemma {:induction false} Skip(blocks: seq<Block>, f: Filter, i: nat, j: nat)
    requires i <= j <= |blocks| && forall k :: i <= k < j ==> !Dumped(blocks, f, k)
    ensures Memory(blocks, f, i) == Memory(blocks, f, j)
    decreases j - i
  {
    if i < j { Skip(blocks, f, i + 1, j); }
  }

  /** A byte of the dump is where the headers say: at every position the loop has written the address whose offset
      that is. */
  lemma OffsetsAgree(blocks: seq<Block>, f: Filter, i: nat, addr: nat)
    requires i < |blocks| && Dumped(blocks, f, i) && Lo(blocks[i], f) <= addr < Hi(blocks[i], f)
    ensures var at := Before(blocks, f, i) + addr - Lo(blocks[i], f);
      at < |Memory(blocks, f, 0)| && Memory(blocks, f, 0)[at] == Cell(i, addr)
  {
    Located(blocks, f, i, addr, 1);
    var at := Before(blocks, f, i) + addr - Lo(blocks[i], f);
    assert Memory(blocks, f, 0)[at..at + 1][0] == Cell(i, addr);
  }
}
