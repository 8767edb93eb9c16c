/** The search for pages to send (arch_init.c): the cursor over the RAM blocks, the bitmap and the send loop. */
module RamSearch {
  import opened Common
  import opened Xbzrle
  import opened Migration

  /** A block of guest RAM, in pages. */
  datatype Block = Block(base: nat, len: nat)

  function PagesOf(b: Block): set<nat> {
    Span(b.base, b.len)
  }

  /** All pages of the blocks. */
  function Pages(blocks: seq<Block>): set<nat> {
    if blocks == [] then {} else PagesOf(blocks[0]) + Pages(blocks[1..])
  }

  lemma {:induction false} InSomeBlock(blocks: seq<Block>, p: nat)
    ensures p in Pages(blocks) <==> exists i :: 0 <= i < |blocks| && p in PagesOf(blocks[i])
    decreases |blocks|
  {
    if blocks != [] {
      InSomeBlock(blocks[1..], p);
      if i :| 0 <= i < |blocks[1..]| && p in PagesOf(blocks[1..][i]) { assert p in PagesOf(blocks[i + 1]); }
      if i :| 0 < i < |blocks| && p in PagesOf(blocks[i]) { assert p in PagesOf(blocks[1..][i - 1]); }
    }
  }

  /** No page of block b from offset lo up to offset hi is dirty. */
  predicate CleanPart(bitmap: set<nat>, b: Block, lo: nat, hi: nat) {
    forall x :: b.base + lo <= x < b.base + hi ==> x !in bitmap
  }

  predicate CleanBlocks(bitmap: set<nat>, blocks: seq<Block>, i: nat, j: nat)
    requires j <= |blocks|
  {
    forall k :: i <= k < j ==> CleanPart(bitmap, blocks[k], 0, blocks[k].len)
  }

  lemma AllClean(bitmap: set<nat>, blocks: seq<Block>)
    requires CleanBlocks(bitmap, blocks, 0, |blocks|)
    ensures bitmap * Pages(blocks) == {}
  {
    forall p | p in Pages(blocks) ensures p !in bitmap {
      InSomeBlock(blocks, p);
      var i :| 0 <= i < |blocks| && p in PagesOf(blocks[i]);
      assert CleanPart(bitmap, blocks[i], 0, blocks[i].len);
    }
  }

  /** 'find_next_bit': the first dirty page from 'from' on, or 'size'. */
  function NextBit(bitmap: set<nat>, size: nat, from: nat): (r: nat)
    ensures from < size ==> from <= r
    ensures r <= size && (r < size ==> r in bitmap) && forall x :: from <= x < r ==> x !in bitmap
    decreases size - from
  {
    if from >= size then size else if from in bitmap then from else NextBit(bitmap, size, from + 1)
  }

  /** Where 'migration_bitmap_find_and_reset_dirty' stops in block b, starting at an offset in it. */
  function FindOffset(b: Block, bitmap: set<nat>, start: nat, bulk: bool): nat {
    var next := if bulk && start > 0 then b.base + start + 1 else NextBit(bitmap, b.base + b.len, b.base + start);
    if next < b.base then 0 else next - b.base
  }

  /** In the bulk stage the next look finds a page of the same block. */
  predicate BulkFinds(b: Block, bitmap: set<nat>, start: nat) {
    FindOffset(b, bitmap, start, true) < b.len
  }

  predicate GoodBlocks(blocks: seq<Block>) {
    && |blocks| > 0 && (forall i :: 0 <= i < |blocks| ==> blocks[i].len > 0)
    && forall i, j :: 0 <= i < j < |blocks| ==> PagesOf(blocks[i]) !! PagesOf(blocks[j])
  }

  // ----- where the search is -----

  /** Where a call of the search starts, and the pages that are lost by then. */
  datatype Cursor = Cursor(seen: Option<nat>, off: nat, bulk: bool, lost: set<nat>)

  predicate DirtyPart(bitmap: set<nat>, b: Block, lo: nat) {
    forall x :: b.base + lo <= x < b.base + b.len ==> x in bitmap
  }

  /** In the bulk stage all pages behind the cursor are still dirty. */
  predicate BulkReady(blocks: seq<Block>, bitmap: set<nat>, seen: Option<nat>, off: nat) {
    match seen
    case None => off == 0 && forall k :: 0 <= k < |blocks| ==> DirtyPart(bitmap, blocks[k], 0)
    case Some(b) =>
      && b < |blocks| && off < blocks[b].len && DirtyPart(bitmap, blocks[b], off + 1)
      && forall k :: b < k < |blocks| ==> DirtyPart(bitmap, blocks[k], 0)
  }

  /** The one case in which the search clears a bit without sending the page: it comes to the end of the bulk stage, and
      the only dirty page is the last one it has sent, written again since. */
  predicate LosesPage(blocks: seq<Block>, bitmap: set<nat>, bulk: bool, seen: Option<nat>, off: nat) {
    && bulk && |blocks| > 0 && seen == Some(|blocks| - 1)
    && var b := blocks[|blocks| - 1]; off > 0 && off + 1 == b.len && bitmap * Pages(blocks) == {b.base + off}
  }

  /** The only page that can be lost. */
  function LastPage(blocks: seq<Block>): set<nat> {
    if |blocks| == 0 || blocks[|blocks| - 1].len < 2 then {}
    else {blocks[|blocks| - 1].base + blocks[|blocks| - 1].len - 1}
  }

  /** Outside the bulk stage: from the cursor to where the search is, nothing is dirty. */
  predicate NormalScan(blocks: seq<Block>, bitmap: set<nat>, b: nat, off: nat, block: nat, offset: nat, complete: bool)
    requires block < |blocks|
  {
    && b < |blocks| && off <= blocks[b].len
    && if complete then
         && block <= b && CleanPart(bitmap, blocks[b], off, blocks[b].len) && CleanBlocks(bitmap, blocks, b + 1,
             |blocks|)
         && CleanBlocks(bitmap, blocks, 0, block) && CleanPart(bitmap, blocks[block], 0, offset)
       else if block == b then off <= offset && CleanPart(bitmap, blocks[b], off, offset)
       else
         && b < block && CleanPart(bitmap, blocks[b], off, blocks[b].len) && CleanBlocks(bitmap, blocks, b + 1, block)
         && CleanPart(bitmap, blocks[block], 0, offset)
  }

  /** After the bulk stage has ended in this call: the cursor is at the very last page, and the search starts over. */
  predicate WrapScan(blocks: seq<Block>, bitmap: set<nat>, b: nat, off: nat, block: nat, offset: nat)
    requires block < |blocks|
  {
    && b + 1 == |blocks| && off < blocks[b].len <= off + 1 && (off == 0 ==> blocks[b].base !in bitmap)
    && CleanBlocks(bitmap, blocks, 0, block) && CleanPart(bitmap, blocks[block], 0, offset)
  }

  ghost predicate Scanning(blocks: seq<Block>, bitmap: set<nat>, c: Cursor, block: nat, offset: nat, complete: bool,
                           bulk: bool)
    requires block < |blocks|
  {
    && (c.seen.None? ==> c.bulk && bulk)
    && (bulk ==> c.bulk && !complete && BulkReady(blocks, bitmap, c.seen, c.off)
                 && (if c.seen.None? then block == 0 && offset == 0
                     else if block == c.seen.value then offset == c.off else block == c.seen.value + 1 && offset == 0))
    && (!bulk && c.bulk ==> complete && WrapScan(blocks, bitmap, c.seen.value, c.off, block, offset))
    && (!c.bulk ==> NormalScan(blocks, bitmap, c.seen.value, c.off, block, offset, complete))
  }

  lemma ScanStart(blocks: seq<Block>, bitmap: set<nat>, c: Cursor, block: nat, offset: nat)
    requires GoodBlocks(blocks) && (c.seen.Some? ==> c.seen.value < |blocks| && c.off <= blocks[c.seen.value].len)
    requires if c.bulk then BulkReady(blocks, bitmap, c.seen, c.off) else c.seen.Some?
    requires block == (if c.seen.None? then 0 else c.seen.value) && offset == c.off
    ensures block < |blocks| && offset <= blocks[block].len && Scanning(blocks, bitmap, c, block, offset, false, c.bulk)
  {
  }

  /** What the next look at the bitmap finds. */
  lemma Looks(b: Block, bitmap: set<nat>, offset: nat, bulk: bool)
    requires offset <= b.len
    ensures var off' := FindOffset(b, bitmap, offset, bulk);
      !(bulk && offset > 0) ==>
        offset <= off' <= b.len && CleanPart(bitmap, b, offset, off') && (off' < b.len ==> b.base + off' in bitmap)
  {
  }

  lemma CleanJoin(bitmap: set<nat>, b: Block, x: nat, y: nat, z: nat)
    requires CleanPart(bitmap, b, x, y) && CleanPart(bitmap, b, y, z)
    ensures CleanPart(bitmap, b, x, z)
  {
  }

  lemma CleanMore(bitmap: set<nat>, blocks: seq<Block>, i: nat, j: nat)
    requires j < |blocks| && CleanBlocks(bitmap, blocks, i, j) && CleanPart(bitmap, blocks[j], 0, blocks[j].len)
    ensures CleanBlocks(bitmap, blocks, i, j + 1)
  {
  }

  /** The part of the block that has been looked at is clean. */
  lemma LookedAt(blocks: seq<Block>, bitmap: set<nat>, c: Cursor, block: nat, offset: nat, complete: bool, bulk: bool)
    requires block < |blocks| && offset <= blocks[block].len && !bulk
    requires Scanning(blocks, bitmap, c, block, offset, complete, bulk)
    ensures var b := blocks[block]; var off' := FindOffset(b, bitmap, offset, false);
      && offset <= off' <= b.len && (off' < b.len ==> b.base + off' in bitmap)
      && Scanning(blocks, bitmap, c, block, off', complete, bulk)
  {
    hide CleanPart, CleanBlocks, FindOffset, BulkReady;
    var b := blocks[block];
    var off' := FindOffset(b, bitmap, offset, false);
    Looks(b, bitmap, offset, false);
    if c.bulk || complete || block != c.seen.value {
      CleanJoin(bitmap, b, 0, offset, off');
    } else {
      CleanJoin(bitmap, b, c.off, offset, off');
    }
  }

  /** Round completed, outside the bulk stage: nothing is dirty. */
  lemma NormalDone(blocks: seq<Block>, bitmap: set<nat>, b: nat, off: nat, offset: nat)
    requires b < |blocks| && NormalScan(blocks, bitmap, b, off, b, offset, true) && off <= offset
    requires offset < blocks[b].len ==> blocks[b].base + offset in bitmap
    ensures offset >= blocks[b].len && bitmap * Pages(blocks) == {}
  {
    assert CleanPart(bitmap, blocks[b], 0, blocks[b].len);
    AllClean(bitmap, blocks);
  }

  lemma DirtyIsLast(blocks: seq<Block>, bitmap: set<nat>, b: nat, p: nat)
    requires b + 1 == |blocks| && CleanBlocks(bitmap, blocks, 0, b) && p in bitmap && p in Pages(blocks)
    ensures p in PagesOf(blocks[b])
  {
    hide Pages;
    InSomeBlock(blocks, p);
    forall k | 0 <= k < b ensures p !in PagesOf(blocks[k]) {
      assert CleanPart(bitmap, blocks[k], 0, blocks[k].len);
    }
  }

  /** Round completed after the end of the bulk stage: nothing is dirty, or a page is lost. */
  lemma WrapDone(blocks: seq<Block>, bitmap: set<nat>, b: nat, off: nat, offset: nat)
    requires b < |blocks| && WrapScan(blocks, bitmap, b, off, b, offset) && off <= offset <= blocks[b].len
    requires offset < blocks[b].len ==> blocks[b].base + offset in bitmap
    ensures offset < blocks[b].len ==> offset == off && LosesPage(blocks, bitmap, true, Some(b), off)
    ensures offset == blocks[b].len ==> bitmap * Pages(blocks) == {}
  {
    if offset == blocks[b].len {
      AllClean(bitmap, blocks);
    } else {
      forall p | p in bitmap * Pages(blocks) ensures p == blocks[b].base + off {
        DirtyIsLast(blocks, bitmap, b, p);
      }
      assert blocks[b].base + off in PagesOf(blocks[b]);
      InSomeBlock(blocks, blocks[b].base + off);
      assert bitmap * Pages(blocks) == {blocks[b].base + off};
    }
  }

  /** The search ends without a page: there is none, or one is lost. */
  lemma ScanDone(blocks: seq<Block>, bitmap: set<nat>, c: Cursor, block: nat, offset: nat, complete: bool, bulk: bool)
    requires block < |blocks| && offset <= blocks[block].len
    requires Scanning(blocks, bitmap, c, block, offset, complete, bulk) && complete
    requires c.seen == Some(block)
    ensures var b := blocks[block]; var off' := FindOffset(b, bitmap, offset, bulk);
      off' >= c.off ==>
        && (off' < b.len ==> c.bulk && off' == c.off && LosesPage(blocks, bitmap, true, c.seen, c.off))
        && (off' >= b.len ==> bitmap * Pages(blocks) == {})
  {
    hide LosesPage, NormalScan, WrapScan, FindOffset, BulkReady;
    var off' := FindOffset(blocks[block], bitmap, offset, bulk);
    LookedAt(blocks, bitmap, c, block, offset, complete, bulk);
    if off' >= c.off {
      if c.bulk { WrapDone(blocks, bitmap, block, c.off, off'); }
      else { NormalDone(blocks, bitmap, block, c.off, off'); }
    }
  }

  /** The search goes on to the next block. */
  lemma ScanNext(blocks: seq<Block>, bitmap: set<nat>, c: Cursor, block: nat, offset: nat, complete: bool, bulk: bool)
    requires GoodBlocks(blocks) && block < |blocks| && offset <= blocks[block].len
    requires Scanning(blocks, bitmap, c, block, offset, complete, bulk)
    requires FindOffset(blocks[block], bitmap, offset, bulk) >= blocks[block].len
    requires complete && c.seen == Some(block) ==> FindOffset(blocks[block], bitmap, offset, bulk) < c.off
    ensures if block + 1 < |blocks| then Scanning(blocks, bitmap, c, block + 1, 0, complete, bulk)
      else !complete && Scanning(blocks, bitmap, c, 0, 0, true, false)
  {
    if bulk {
      BulkNext(blocks, bitmap, c, block, offset);
    } else {
      hide FindOffset, CleanPart, CleanBlocks, BulkReady;
      LookedAt(blocks, bitmap, c, block, offset, complete, bulk);
      NoPart(blocks, bitmap);
      if c.bulk || complete {
        CleanMore(bitmap, blocks, 0, block);
      } else if block != c.seen.value {
        CleanMore(bitmap, blocks, c.seen.value + 1, block);
      } else {
        NoBlocks(bitmap, blocks, block + 1);
      }
    }
  }

  lemma NoPart(blocks: seq<Block>, bitmap: set<nat>)
    ensures forall k :: 0 <= k < |blocks| ==> CleanPart(bitmap, blocks[k], 0, 0)
    ensures CleanBlocks(bitmap, blocks, 0, 0)
  {
  }

  lemma NoBlocks(bitmap: set<nat>, blocks: seq<Block>, i: nat)
    requires i <= |blocks|
    ensures CleanBlocks(bitmap, blocks, i, i)
  {
  }

  lemma FoundEarly(b: Block, bitmap: set<nat>)
    ensures b.len > 0 && b.base in bitmap ==> FindOffset(b, bitmap, 0, true) == 0
    ensures b.len > 1 && b.base + 1 in bitmap ==> FindOffset(b, bitmap, 0, true) <= 1
  {
  }

  lemma BulkNext(blocks: seq<Block>, bitmap: set<nat>, c: Cursor, block: nat, offset: nat)
    requires GoodBlocks(blocks) && block < |blocks| && offset <= blocks[block].len
    requires Scanning(blocks, bitmap, c, block, offset, false, true)
    requires FindOffset(blocks[block], bitmap, offset, true) >= blocks[block].len
    ensures if block + 1 < |blocks| then Scanning(blocks, bitmap, c, block + 1, 0, false, true)
      else Scanning(blocks, bitmap, c, 0, 0, true, false)
  {
    Looks(blocks[block], bitmap, offset, true);
    FoundEarly(blocks[block], bitmap);
  }

  /** The page that is found in the bulk stage. */
  lemma BulkPage(blocks: seq<Block>, bitmap: set<nat>, c: Cursor, block: nat, offset: nat)
    requires GoodBlocks(blocks) && block < |blocks| && offset <= blocks[block].len
    requires Scanning(blocks, bitmap, c, block, offset, false, true)
    requires FindOffset(blocks[block], bitmap, offset, true) < blocks[block].len
    ensures var off' := FindOffset(blocks[block], bitmap, offset, true); var p := blocks[block].base + off';
      && p in bitmap && BulkReady(blocks, bitmap - {p}, Some(block), off')
      && !LosesPage(blocks, bitmap, c.bulk, c.seen, c.off)
  {
    hide LosesPage;
    var off' := FindOffset(blocks[block], bitmap, offset, true);
    var p := blocks[block].base + off';
    Looks(blocks[block], bitmap, offset, true);
    assert p in PagesOf(blocks[block]);
    forall k | block < k < |blocks| ensures DirtyPart(bitmap - {p}, blocks[k], 0) {
      assert PagesOf(blocks[block]) !! PagesOf(blocks[k]);
      assert DirtyPart(bitmap, blocks[k], 0);
    }
    BulkKeeps(blocks, bitmap, c, block, offset);
  }

  lemma BulkKeeps(blocks: seq<Block>, bitmap: set<nat>, c: Cursor, block: nat, offset: nat)
    requires block < |blocks| && offset <= blocks[block].len && c.bulk
    requires c.seen.Some? ==> if block == c.seen.value then offset == c.off else block == c.seen.value + 1
    requires FindOffset(blocks[block], bitmap, offset, true) < blocks[block].len
    ensures !LosesPage(blocks, bitmap, c.bulk, c.seen, c.off)
  {
  }

  /** The page that is found outside the bulk stage. */
  lemma NormalPage(blocks: seq<Block>, bitmap: set<nat>, c: Cursor, block: nat, offset: nat, complete: bool)
    requires GoodBlocks(blocks) && block < |blocks| && offset <= blocks[block].len
    requires Scanning(blocks, bitmap, c, block, offset, complete, false)
    requires FindOffset(blocks[block], bitmap, offset, false) < blocks[block].len
    requires complete && c.seen == Some(block) ==> FindOffset(blocks[block], bitmap, offset, false) < c.off
    ensures var off' := FindOffset(blocks[block], bitmap, offset, false); var p := blocks[block].base + off';
      && p in bitmap
      && (!c.bulk ==> Scanning(blocks, bitmap - {p}, c, block, off', complete, false))
      && (c.bulk ==> !LosesPage(blocks, bitmap, c.bulk, c.seen, c.off))
  {
    hide FindOffset, BulkReady;
    var off' := FindOffset(blocks[block], bitmap, offset, false);
    var p := blocks[block].base + off';
    LookedAt(blocks, bitmap, c, block, offset, complete, false);
    if c.bulk {
      assert p in PagesOf(blocks[block]);
      InSomeBlock(blocks, p);
      assert p in bitmap * Pages(blocks);
      var l := blocks[|blocks| - 1];
      assert block < |blocks| - 1 ==> PagesOf(blocks[block]) !! PagesOf(l);
      assert l.len > 0 && (c.off < l.len ==> l.base + c.off in PagesOf(l));
    }
  }

  /** The page that is found: it is dirty, and the search can go on behind it. */
  lemma ScanPage(blocks: seq<Block>, bitmap: set<nat>, c: Cursor, block: nat, offset: nat, complete: bool, bulk: bool)
    requires GoodBlocks(blocks) && block < |blocks| && offset <= blocks[block].len
    requires Scanning(blocks, bitmap, c, block, offset, complete, bulk)
    requires FindOffset(blocks[block], bitmap, offset, bulk) < blocks[block].len
    requires complete && c.seen == Some(block) ==> FindOffset(blocks[block], bitmap, offset, bulk) < c.off
    ensures var off' := FindOffset(blocks[block], bitmap, offset, bulk); var p := blocks[block].base + off';
      && p in bitmap && p in Pages(blocks)
      && (!c.bulk ==> !bulk && Scanning(blocks, bitmap - {p}, c, block, off', complete, bulk))
      && (c.bulk ==> !LosesPage(blocks, bitmap, c.bulk, c.seen, c.off))
      && (bulk ==> BulkReady(blocks, bitmap - {p}, Some(block), off'))
  {
    hide FindOffset, BulkReady, LosesPage, NormalScan, WrapScan;
    if bulk { BulkPage(blocks, bitmap, c, block, offset); }
    else { NormalPage(blocks, bitmap, c, block, offset, complete); }
    var p := blocks[block].base + FindOffset(blocks[block], bitmap, offset, bulk);
    assert p in PagesOf(blocks[block]);
    InSomeBlock(blocks, p);
  }

  lemma InBulk(blocks: seq<Block>, bitmap: set<nat>, c: Cursor, block: nat, offset: nat, complete: bool, bulk: bool)
    requires GoodBlocks(blocks) && block < |blocks| && Scanning(blocks, bitmap, c, block, offset, complete, bulk)
    ensures bulk ==> c.bulk && !complete && offset < blocks[block].len
    ensures !c.bulk ==> c.seen.Some? && !bulk
    ensures !LosesPage(blocks, bitmap, false, c.seen, c.off)
  {
  }

  lemma IdleCache(cfg: Config, m: State, pages: set<nat>, bulk: bool, last: bool, lost: set<nat>)
    requires cfg.slots > 0 && Inv(cfg, m, pages, bulk, last, lost)
    ensures bulk ==> m.cache == map[]
  {
  }

  lemma EndOfBulk(cfg: Config, m: State, pages: set<nat>, bulk: bool, last: bool, lost: set<nat>)
    requires cfg.slots > 0 && Inv(cfg, m, pages, bulk, last, lost)
    ensures Inv(cfg, m, pages, false, last, lost)
  {
  }

  lemma SetupInv(cfg: Config, m: State, pages: set<nat>, gaps: set<nat>)
    requires cfg.slots > 0 && gaps !! pages && m.bitmap == pages + gaps && m.count == |pages|
    requires m.cache == map[] && m.log == {}
    ensures Inv(cfg, m, pages, true, false, {})
  {
    assert m.bitmap * pages == pages;
  }

  class RamMigration {
    const cfg: Config
    const blocks: seq<Block>
    /** Both memories, the cache, the dirty log, and the migration bitmap with its count. */
    var m: State
    /** 'last_seen_block', 'last_offset' and 'ram_bulk_stage' */
    var lastSeen: Option<nat>
    var lastOffset: nat
    var bulk: bool
    /** Pages that the search has lost and the guest has not written since. */
    ghost var lost: set<nat>

    ghost predicate CursorOk()
      reads this
    {
      && cfg.slots > 0 && |blocks| > 0
      && (lastSeen.Some? ==> lastSeen.value < |blocks| && lastOffset <= blocks[lastSeen.value].len)
    }

    ghost predicate Valid(last: bool)
      reads this
    {
      CursorOk() && Inv(cfg, m, Pages(blocks), bulk, last, lost) && lost <= LastPage(blocks)
    }

    ghost function Now(): Cursor
      reads this
    {
      Cursor(lastSeen, lastOffset, bulk, lost)
    }

    /** The state after 'ram_save_setup': everything is dirty, gaps between blocks included; the destination may hold
        anything. */
    constructor (cfg: Config, blocks: seq<Block>, ram: nat -> Ram, dest: nat -> Ram, gaps: set<nat>)
      requires cfg.slots > 0 && |blocks| > 0 && gaps !! Pages(blocks)
      ensures Valid(false) && bulk && lastSeen == None && lastOffset == 0 && this.cfg == cfg && this.blocks == blocks
      ensures m == State(ram, dest, map[], {}, Pages(blocks) + gaps, |Pages(blocks)|) && lost == {}
    {
      hide Inv, Pages, LastPage;
      this.cfg, this.blocks := cfg, blocks;
      m := State(ram, dest, map[], {}, Pages(blocks) + gaps, |Pages(blocks)|);
      lastSeen, lastOffset, bulk, lost := None, 0, true, {};
      new;
      SetupInv(cfg, m, Pages(blocks), gaps);
    }

    method GuestWrite(p: nat, data: Ram)
      requires Valid(false) && p in Pages(blocks)
      modifies this`m, this`lost
      ensures Valid(false) && m == old(m).(ram := Update(old(m).ram, p, data), log := old(m).log + {p})
      ensures lost == old(lost) - {p}
    {
      hide Inv, Pages, LastPage, Update;
      GuestWriteKeeps(cfg, m, Pages(blocks), bulk, false, lost, p, data);
      m := m.(ram := Update(m.ram, p, data), log := m.log + {p});
      lost := lost - {p};
    }

    method CacheInsert(addr: nat, data: Ram, allocOk: bool) returns (ok: bool)
      requires cfg.slots > 0
      modifies this`m
      ensures ok == Inserted(cfg, old(m).cache, addr, data, allocOk).Some?
      ensures m == if ok then old(m).(cache := Inserted(cfg, old(m).cache, addr, data, allocOk).value) else old(m)
    {
      if Position(cfg, addr) !in m.cache && !allocOk { return false; }
      m := m.(cache := m.cache[Position(cfg, addr) := Item(addr, data)]);
      return true;
    }

    /** 'save_xbzrle_page', and the full page that is sent if it gives up. */
    method SaveXbzrle(addr: nat, s: Seen, last: bool) returns (msg: Option<Message>, ghost fits: bool)
      requires cfg.slots > 0
      modifies this`m
      ensures var r := SaveXbzrlePage(cfg, old(m).cache, addr, s, fits, last);
        msg == r.msg && m == old(m).(cache := r.cache)
    {
      hide Delta;
      fits := true;
      if !IsCached(cfg, m.cache, addr) {
        if !last {
          var ok := CacheInsert(addr, s.copy, s.allocOk);
          if ok { return Some(FullPage(s.copy)), fits; }
        }
        return Some(FullPage(s.late)), fits;
      }
      var prev := m.cache[Position(cfg, addr)].data;
      var encoded := new Byte[TARGET_PAGE_SIZE];
      var len := EncodeBuffer(prev, s.copy, encoded);
      EmptyDelta(prev, s.copy);
      if len == 0 { return None, fits; }
      if len == -1 {
        fits := false;
        if !last { m := m.(cache := m.cache[Position(cfg, addr) := Item(addr, s.late)]); }
        return Some(FullPage(s.late)), fits;
      }
      if !last { m := m.(cache := m.cache[Position(cfg, addr) := Item(addr, s.copy)]); }
      return Some(DeltaPage(encoded[..len])), fits;
    }

    /** 'ram_save_page'; 'seen' is what the thread sees of the page meanwhile. */
    method RamSavePage(p: nat, last: bool, seen: Seen) returns (sent: bool, ghost fits: bool)
      requires cfg.slots > 0
      modifies this`m
      ensures m == Saved(cfg, old(m), p, seen, fits, bulk, last)
      ensures sent == SavePage(cfg, old(m).cache, p, Looked(seen, old(m).ram(p)), fits, bulk, last).msg.Some?
    {
      hide SavePage, Deliver, SaveXbzrlePage, Looked;
      ghost var before := m;
      fits := true;
      var s := Looked(seen, m.ram(p));
      var msg: Option<Message> := None;
      if s.zero == Zeros() {
        msg := Some(ZeroPage);
        if !bulk && cfg.xbzrle { var _ := CacheInsert(p, Zeros(), s.allocOk); }
      } else if !bulk && cfg.xbzrle {
        msg, fits := SaveXbzrle(p, s, last);
      } else {
        msg := Some(FullPage(s.late));
      }
      PageSaved(cfg, before.cache, p, s, fits, bulk, last);
      m := m.(dest := Deliver(m.dest, p, msg));
      if !s.quiet { m := m.(ram := Update(m.ram, p, s.after), log := m.log + {p}); }
      return msg.Some?, fits;
    }

    /** Saves a page whose bit was just cleared, while the guest does what it likes, or nothing if it is stopped. */
    method SaveFound(p: nat, last: bool, stopped: bool) returns (sent: bool)
      requires cfg.slots > 0 && p in Pages(blocks) && p !in m.bitmap && p !in lost
      requires InvBut(cfg, m, Pages(blocks), bulk, last, lost, {p})
      modifies this`m
      ensures Inv(cfg, m, Pages(blocks), bulk, last, lost) && m.bitmap == old(m).bitmap
      ensures stopped ==> m.ram == old(m).ram && m.log == old(m).log
      ensures Untouched(old(m), m, {p})
      ensures old(m).cache == map[] ==> sent
    {
      hide Inv, InvBut, Pages, SavePage, Received;
      ghost var fits;
      var seen: Seen := *;
      if stopped { seen := seen.(quiet := true); }
      ghost var before := m;
      sent, fits := RamSavePage(p, last, seen);
      SaveRestores(cfg, before, Pages(blocks), p, seen, fits, bulk, last, lost);
      EmptyCacheSends(cfg, before.cache, p, Looked(seen, before.ram(p)), fits, bulk, last);
    }

    /** 'migration_bitmap_find_and_reset_dirty'. */
    method FindAndReset(b: Block, start: nat) returns (offset: nat)
      requires start <= b.len && (bulk ==> start < b.len)
      modifies this`m
      ensures start <= offset <= b.len && offset == FindOffset(b, old(m).bitmap, start, bulk)
      ensures m == if offset < b.len then Cleared(old(m), b.base + offset) else old(m)
    {
      var size := b.base + b.len;
      var next := b.base + start;
      if bulk && start > 0 {
        next := next + 1;
      } else {
        while next < size && next !in m.bitmap
          invariant b.base + start <= next <= size
          invariant NextBit(m.bitmap, size, next) == NextBit(m.bitmap, size, b.base + start)
        {
          next := next + 1;
        }
      }
      if next < size {
        m := m.(bitmap := m.bitmap - {next}, count := m.count - 1);
      }
      return next - b.base;
    }

    /** The cursor is where the search left it. */
    ghost predicate CursorReady()
      reads this
    {
      if bulk then BulkReady(blocks, m.bitmap, lastSeen, lastOffset) else lastSeen.Some?
    }

    /** One turn of the loop of 'ram_find_and_save_block'. */
    method Turn(last: bool, stopped: bool, at: Place, ghost m0: State, ghost c: Cursor, ghost handed: set<nat>)
      returns (at': Place, done: bool, sent: bool, ghost handed': set<nat>)
      requires lastSeen == c.seen && lastOffset == c.off && lost == c.lost
      requires Searching(cfg, blocks, m, bulk, last, stopped, m0, c, at, handed)
      modifies this`m, this`bulk
      ensures at'.block < |blocks| && (!done ==> Searching(cfg, blocks, m, bulk, last, stopped, m0, c, at', handed'))
      ensures !done ==> Further(at, |old(m).bitmap|, at', |m.bitmap|)
      ensures done ==> Searched(cfg, blocks, m, bulk, last, stopped, m0, c, at', sent, handed')
      ensures bulk ==> old(bulk)
      ensures old(bulk) && at.block < |blocks| && BulkFinds(blocks[at.block], old(m).bitmap, at.offset) ==>
        && done && sent && bulk && at' == at.(offset := FindOffset(blocks[at.block], old(m).bitmap, at.offset, true))
        && handed' == {blocks[at.block].base + at'.offset}
    {
      hide Inv, InvBut, Pages, FindOffset, Cleared, Searching, Searched;
      ghost var s := m;
      SearchPlace(cfg, blocks, m, bulk, last, stopped, m0, c, at, handed);
      SearchBulk(cfg, blocks, m, bulk, last, stopped, m0, c, at, handed);
      var b := blocks[at.block];
      var offset := FindAndReset(b, at.offset);
      at', done, sent, handed' := at.(offset := offset), false, false, handed;
      if at.complete && lastSeen == Some(at.block) && offset >= lastOffset {
        done := true;
        TurnEnds(cfg, blocks, s, bulk, last, stopped, m0, c, at, handed);
        return;
      }
      if offset >= b.len {
        TurnNext(cfg, blocks, s, bulk, last, stopped, m0, c, at, handed);
        if at.block + 1 == |blocks| {
          at' := Place(0, 0, true);
          bulk := false;
        } else {
          at' := Place(at.block + 1, 0, at.complete);
        }
      } else {
        var p := b.base + offset;
        TurnFinds(cfg, blocks, s, bulk, last, stopped, m0, c, at, handed, offset);
        handed' := handed + {p};
        sent := SaveFound(p, last, stopped);
        done := sent;
        TurnSaves(cfg, blocks, s, m, bulk, last, stopped, m0, c, at, handed, sent, offset, p);
      }
    }

    /** 'ram_find_and_save_block'. 'stopped': the guest does not run. 'handed': the pages given to 'ram_save_page'. */
    method FindAndSaveBlock(last: bool, stopped: bool) returns (sent: bool, ghost handed: set<nat>)
      requires GoodBlocks(blocks) && Valid(last) && CursorReady()
      modifies this
      ensures Valid(last) && CursorReady() && handed <= old(m).bitmap * Pages(blocks) && (bulk ==> old(bulk))
      ensures stopped ==> m.ram == old(m).ram && m.log == old(m).log
      ensures Untouched(old(m), m, handed) && (!sent ==> m.bitmap * Pages(blocks) == {} && !bulk)
      ensures !LosesAt(blocks, old(m), old(Now())) ==>
        lost == old(lost) && m.bitmap == old(m).bitmap - handed && (sent ==> handed != {})
      ensures LosesAt(blocks, old(m), old(Now())) ==>
        var page := blocks[|blocks| - 1].base + old(lastOffset);
        !sent && handed == {} && m == Cleared(old(m), page) && lost == {page} - m.log
      ensures sent ==> lastSeen.Some? && blocks[lastSeen.value].base + lastOffset !in m.bitmap
      ensures var b := if old(lastSeen).None? then 0 else old(lastSeen).value;
        old(bulk) && BulkFinds(blocks[b], old(m).bitmap, old(lastOffset)) ==>
          && sent && bulk && lastSeen == Some(b)
          && lastOffset == FindOffset(blocks[b], old(m).bitmap, old(lastOffset), true)
          && handed == {blocks[b].base + lastOffset}
    {
      hide Inv, Pages, BulkReady, LosesPage, LastPage, Cleared, GoodBlocks, Searched, FindOffset, Untouched, BulkFinds;
      ghost var m0, c := m, Now();
      var at;
      at, sent, handed := Search(last, stopped);
      SearchOver(cfg, blocks, m, bulk, last, stopped, m0, c, at, sent, handed);
      if LosesPage(blocks, m0.bitmap, c.bulk, c.seen, c.off) {
        PageForgotten(cfg, m0, blocks, last, c);
        lost := {blocks[|blocks| - 1].base + c.off} - m0.log;
      }
      lastSeen := Some(at.block);
      lastOffset := at.offset;
    }

    /** The loop of 'ram_find_and_save_block', and where it ends. */
    method Search(last: bool, stopped: bool) returns (at: Place, sent: bool, ghost handed: set<nat>)
      requires GoodBlocks(blocks) && Valid(last) && CursorReady()
      modifies this`m, this`bulk
      ensures (bulk ==> old(bulk))
      ensures Searched(cfg, blocks, m, bulk, last, stopped, old(m), old(Now()), at, sent, handed)
      ensures var b := if lastSeen.None? then 0 else lastSeen.value;
        old(bulk) && BulkFinds(blocks[b], old(m).bitmap, lastOffset) ==>
          && sent && bulk && at == Place(b, FindOffset(blocks[b], old(m).bitmap, lastOffset, true), false)
          && handed == {blocks[b].base + at.offset}
    {
      hide Inv, Pages, BulkReady, LastPage, GoodBlocks, Searching, Searched, FindOffset, BulkFinds;
      ghost var m0, c := m, Now();
      ghost var first := true;
      at := Place(if lastSeen.None? then 0 else lastSeen.value, lastOffset, false);
      var done := false;
      sent, handed := false, {};
      SearchStarts(cfg, blocks, m, bulk, last, stopped, c, at);
      ghost var at0 := at;
      while !done
        invariant at.block < |blocks| && (bulk ==> old(bulk))
        invariant !done ==> Searching(cfg, blocks, m, bulk, last, stopped, m0, c, at, handed)
        invariant done ==> Searched(cfg, blocks, m, bulk, last, stopped, m0, c, at, sent, handed)
        invariant first ==> !done && at == at0 && m == m0 && bulk == c.bulk
        invariant !first && c.bulk && BulkFinds(blocks[at0.block], m0.bitmap, c.off) ==>
          && done && sent && bulk && at == at0.(offset := FindOffset(blocks[at0.block], m0.bitmap, c.off, true))
          && handed == {blocks[at0.block].base + at.offset}
        decreases !done, if at.complete then 0 else 1, |blocks| - at.block, |m.bitmap|
      {
        at, done, sent, handed := Turn(last, stopped, at, m0, c, handed);
        first := false;
      }
    }

    /** 'migration_bitmap_sync_range': a word at a time if the block starts at a word, otherwise page by page. */
    method BitmapSyncRange(b: Block)
      requires Valid(false)
      modifies this`m
      ensures Valid(false) && Moved(old(m), m) && forall x :: b.base <= x < b.base + b.len ==> x !in m.log
    {
      hide Inv, Pages, Synced;
      if b.base % BITS_PER_LONG == 0 {
        var k, words := b.base / BITS_PER_LONG, (b.len + BITS_PER_LONG - 1) / BITS_PER_LONG;
        var end := k + words;
        while k < end
          invariant b.base / BITS_PER_LONG <= k <= end && Valid(false) && Moved(old(m), m)
          invariant forall x :: b.base <= x < BITS_PER_LONG * k ==> x !in m.log
        {
          SyncStep(cfg, m, Pages(blocks), bulk, lost, Span(BITS_PER_LONG * k, BITS_PER_LONG));
          m := Synced(m, Span(BITS_PER_LONG * k, BITS_PER_LONG));
          k := k + 1;
        }
      } else {
        var addr := 0;
        while addr < b.len
          invariant 0 <= addr <= b.len && Valid(false) && Moved(old(m), m)
          invariant forall x :: b.base <= x < b.base + addr ==> x !in m.log
        {
          SyncStep(cfg, m, Pages(blocks), bulk, lost, {b.base + addr});
          if b.base + addr in m.log { m := Synced(m, {b.base + addr}); }
          addr := addr + 1;
        }
      }
    }

    /** 'migration_bitmap_sync': the whole dirty log goes into the migration bitmap. */
    method BitmapSync()
      requires Valid(false) && CursorReady()
      modifies this`m
      ensures Valid(false) && CursorReady() && m.log == {}
      ensures m.bitmap == old(m).bitmap + old(m).log && m.ram == old(m).ram && m.dest == old(m).dest
      ensures m.cache == old(m).cache
    {
      hide Inv, Pages, BulkReady;
      var i := 0;
      while i < |blocks|
        invariant 0 <= i <= |blocks| && Valid(false) && Moved(old(m), m)
        invariant forall k :: 0 <= k < i ==> NoneOf(blocks[k], m.log)
      {
        ghost var log := m.log;
        BitmapSyncRange(blocks[i]);
        i := i + 1;
      }
      LogEmpty(cfg, m, blocks, bulk, lost);
      ReadyStill(blocks, old(m).bitmap, m.bitmap, lastSeen, lastOffset);
    }

    /** 'ram_save_complete', with the guest stopped: the destination ends up with the guest's memory, except for the
        one page that was lost before, or is lost now because the end of the bulk stage falls into the first search. */
    method RamSaveComplete()
      requires GoodBlocks(blocks) && Valid(false) && CursorReady()
      modifies this
      ensures m.ram == old(m).ram && lost <= LastPage(blocks)
      ensures lost == if LosesPage(blocks, old(m).bitmap + old(m).log, old(bulk), old(lastSeen), old(lastOffset))
        then {blocks[|blocks| - 1].base + old(lastOffset)} else old(lost)
      ensures forall p :: p in Pages(blocks) && p !in lost ==> m.dest(p) == m.ram(p)
      ensures forall p :: p in lost ==> m.dest(p) == old(m).dest(p)
      ensures (forall p :: p in Pages(blocks) ==> m.dest(p) == m.ram(p)) <==>
        forall p :: p in lost ==> old(m).dest(p) == old(m).ram(p)
    {
      hide Inv, Pages, BulkReady, LosesPage, LastPage, GoodBlocks, CursorReady, Untouched;
      BitmapSync();
      LastStage(cfg, m, Pages(blocks), bulk, lost);
      ghost var m1, known := m, lost;
      NotMarked(cfg, m, Pages(blocks), bulk, lost);
      ghost var arrived := SaveRest();
      NothingLeft(cfg, m, Pages(blocks), bulk, true, lost);
      StaySame(m1, m, arrived, lost);
      InPages(blocks, lost);
    }

    /** The loop of 'ram_save_complete'; 'arrived': the pages that were given to 'ram_save_page'. */
    method SaveRest() returns (ghost arrived: set<nat>)
      requires GoodBlocks(blocks) && Valid(true) && CursorReady() && m.log == {}
      modifies this
      ensures Valid(true) && m.ram == old(m).ram && m.log == {} && m.bitmap * Pages(blocks) == {}
      ensures Untouched(old(m), m, arrived) && arrived <= old(m).bitmap
      ensures lost == LostAtEnd(blocks, old(m), old(Now())) && (LosesAt(blocks, old(m), old(Now())) ==> arrived == {})
    {
      hide Inv, Pages, BulkReady, LosesAt, LastPage, GoodBlocks, Cleared, CursorReady, Untouched, BulkFinds, Resting;
      hide LostAtEnd;
      ghost var m0, c := m, Now();
      ghost var first := true;
      arrived := {};
      RestStarts(blocks, m, c);
      var sent := true;
      while sent
        invariant Valid(true) && CursorReady() && Resting(blocks, m0, c, m, Now(), arrived, first, sent)
        decreases sent, |m.bitmap|
      {
        sent, arrived := RestTurn(m0, c, arrived, first);
        first := false;
      }
      RestEnds(blocks, m0, c, m, Now(), arrived, first);
    }

    /** One turn of that loop. */
    method RestTurn(ghost m0: State, ghost c: Cursor, ghost arrived: set<nat>, ghost first: bool)
      returns (sent: bool, ghost arrived': set<nat>)
      requires GoodBlocks(blocks) && Valid(true) && CursorReady()
      requires Resting(blocks, m0, c, m, Now(), arrived, first, true)
      modifies this
      ensures Valid(true) && CursorReady() && Resting(blocks, m0, c, m, Now(), arrived', false, sent)
      ensures sent ==> |m.bitmap| < |old(m).bitmap|
    {
      hide Inv, Pages, BulkReady, LosesAt, LastPage, Cleared, CursorReady, Untouched, BulkFinds, Resting, FindOffset;
      ghost var m1, c1, handed := m, Now(), {};
      sent, handed := FindAndSaveBlock(true, true);
      RestStep(blocks, m0, c, m1, c1, m, Now(), arrived, handed, first, sent);
      arrived' := arrived + handed;
    }
  }

  ghost predicate LosesAt(blocks: seq<Block>, m: State, c: Cursor) {
    LosesPage(blocks, m.bitmap, c.bulk, c.seen, c.off)
  }

  /** The pages that are lost when 'ram_save_complete' is over. */
  ghost function LostAtEnd(blocks: seq<Block>, m: State, c: Cursor): set<nat> {
    if LosesAt(blocks, m, c) && |blocks| > 0 then {blocks[|blocks| - 1].base + c.off} else c.lost
  }

  /** How far the loop of 'ram_save_complete' is: m0 and c0 are the state and the cursor it started from. Only its
      first search can lose a page. */
  ghost predicate Resting(blocks: seq<Block>, m0: State, c0: Cursor, m: State, c: Cursor, arrived: set<nat>,
                          first: bool, sent: bool) {
    && m.ram == m0.ram && m.log == {} && Untouched(m0, m, arrived) && arrived <= m0.bitmap
    && (first ==> sent && m == m0 && c == c0 && arrived == {})
    && (!first ==> c.lost == LostAtEnd(blocks, m0, c0) && !LosesAt(blocks, m, c) && m.bitmap <= m0.bitmap)
    && (!first && LosesAt(blocks, m0, c0) ==> !sent && arrived == {})
    && (!sent ==> m.bitmap * Pages(blocks) == {})
  }

  lemma RestStarts(blocks: seq<Block>, m: State, c: Cursor)
    requires m.log == {}
    ensures Resting(blocks, m, c, m, c, {}, true, true)
  {
  }

  lemma RestEnds(blocks: seq<Block>, m0: State, c0: Cursor, m: State, c: Cursor, arrived: set<nat>, first: bool)
    requires Resting(blocks, m0, c0, m, c, arrived, first, false)
    ensures m.ram == m0.ram && m.log == {} && Untouched(m0, m, arrived) && arrived <= m0.bitmap
    ensures c.lost == LostAtEnd(blocks, m0, c0) && (LosesAt(blocks, m0, c0) ==> arrived == {})
    ensures m.bitmap * Pages(blocks) == {}
  {
    hide LosesAt, Pages, Untouched;
  }

  /** One more search; handed and sent are as 'FindAndSaveBlock' gives them. */
  lemma RestStep(blocks: seq<Block>, m0: State, c0: Cursor, m1: State, c1: Cursor, m: State, c: Cursor,
                 arrived: set<nat>, handed: set<nat>, first: bool, sent: bool)
    requires |blocks| > 0 && Resting(blocks, m0, c0, m1, c1, arrived, first, true)
    requires m.ram == m1.ram && m.log == m1.log && Untouched(m1, m, handed) && handed <= m1.bitmap * Pages(blocks)
    requires !sent ==> m.bitmap * Pages(blocks) == {} && !c.bulk
    requires !LosesAt(blocks, m1, c1) ==> c.lost == c1.lost && m.bitmap == m1.bitmap - handed && (sent ==> handed != {})
    requires LosesAt(blocks, m1, c1) ==>
      var page := blocks[|blocks| - 1].base + c1.off;
      !sent && handed == {} && m == Cleared(m1, page) && c.lost == {page} - m.log
    requires sent ==> c.seen.Some? && c.seen.value < |blocks| && blocks[c.seen.value].base + c.off !in m.bitmap
    ensures Resting(blocks, m0, c0, m, c, arrived + handed, false, sent) && (sent ==> |m.bitmap| < |m1.bitmap|)
  {
    hide LosesAt, Pages, Untouched, Resting, Cleared;
    NotThere(blocks, m, c, sent);
    if LosesAt(blocks, m1, c1) {
      RestLoses(blocks, m0, c0, m1, c1, m, c, arrived, first);
      assert arrived + handed == arrived;
    } else {
      RestSends(blocks, m0, c0, m1, c1, m, c, arrived, handed, first, sent);
      if sent { Fewer(m1.bitmap, handed, Pages(blocks)); }
    }
  }

  lemma RestLoses(blocks: seq<Block>, m0: State, c0: Cursor, m1: State, c1: Cursor, m: State, c: Cursor,
                  arrived: set<nat>, first: bool)
    requires |blocks| > 0 && Resting(blocks, m0, c0, m1, c1, arrived, first, true) && LosesAt(blocks, m1, c1)
    requires var page := blocks[|blocks| - 1].base + c1.off; m == Cleared(m1, page) && c.lost == {page} - m.log
    requires m.bitmap * Pages(blocks) == {} && !LosesAt(blocks, m, c) && Untouched(m1, m, {})
    ensures Resting(blocks, m0, c0, m, c, arrived, false, false)
  {
    hide LosesAt, Pages, Untouched;
    TouchMore(m0, m1, m, arrived, {});
    assert arrived + {} == arrived;
  }

  lemma RestSends(blocks: seq<Block>, m0: State, c0: Cursor, m1: State, c1: Cursor, m: State, c: Cursor,
                  arrived: set<nat>, handed: set<nat>, first: bool, sent: bool)
    requires Resting(blocks, m0, c0, m1, c1, arrived, first, true) && !LosesAt(blocks, m1, c1)
    requires m.ram == m1.ram && m.log == m1.log && handed <= m1.bitmap && m.bitmap == m1.bitmap - handed
    requires c.lost == c1.lost && (!sent ==> m.bitmap * Pages(blocks) == {}) && !LosesAt(blocks, m, c)
    requires Untouched(m1, m, handed)
    ensures Resting(blocks, m0, c0, m, c, arrived + handed, false, sent)
  {
    hide LosesAt, Pages, Untouched;
    TouchMore(m0, m1, m, arrived, handed);
  }

  /** After a search, the next one loses nothing. */
  lemma NotThere(blocks: seq<Block>, m: State, c: Cursor, sent: bool)
    requires if sent then c.seen.Some? && c.seen.value < |blocks| && blocks[c.seen.value].base + c.off !in m.bitmap
      else !c.bulk
    ensures !LosesAt(blocks, m, c)
  {
    hide Pages;
    if sent { assert blocks[c.seen.value].base + c.off !in m.bitmap * Pages(blocks); }
  }

  /** Only these pages have arrived meanwhile. */
  ghost predicate Untouched(m: State, m': State, sent: set<nat>) {
    forall p :: p !in sent ==> m'.dest(p) == m.dest(p)
  }

  lemma ClearUntouched(m: State, p: nat)
    ensures Untouched(m, Cleared(m, p), {})
  {
  }

  /** Pages that were not marked, or among which nothing has arrived, are as before. */
  lemma StaySame(m: State, m': State, arrived: set<nat>, lost: set<nat>)
    requires Untouched(m, m', arrived) && lost !! arrived
    ensures forall p :: p in lost ==> m'.dest(p) == m.dest(p)
  {
  }

  lemma NotMarked(cfg: Config, m: State, pages: set<nat>, bulk: bool, lost: set<nat>)
    requires cfg.slots > 0 && Inv(cfg, m, pages, bulk, true, lost)
    ensures lost !! m.bitmap && (bulk ==> lost == {})
  {
  }

  lemma InPages(blocks: seq<Block>, lost: set<nat>)
    requires lost <= LastPage(blocks)
    ensures lost <= Pages(blocks)
  {
    forall p | p in lost ensures p in Pages(blocks) {
      InSomeBlock(blocks, p);
      assert p in PagesOf(blocks[|blocks| - 1]);
    }
  }

  lemma TouchMore(m: State, m': State, m'': State, sent: set<nat>, sent': set<nat>)
    requires Untouched(m, m', sent) && Untouched(m', m'', sent')
    ensures Untouched(m, m'', sent + sent')
  {
  }

  // ----- synchronising the bitmap -----

  const BITS_PER_LONG: nat := 64

  ghost predicate NoneOf(b: Block, log: set<nat>) {
    forall x :: b.base <= x < b.base + b.len ==> x !in log
  }

  /** Some pages have gone from the log to the bitmap; nothing else has changed. */
  ghost predicate Moved(m: State, m': State) {
    && m'.ram == m.ram && m'.dest == m.dest && m'.cache == m.cache && m'.log <= m.log
    && m'.bitmap <= m.bitmap + m.log && m.bitmap <= m'.bitmap && m.log <= m'.log + m'.bitmap
  }

  lemma SyncStep(cfg: Config, m: State, pages: set<nat>, bulk: bool, lost: set<nat>, taken: set<nat>)
    requires cfg.slots > 0 && Inv(cfg, m, pages, bulk, false, lost)
    ensures Inv(cfg, Synced(m, taken), pages, bulk, false, lost) && Moved(m, Synced(m, taken))
    ensures Synced(m, taken).log == m.log - taken
  {
    hide Inv;
    SyncKeeps(cfg, m, pages, bulk, lost, taken);
  }

  lemma LogEmpty(cfg: Config, m: State, blocks: seq<Block>, bulk: bool, lost: set<nat>)
    requires cfg.slots > 0 && Inv(cfg, m, Pages(blocks), bulk, false, lost)
    requires forall k :: 0 <= k < |blocks| ==> NoneOf(blocks[k], m.log)
    ensures m.log == {}
  {
    forall p | p in Pages(blocks) ensures p !in m.log {
      InSomeBlock(blocks, p);
      var i :| 0 <= i < |blocks| && p in PagesOf(blocks[i]);
      assert NoneOf(blocks[i], m.log);
    }
  }

  lemma ReadyStill(blocks: seq<Block>, bitmap: set<nat>, bitmap': set<nat>, seen: Option<nat>, off: nat)
    requires bitmap <= bitmap'
    ensures BulkReady(blocks, bitmap, seen, off) ==> BulkReady(blocks, bitmap', seen, off)
  {
    if BulkReady(blocks, bitmap, seen, off) {
      forall k, lo: nat | 0 <= k < |blocks| && DirtyPart(bitmap, blocks[k], lo)
        ensures DirtyPart(bitmap', blocks[k], lo)
      {
      }
    }
  }

  lemma LastStage(cfg: Config, m: State, pages: set<nat>, bulk: bool, lost: set<nat>)
    requires cfg.slots > 0 && Inv(cfg, m, pages, bulk, false, lost)
    ensures Inv(cfg, m, pages, bulk, true, lost)
  {
  }

  /** What the search leaves when it loses a page. */
  lemma PageForgotten(cfg: Config, m: State, blocks: seq<Block>, last: bool, c: Cursor)
    requires cfg.slots > 0 && Inv(cfg, m, Pages(blocks), c.bulk, last, c.lost)
    requires LosesPage(blocks, m.bitmap, c.bulk, c.seen, c.off)
    ensures var page := blocks[|blocks| - 1].base + c.off; var m' := Cleared(m, page);
      && Inv(cfg, m', Pages(blocks), false, last, {page} - m.log) && {page} - m.log <= LastPage(blocks)
      && m'.log == m.log && m'.bitmap * Pages(blocks) == {} && m'.bitmap <= m.bitmap && Untouched(m, m', {})
  {
    hide Pages, Inv;
    var page := blocks[|blocks| - 1].base + c.off;
    assert page in m.bitmap * Pages(blocks);
    NoneLost(cfg, m, Pages(blocks), last, c.lost);
    ClearLoses(cfg, m, Pages(blocks), last, page);
  }

  lemma NoneLost(cfg: Config, m: State, pages: set<nat>, last: bool, lost: set<nat>)
    requires cfg.slots > 0 && Inv(cfg, m, pages, true, last, lost)
    ensures lost == {}
  {
  }

  lemma Fewer(before: set<nat>, handed: set<nat>, pages: set<nat>)
    requires handed <= before * pages && handed != {}
    ensures |before - handed| < |before|
  {
    var p :| p in handed;
    assert before - handed <= before - {p};
    Smaller(before - handed, before - {p});
  }

  lemma {:induction false} Smaller(a: set<nat>, b: set<nat>)
    requires a <= b
    ensures |a| <= |b|
    decreases |a|
  {
    if a != {} {
      var x :| x in a;
      Smaller(a - {x}, b - {x});
    }
  }

  // ----- whole migrations -----

  /** What can happen before the guest is stopped: it writes a page, the log is synchronised ('ram_save_pending'), or
      the next page is searched for and sent ('ram_save_iterate'). */
  datatype Event = Write(page: nat, data: Ram) | Pending | Iterate

  /** A migration from setup to completion: whatever happens, and in whatever order, the destination ends up with the
      guest's memory, but for the very last page of the last block if that is lost. */
  method Migrate(cfg: Config, blocks: seq<Block>, ram: nat -> Ram, dest: nat -> Ram, gaps: set<nat>, events: seq<Event>)
    returns (r: RamMigration)
    requires cfg.slots > 0 && GoodBlocks(blocks) && gaps !! Pages(blocks)
    requires forall e :: e in events && e.Write? ==> e.page in Pages(blocks)
    ensures fresh(r) && r.blocks == blocks && r.lost <= LastPage(blocks)
    ensures forall p :: p in Pages(blocks) && p !in r.lost ==> r.m.dest(p) == r.m.ram(p)
  {
    hide Pages, LosesPage, LastPage, BulkReady, Inv, BulkFinds, Untouched, Cleared;
    r := new RamMigration(cfg, blocks, ram, dest, gaps);
    AllDirty(blocks, r.m.bitmap);
    for i := 0 to |events|
      invariant fresh(r) && r.blocks == blocks && r.Valid(false) && r.CursorReady()
    {
      match events[i]
      case Write(page, data) => r.GuestWrite(page, data);
      case Pending => r.BitmapSync();
      case Iterate =>
        ghost var handed;
        var sent;
        sent, handed := r.FindAndSaveBlock(false, false);
    }
    r.RamSaveComplete();
  }

  /** One block of two pages. */
  function TwoPages(): seq<Block> { [Block(0, 2)] }

  lemma TwoPagesAre()
    ensures Pages(TwoPages()) == {0, 1} && GoodBlocks(TwoPages()) && TwoPages() == [Block(0, 2)]
    ensures FindOffset(Block(0, 2), {0, 1}, 0, true) == 0 && FindOffset(Block(0, 2), {1}, 0, true) == 1
    ensures LosesPage(TwoPages(), {1}, true, Some(0), 1)
  {
    assert Pages(TwoPages()) == PagesOf(Block(0, 2)) + Pages([]);
    assert {1} * {0, 1} == {1};
  }

  /** Memory of zeros. */
  function Empty(p: nat): Ram { Zeros() }

  lemma EmptyAt(p: nat)
    ensures Empty(p) == Zeros()
  {
  }

  /** The bulk stage sends the first page. */
  method SendFirst(cfg: Config) returns (r: RamMigration)
    requires cfg.slots > 0
    ensures fresh(r) && r.cfg == cfg && r.blocks == TwoPages() && r.Valid(false) && r.CursorReady()
    ensures r.bulk && r.lastSeen == Some(0) && r.lastOffset == 0 && r.m.bitmap == {1} && r.m.log == {}
    ensures r.m.ram(1) == Zeros() && r.lost == {}
  {
    hide Pages, FindOffset, LosesPage, GoodBlocks, BulkReady, Inv, LastPage, Untouched, Cleared, TwoPages, Empty;
    TwoPagesAre();
    r := new RamMigration(cfg, TwoPages(), Empty, Empty, {});
    EmptyAt(1);
    assert r.m.bitmap == {0, 1};
    AllDirty(r.blocks, r.m.bitmap);
    CleanLoses(r.blocks, r.m.bitmap, r.lastSeen, r.lastOffset);
    ghost var handed;
    var sent;
    sent, handed := r.FindAndSaveBlock(false, true);
  }

  /** The bulk stage sends both pages. */
  method SendBoth(cfg: Config) returns (r: RamMigration)
    requires cfg.slots > 0
    ensures fresh(r) && r.cfg == cfg && r.blocks == TwoPages() && r.Valid(false) && r.CursorReady()
    ensures r.bulk && r.lastSeen == Some(0) && r.lastOffset == 1 && r.m.bitmap == {} && r.m.log == {}
    ensures r.m.ram(1) == Zeros() && r.lost == {}
  {
    hide Pages, FindOffset, LosesPage, GoodBlocks, BulkReady, Inv, LastPage, Untouched, Cleared;
    TwoPagesAre();
    r := SendFirst(cfg);
    CleanLoses(r.blocks, r.m.bitmap, r.lastSeen, r.lastOffset);
    ghost var handed;
    var sent;
    sent, handed := r.FindAndSaveBlock(false, true);
    assert r.m.bitmap == {};
  }

  lemma CleanLoses(blocks: seq<Block>, bitmap: set<nat>, seen: Option<nat>, off: nat)
    requires off == 0
    ensures !LosesPage(blocks, bitmap, true, seen, off)
  {
  }

  /** A migration that loses a page: the bulk stage sends both pages, the guest writes the second one, and the
      migration is completed. The destination is left with the old page. */
  method PageLost(cfg: Config, data: Ram) returns (r: RamMigration)
    requires cfg.slots > 0 && data != Zeros()
    ensures fresh(r) && r.blocks == TwoPages() && 1 in Pages(r.blocks)
    ensures r.m.ram(1) == data && r.m.dest(1) == Zeros()
  {
    hide Pages, FindOffset, LosesPage, GoodBlocks, BulkReady, Inv;
    TwoPagesAre();
    r := SendBoth(cfg);
    NothingLeft(cfg, r.m, Pages(r.blocks), r.bulk, false, r.lost);
    r.GuestWrite(1, data);
    assert r.m.bitmap + r.m.log == {1};
    r.RamSaveComplete();
  }

  lemma AllDirty(blocks: seq<Block>, bitmap: set<nat>)
    requires Pages(blocks) <= bitmap
    ensures BulkReady(blocks, bitmap, None, 0)
  {
    forall k | 0 <= k < |blocks| ensures DirtyPart(bitmap, blocks[k], 0) {
      forall x | blocks[k].base <= x < blocks[k].base + blocks[k].len ensures x in bitmap {
        assert x in PagesOf(blocks[k]);
        InSomeBlock(blocks, x);
      }
    }
  }

  // ----- one turn of the search -----

  /** Local variables of the search. */
  datatype Place = Place(block: nat, offset: nat, complete: bool)

  /** What holds while the search is on: m0 and c are the state and the cursor it started from. */
  ghost predicate Searching(cfg: Config, blocks: seq<Block>, m: State, bulk: bool, last: bool, stopped: bool, m0: State,
                            c: Cursor, at: Place, handed: set<nat>) {
    && GoodBlocks(blocks) && cfg.slots > 0 && at.block < |blocks| && at.offset <= blocks[at.block].len
    && Inv(cfg, m, Pages(blocks), bulk, last, c.lost)
    && Scanning(blocks, m.bitmap, c, at.block, at.offset, at.complete, bulk)
    && m.bitmap == m0.bitmap - handed && handed <= m0.bitmap * Pages(blocks) && Untouched(m0, m, handed)
    && (c.bulk ==> handed == {} && m == m0 && m0.cache == map[]) && (stopped ==> m.ram == m0.ram && m.log == m0.log)
  }

  /** What holds when it is over. */
  ghost predicate Searched(cfg: Config, blocks: seq<Block>, m: State, bulk: bool, last: bool, stopped: bool, m0: State,
                           c: Cursor, at: Place, sent: bool, handed: set<nat>) {
    && cfg.slots > 0 && at.block < |blocks| && at.offset <= blocks[at.block].len && handed <= m0.bitmap * Pages(blocks)
    && (bulk ==> BulkReady(blocks, m.bitmap, Some(at.block), at.offset))
    && (stopped ==> m.ram == m0.ram && m.log == m0.log)
    && (sent ==> blocks[at.block].base + at.offset !in m.bitmap)
    && if LosesPage(blocks, m0.bitmap, c.bulk, c.seen, c.off) then
         !sent && handed == {} && m == Cleared(m0, blocks[|blocks| - 1].base + c.off) && !bulk
       else
         && Inv(cfg, m, Pages(blocks), bulk, last, c.lost) && m.bitmap == m0.bitmap - handed && Untouched(m0, m, handed)
         && (sent ==> handed != {}) && (!sent ==> m.bitmap * Pages(blocks) == {} && !bulk)
  }

  /** The search has made progress. */
  predicate Further(at: Place, dirty: nat, at': Place, dirty': nat) {
    if at'.complete != at.complete then at'.complete
    else at'.block > at.block || (at'.block == at.block && dirty' < dirty)
  }

  lemma TurnEnds(cfg: Config, blocks: seq<Block>, m: State, bulk: bool, last: bool, stopped: bool, m0: State, c: Cursor,
                 at: Place, handed: set<nat>)
    requires Searching(cfg, blocks, m, bulk, last, stopped, m0, c, at, handed) && at.complete
    requires c.seen == Some(at.block)
    requires FindOffset(blocks[at.block], m.bitmap, at.offset, bulk) >= c.off
    ensures var b := blocks[at.block]; var offset := FindOffset(b, m.bitmap, at.offset, bulk);
      var m' := if offset < b.len then Cleared(m, b.base + offset) else m;
      offset <= b.len ==> Searched(cfg, blocks, m', bulk, last, stopped, m0, c, at.(offset := offset), false, handed)
  {
    hide Inv, Scanning, BulkReady, LosesPage, FindOffset, GoodBlocks, Pages;
    var offset := FindOffset(blocks[at.block], m.bitmap, at.offset, bulk);
    InBulk(blocks, m.bitmap, c, at.block, at.offset, at.complete, bulk);
    ScanDone(blocks, m.bitmap, c, at.block, at.offset, at.complete, bulk);
    if offset <= blocks[at.block].len { LastLook(blocks, m.bitmap, c, at.block, offset); }
    NoLoss(blocks, m0.bitmap, c);
  }

  lemma SearchPlace(cfg: Config, blocks: seq<Block>, m: State, bulk: bool, last: bool, stopped: bool, m0: State,
                    c: Cursor, at: Place, handed: set<nat>)
    requires Searching(cfg, blocks, m, bulk, last, stopped, m0, c, at, handed)
    ensures cfg.slots > 0 && at.block < |blocks| && at.offset <= blocks[at.block].len
    ensures (bulk ==> at.offset < blocks[at.block].len)
  {
    hide Inv, Scanning, BulkReady, LosesPage, GoodBlocks, Pages;
    InBulk(blocks, m.bitmap, c, at.block, at.offset, at.complete, bulk);
  }

  lemma SearchBulk(cfg: Config, blocks: seq<Block>, m: State, bulk: bool, last: bool, stopped: bool, m0: State,
                   c: Cursor, at: Place, handed: set<nat>)
    requires Searching(cfg, blocks, m, bulk, last, stopped, m0, c, at, handed)
    ensures bulk ==> !at.complete && handed == {} && m == m0 && m.cache == map[]
  {
    hide Inv, Scanning, BulkReady, LosesPage, GoodBlocks, Pages;
    InBulk(blocks, m.bitmap, c, at.block, at.offset, at.complete, bulk);
  }

  lemma SearchStarts(cfg: Config, blocks: seq<Block>, m: State, bulk: bool, last: bool, stopped: bool, c: Cursor,
                     at: Place)
    requires GoodBlocks(blocks) && cfg.slots > 0 && Inv(cfg, m, Pages(blocks), bulk, last, c.lost) && c.bulk == bulk
    requires c.seen.Some? ==> c.seen.value < |blocks| && c.off <= blocks[c.seen.value].len
    requires if c.bulk then BulkReady(blocks, m.bitmap, c.seen, c.off) else c.seen.Some?
    requires at == Place(if c.seen.None? then 0 else c.seen.value, c.off, false)
    ensures at.block < |blocks| && Searching(cfg, blocks, m, bulk, last, stopped, m, c, at, {})
  {
    hide Inv, Scanning, BulkReady, LosesPage, GoodBlocks, Pages;
    ScanStart(blocks, m.bitmap, c, at.block, at.offset);
    IdleCache(cfg, m, Pages(blocks), bulk, last, c.lost);
  }

  lemma SearchOver(cfg: Config, blocks: seq<Block>, m: State, bulk: bool, last: bool, stopped: bool, m0: State,
                   c: Cursor, at: Place, sent: bool, handed: set<nat>)
    requires Searched(cfg, blocks, m, bulk, last, stopped, m0, c, at, sent, handed)
    ensures at.block < |blocks| && at.offset <= blocks[at.block].len && handed <= m0.bitmap * Pages(blocks)
    ensures cfg.slots > 0
    ensures (bulk ==> BulkReady(blocks, m.bitmap, Some(at.block), at.offset))
    ensures (stopped ==> m.ram == m0.ram && m.log == m0.log)
    ensures sent ==> blocks[at.block].base + at.offset !in m.bitmap
    ensures !LosesPage(blocks, m0.bitmap, c.bulk, c.seen, c.off) ==>
      && Inv(cfg, m, Pages(blocks), bulk, last, c.lost) && m.bitmap == m0.bitmap - handed && Untouched(m0, m, handed)
      && (sent ==> handed != {}) && (!sent ==> m.bitmap * Pages(blocks) == {} && !bulk)
    ensures LosesPage(blocks, m0.bitmap, c.bulk, c.seen, c.off) ==>
      !sent && handed == {} && m == Cleared(m0, blocks[|blocks| - 1].base + c.off) && !bulk
  {
    hide Inv, BulkReady, LosesPage, Pages, Cleared;
  }

  lemma TurnNext(cfg: Config, blocks: seq<Block>, m: State, bulk: bool, last: bool, stopped: bool, m0: State, c: Cursor,
                 at: Place, handed: set<nat>)
    requires Searching(cfg, blocks, m, bulk, last, stopped, m0, c, at, handed)
    requires FindOffset(blocks[at.block], m.bitmap, at.offset, bulk) >= blocks[at.block].len
    requires at.complete && c.seen == Some(at.block) ==> FindOffset(blocks[at.block], m.bitmap, at.offset, bulk) < c.off
    ensures if at.block + 1 == |blocks| then !at.complete && Searching(cfg, blocks, m, false, last, stopped, m0, c,
        Place(0, 0, true), handed)
      else Searching(cfg, blocks, m, bulk, last, stopped, m0, c, Place(at.block + 1, 0, at.complete), handed)
  {
    hide Inv, Scanning, BulkReady, LosesPage, GoodBlocks, Pages, FindOffset;
    ScanNext(blocks, m.bitmap, c, at.block, at.offset, at.complete, bulk);
    EndOfBulk(cfg, m, Pages(blocks), bulk, last, c.lost);
  }

  /** The search is on and has found a page at this offset. */
  ghost predicate Finding(cfg: Config, blocks: seq<Block>, m: State, bulk: bool, last: bool, stopped: bool, m0: State,
                          c: Cursor, at: Place, handed: set<nat>, offset: nat) {
    && at.block < |blocks| && offset == FindOffset(blocks[at.block], m.bitmap, at.offset, bulk) < blocks[at.block].len
    && (at.complete && c.seen == Some(at.block) ==> offset < c.off)
    && Searching(cfg, blocks, m, bulk, last, stopped, m0, c, at, handed)
  }

  /** The page was saved, with state m1 as the result. */
  ghost predicate FoundSaved(cfg: Config, blocks: seq<Block>, m: State, m1: State, bulk: bool, last: bool,
                             stopped: bool, c: Cursor, p: nat, sent: bool) {
    && cfg.slots > 0 && Inv(cfg, m1, Pages(blocks), bulk, last, c.lost) && (m.cache == map[] ==> sent)
    && Untouched(m, m1, {p}) && (stopped ==> m1.ram == m.ram && m1.log == m.log) && m1.bitmap == m.bitmap - {p}
  }

  /** After a page has been found and saved. */
  lemma TurnSaves(cfg: Config, blocks: seq<Block>, m: State, m1: State, bulk: bool, last: bool, stopped: bool,
                  m0: State, c: Cursor, at: Place, handed: set<nat>, sent: bool, offset: nat, p: nat)
    requires Finding(cfg, blocks, m, bulk, last, stopped, m0, c, at, handed, offset)
    requires at.block < |blocks| && p == blocks[at.block].base + offset
    requires FoundSaved(cfg, blocks, m, m1, bulk, last, stopped, c, p, sent)
    ensures |m1.bitmap| < |m.bitmap|
    ensures sent ==> Searched(cfg, blocks, m1, bulk, last, stopped, m0, c, at.(offset := offset), sent, handed + {p})
    ensures !sent ==> Searching(cfg, blocks, m1, bulk, last, stopped, m0, c, at.(offset := offset), handed + {p})
  {
    hide Inv, InvBut, Scanning, BulkReady, LosesPage, FindOffset, GoodBlocks, Pages, Untouched, Searching, Searched;
    TurnFinds(cfg, blocks, m, bulk, last, stopped, m0, c, at, handed, offset);
    OneFewer(m.bitmap, p, m1.bitmap);
    if sent { SentPage(cfg, blocks, m, m1, bulk, last, stopped, m0, c, at, handed, offset, p); }
    else { SkippedPage(cfg, blocks, m, m1, bulk, last, stopped, m0, c, at, handed, offset, p); }
  }

  lemma OneFewer(bitmap: set<nat>, p: nat, bitmap': set<nat>)
    requires p in bitmap && bitmap' == bitmap - {p}
    ensures |bitmap'| < |bitmap|
  {
    assert bitmap == bitmap' + {p};
  }

  lemma SentPage(cfg: Config, blocks: seq<Block>, m: State, m1: State, bulk: bool, last: bool, stopped: bool,
                 m0: State, c: Cursor, at: Place, handed: set<nat>, offset: nat, p: nat)
    requires Searching(cfg, blocks, m, bulk, last, stopped, m0, c, at, handed) && offset < blocks[at.block].len
    requires p == blocks[at.block].base + offset && p in m.bitmap && p in Pages(blocks)
    requires FoundSaved(cfg, blocks, m, m1, bulk, last, stopped, c, p, true)
    requires !LosesPage(blocks, m0.bitmap, c.bulk, c.seen, c.off)
    requires bulk ==> BulkReady(blocks, m.bitmap - {p}, Some(at.block), offset)
    ensures Searched(cfg, blocks, m1, bulk, last, stopped, m0, c, at.(offset := offset), true, handed + {p})
  {
    hide Inv, Scanning, BulkReady, LosesPage, GoodBlocks, Pages, Untouched;
    TouchMore(m0, m, m1, handed, {p});
  }

  lemma SkippedPage(cfg: Config, blocks: seq<Block>, m: State, m1: State, bulk: bool, last: bool, stopped: bool,
                    m0: State, c: Cursor, at: Place, handed: set<nat>, offset: nat, p: nat)
    requires Searching(cfg, blocks, m, bulk, last, stopped, m0, c, at, handed) && offset < blocks[at.block].len
    requires p == blocks[at.block].base + offset && p in m.bitmap && p in Pages(blocks)
    requires FoundSaved(cfg, blocks, m, m1, bulk, last, stopped, c, p, false)
    requires !c.bulk ==> Scanning(blocks, m.bitmap - {p}, c, at.block, offset, at.complete, bulk)
    ensures Searching(cfg, blocks, m1, bulk, last, stopped, m0, c, at.(offset := offset), handed + {p})
  {
    hide Inv, Scanning, BulkReady, LosesPage, GoodBlocks, Pages, Untouched;
    TouchMore(m0, m, m1, handed, {p});
  }

  lemma TurnFinds(cfg: Config, blocks: seq<Block>, m: State, bulk: bool, last: bool, stopped: bool, m0: State,
                  c: Cursor, at: Place, handed: set<nat>, offset: nat)
    requires cfg.slots > 0 && at.block < |blocks|
    requires Finding(cfg, blocks, m, bulk, last, stopped, m0, c, at, handed, offset)
    ensures var p := blocks[at.block].base + offset;
      && p in m.bitmap && p in Pages(blocks) && Cleared(m, p).bitmap == m.bitmap - {p} && Cleared(m, p).cache == m.cache
      && Cleared(m, p).ram == m.ram && Cleared(m, p).log == m.log
      && InvBut(cfg, Cleared(m, p), Pages(blocks), bulk, last, c.lost, {p}) && p !in c.lost
      && Untouched(m, Cleared(m, p), {})
      && !LosesPage(blocks, m0.bitmap, c.bulk, c.seen, c.off)
      && (!c.bulk ==> !bulk && Scanning(blocks, m.bitmap - {p}, c, at.block, offset, at.complete, bulk))
      && (bulk ==> BulkReady(blocks, m.bitmap - {p}, Some(at.block), offset))
  {
    hide Inv, InvBut, Scanning, BulkReady, LosesPage, FindOffset, GoodBlocks, Pages, Untouched;
    ScanPage(blocks, m.bitmap, c, at.block, at.offset, at.complete, bulk);
    ClearLeaves(cfg, m, Pages(blocks), bulk, last, c.lost, blocks[at.block].base + offset);
    ClearUntouched(m, blocks[at.block].base + offset);
    NoLoss(blocks, m0.bitmap, c);
  }

  lemma EmptyCacheSends(cfg: Config, cache: Cache, p: nat, s: Seen, fits: bool, bulk: bool, last: bool)
    requires cfg.slots > 0
    ensures cache == map[] ==> SavePage(cfg, cache, p, s, fits, bulk, last).msg.Some?
  {
  }

  /** The last look of a search. */
  lemma LastLook(blocks: seq<Block>, bitmap: set<nat>, c: Cursor, block: nat, offset': nat)
    requires GoodBlocks(blocks) && block < |blocks| && c.seen == Some(block) && offset' <= blocks[block].len
    requires offset' < blocks[block].len ==>
      c.bulk && offset' == c.off && LosesPage(blocks, bitmap, true, c.seen, c.off)
    requires offset' >= blocks[block].len ==> bitmap * Pages(blocks) == {}
    ensures offset' < blocks[block].len <==> LosesPage(blocks, bitmap, c.bulk, c.seen, c.off)
    ensures offset' < blocks[block].len ==> block == |blocks| - 1
  {
  }

  lemma NoLoss(blocks: seq<Block>, bitmap: set<nat>, c: Cursor)
    ensures !c.bulk ==> !LosesPage(blocks, bitmap, c.bulk, c.seen, c.off)
  {
  }

  lemma PageSaved(cfg: Config, cache: Cache, p: nat, s: Seen, fits: bool, bulk: bool, last: bool)
    requires cfg.slots > 0
    ensures SavePage(cfg, cache, p, s, fits, bulk, last) ==
      if s.zero == Zeros() then
        var inserted := if bulk || !cfg.xbzrle then None else Inserted(cfg, cache, p, Zeros(), s.allocOk);
        Result(Some(ZeroPage), if inserted.Some? then inserted.value else cache)
      else if !bulk && cfg.xbzrle then SaveXbzrlePage(cfg, cache, p, s, fits, last)
      else Result(Some(FullPage(s.late)), cache)
  {
  }
}
