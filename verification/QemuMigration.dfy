/** RAM migration (arch_init.c, page_cache.c): what the source sends for a page, and what that does to the
    destination. */
module Migration {
  import opened Common
  import opened Xbzrle

  const TARGET_PAGE_SIZE: nat := 4096

  /** Contents of a page of guest memory. */
  type Ram = p: Page | |p| == 4096 witness seq(4096, _ => 0)

  /** ZERO_TARGET_PAGE */
  function Zeros(): Ram {
    seq(4096, _ => 0)
  }

  /** What goes over the wire for one page. */
  datatype Message = ZeroPage | FullPage(data: Ram) | DeltaPage(delta: seq<Byte>)

  /** 'ram_load', for a page that holds 'host'; None if the delta is malformed. */
  function Load(host: Ram, msg: Message): Option<Page> {
    match msg
    case ZeroPage => Some(Zeros())
    case FullPage(data) => Some(data)
    case DeltaPage(delta) => Decode(delta, 0, host, 0)
  }

  // ----- the page cache -----

  datatype Item = Item(addr: nat, data: Ram)

  /** The slots in use, by position. */
  type Cache = map<nat, Item>

  /** 'slots' is the number of slots; the cache is used only after the bulk stage, and only if XBZRLE is on. */
  datatype Config = Config(slots: nat, xbzrle: bool)

  function Position(cfg: Config, addr: nat): nat
    requires cfg.slots > 0
  {
    addr % cfg.slots
  }

  predicate IsCached(cfg: Config, cache: Cache, addr: nat)
    requires cfg.slots > 0
  {
    Position(cfg, addr) in cache && cache[Position(cfg, addr)].addr == addr
  }

  /** 'cache_insert': fails only if the slot is empty and there is no memory for it. */
  function Inserted(cfg: Config, cache: Cache, addr: nat, data: Ram, allocOk: bool): Option<Cache>
    requires cfg.slots > 0
  {
    if Position(cfg, addr) in cache || allocOk then Some(cache[Position(cfg, addr) := Item(addr, data)]) else None
  }

  /** Inserting fails only for lack of memory; afterwards the page is cached, and of the others just the one in the
      same slot is gone. */
  lemma InsertedMeans(cfg: Config, cache: Cache, addr: nat, data: Ram, allocOk: bool, other: nat)
    requires cfg.slots > 0 && other != addr
    ensures Inserted(cfg, cache, addr, data, allocOk).None? <==> !allocOk && Position(cfg, addr) !in cache
    ensures var r := Inserted(cfg, cache, addr, data, allocOk);
      r.Some? ==>
        && IsCached(cfg, r.value, addr) && r.value[Position(cfg, addr)].data == data
        && (IsCached(cfg, r.value, other) <==>
              IsCached(cfg, cache, other) && Position(cfg, other) != Position(cfg, addr))
        && (IsCached(cfg, r.value, other) ==> r.value[Position(cfg, other)] == cache[Position(cfg, other)])
  {
  }

  // ----- one page -----

  /** The guest's memory and its dirty log, the destination's memory, the cache, and the migration bitmap with its
      count. */
  datatype State = State(ram: nat -> Ram, dest: nat -> Ram, cache: Cache, log: set<nat>, bitmap: set<nat>, count: int)

  /** What the migration thread sees of a page while the guest may be writing it. If it is not quiet, the page is
      written meanwhile: the thread may see anything at each of its looks, and the page ends up in the dirty log. */
  datatype Seen = Seen(quiet: bool, zero: Ram, copy: Ram, late: Ram, after: Ram, allocOk: bool)

  function Looked(s: Seen, page: Ram): Seen {
    if s.quiet then s.(zero := page, copy := page, late := page, after := page) else s
  }

  /** What 'ram_save_page' sends (None: the page has not changed since it was last sent) and what the cache is
      afterwards. 'fits': the delta fits into a page. */
  datatype Result = Result(msg: Option<Message>, cache: Cache)

  function SaveXbzrlePage(cfg: Config, cache: Cache, addr: nat, s: Seen, fits: bool, last: bool): Result
    requires cfg.slots > 0
  {
    if !IsCached(cfg, cache, addr) then
      var inserted := if last then None else Inserted(cfg, cache, addr, s.copy, s.allocOk);
      if inserted.Some? then Result(Some(FullPage(s.copy)), inserted.value) else Result(Some(FullPage(s.late)), cache)
    else
      var prev := cache[Position(cfg, addr)].data;
      if prev == s.copy then Result(None, cache)
      else if !fits then
        Result(Some(FullPage(s.late)), if last then cache else cache[Position(cfg, addr) := Item(addr, s.late)])
      else
        Result(Some(DeltaPage(Delta(prev, s.copy, 0))),
               if last then cache else cache[Position(cfg, addr) := Item(addr, s.copy)])
  }

  function SavePage(cfg: Config, cache: Cache, addr: nat, s: Seen, fits: bool, bulk: bool, last: bool): Result
    requires cfg.slots > 0
  {
    if s.zero == Zeros() then
      var inserted := if bulk || !cfg.xbzrle then None else Inserted(cfg, cache, addr, Zeros(), s.allocOk);
      Result(Some(ZeroPage), if inserted.Some? then inserted.value else cache)
    else if !bulk && cfg.xbzrle then SaveXbzrlePage(cfg, cache, addr, s, fits, last)
    else Result(Some(FullPage(s.late)), cache)
  }

  /** The page of the destination after it has received what was sent for it. */
  function Received(host: Ram, msg: Option<Message>): Option<Page> {
    if msg.None? then Some(host) else Load(host, msg.value)
  }

  /** The page that 'ram_save_page' means the destination to have. */
  function Intended(s: Seen, r: Result): Ram {
    match r.msg
    case None => s.copy
    case Some(ZeroPage) => Zeros()
    case Some(FullPage(data)) => data
    case Some(DeltaPage(_)) => s.copy
  }

  /** What is cached for a page is what the destination has. */
  ghost predicate CoherentAt(cfg: Config, cache: Cache, addr: nat, host: Ram)
    requires cfg.slots > 0
  {
    IsCached(cfg, cache, addr) ==> cache[Position(cfg, addr)].data == host
  }

  /** If the cache mirrors the destination for this page, then whatever is sent decodes to the intended page, and
      before the last stage the cache mirrors it again; the other pages are evicted or left alone. */
  lemma SavedIsReceived(cfg: Config, cache: Cache, addr: nat, host: Ram, s: Seen, fits: bool, bulk: bool, last: bool)
    requires cfg.slots > 0 && CoherentAt(cfg, cache, addr, host) && (bulk || !cfg.xbzrle ==> cache == map[])
    ensures var r := SavePage(cfg, cache, addr, s, fits, bulk, last);
      && Received(host, r.msg).Some? && Received(host, r.msg).value == Intended(s, r)
      && (!last ==> CoherentAt(cfg, r.cache, addr, Intended(s, r)))
      && (bulk || !cfg.xbzrle ==> r.cache == map[])
  {
    hide Delta, Decode;
    if IsCached(cfg, cache, addr) { RoundTrip(cache[Position(cfg, addr)].data, s.copy); }
  }

  /** A slot changes only by taking in this page. */
  lemma OtherSlots(cfg: Config, cache: Cache, addr: nat, s: Seen, fits: bool, bulk: bool, last: bool, other: nat)
    requires cfg.slots > 0 && other != addr
    ensures var r := SavePage(cfg, cache, addr, s, fits, bulk, last);
      IsCached(cfg, r.cache, other) ==>
        IsCached(cfg, cache, other) && r.cache[Position(cfg, other)] == cache[Position(cfg, other)]
  {
  }

  /** If the guest leaves the page alone, the destination ends up with exactly it. */
  lemma QuietSave(cfg: Config, cache: Cache, addr: nat, s: Seen, page: Ram, fits: bool, bulk: bool, last: bool)
    requires cfg.slots > 0 && s.quiet
    ensures Intended(Looked(s, page), SavePage(cfg, cache, addr, Looked(s, page), fits, bulk, last)) == page
  {
  }

  function Update(f: nat -> Ram, p: nat, v: Ram): nat -> Ram {
    (x: nat) => if x == p then v else f(x)
  }

  function Deliver(dest: nat -> Ram, p: nat, msg: Option<Message>): nat -> Ram {
    var r := Received(dest(p), msg);
    if r.Some? then Update(dest, p, r.value) else dest
  }

  /** The whole step for a page. */
  function Saved(cfg: Config, m: State, p: nat, seen: Seen, fits: bool, bulk: bool, last: bool): State
    requires cfg.slots > 0
  {
    var s := Looked(seen, m.ram(p));
    var r := SavePage(cfg, m.cache, p, s, fits, bulk, last);
    m.(ram := if s.quiet then m.ram else Update(m.ram, p, s.after),
       log := if s.quiet then m.log else m.log + {p},
       dest := Deliver(m.dest, p, r.msg), cache := r.cache)
  }

  // ----- the invariant -----

  /** Every page that differs from the destination's is marked, in the migration bitmap or in the guest's dirty log. */
  ghost predicate Flagged(m: State, pages: set<nat>, but: set<nat>) {
    forall p :: p in pages && p !in but && m.dest(p) != m.ram(p) ==> p in m.bitmap || p in m.log
  }

  /** The cache mirrors the destination; in the last stage, for the pages that are still to be sent. */
  ghost predicate Coherent(cfg: Config, m: State, last: bool, also: set<nat>)
    requires cfg.slots > 0
  {
    forall p :: (!last || p in m.bitmap || p in also) ==> CoherentAt(cfg, m.cache, p, m.dest(p))
  }

  ghost predicate CacheIdle(cfg: Config, m: State, bulk: bool) {
    bulk || !cfg.xbzrle ==> m.cache == map[]
  }

  ghost predicate Counted(m: State, pages: set<nat>) {
    m.count == |m.bitmap * pages| && m.log <= pages
  }

  /** A page that was taken out of the bitmap and not sent is lost, until the guest writes it again. */
  ghost predicate Forgotten(m: State, bulk: bool, lost: set<nat>) {
    lost !! m.bitmap && lost !! m.log && (bulk ==> lost == {})
  }

  /** The invariant, with page p (if any) taken out of the bitmap and not sent yet. */
  ghost predicate InvBut(cfg: Config, m: State, pages: set<nat>, bulk: bool, last: bool, lost: set<nat>, but: set<nat>)
    requires cfg.slots > 0
  {
    && Counted(m, pages) && Flagged(m, pages, but + lost) && Coherent(cfg, m, last, but) && CacheIdle(cfg, m, bulk)
    && Forgotten(m, bulk, lost)
  }

  ghost predicate Inv(cfg: Config, m: State, pages: set<nat>, bulk: bool, last: bool, lost: set<nat>)
    requires cfg.slots > 0
  {
    InvBut(cfg, m, pages, bulk, last, lost, {})
  }

  /** Saving the page that was taken out of the bitmap restores the invariant. */
  lemma SaveRestores(cfg: Config, m: State, pages: set<nat>, p: nat, seen: Seen, fits: bool, bulk: bool, last: bool,
                     lost: set<nat>)
    requires cfg.slots > 0 && p in pages && p !in m.bitmap && p !in lost
    requires InvBut(cfg, m, pages, bulk, last, lost, {p})
    ensures Inv(cfg, Saved(cfg, m, p, seen, fits, bulk, last), pages, bulk, last, lost)
  {
    hide SavePage, Flagged, Coherent, CacheIdle, Deliver;
    SavedShape(cfg, m, p, seen, fits, bulk, last);
    SavedFlagged(cfg, m, pages, p, seen, fits, bulk, last, lost);
    SavedCoherent(cfg, m, p, seen, fits, bulk, last);
  }

  lemma SavedShape(cfg: Config, m: State, p: nat, seen: Seen, fits: bool, bulk: bool, last: bool)
    requires cfg.slots > 0
    ensures var m' := Saved(cfg, m, p, seen, fits, bulk, last);
      && m'.bitmap == m.bitmap && m'.count == m.count && m'.log == (if seen.quiet then m.log else m.log + {p})
      && m'.cache == SavePage(cfg, m.cache, p, Looked(seen, m.ram(p)), fits, bulk, last).cache
      && (forall x :: x != p ==> m'.dest(x) == m.dest(x) && m'.ram(x) == m.ram(x))
      && (seen.quiet ==> m'.ram == m.ram)
  {
    hide SavePage;
  }

  /** What the destination has then is what was meant. */
  lemma SavedArrives(cfg: Config, m: State, p: nat, seen: Seen, fits: bool, bulk: bool, last: bool)
    requires cfg.slots > 0 && CoherentAt(cfg, m.cache, p, m.dest(p)) && CacheIdle(cfg, m, bulk)
    ensures var s := Looked(seen, m.ram(p)); var r := SavePage(cfg, m.cache, p, s, fits, bulk, last);
      && Saved(cfg, m, p, seen, fits, bulk, last).dest(p) == Intended(s, r)
      && (!last ==> CoherentAt(cfg, r.cache, p, Intended(s, r))) && (bulk || !cfg.xbzrle ==> r.cache == map[])
  {
    hide SavePage;
    SavedIsReceived(cfg, m.cache, p, m.dest(p), Looked(seen, m.ram(p)), fits, bulk, last);
  }

  lemma SavedFlagged(cfg: Config, m: State, pages: set<nat>, p: nat, seen: Seen, fits: bool, bulk: bool, last: bool,
                     lost: set<nat>)
    requires cfg.slots > 0 && Flagged(m, pages, {p} + lost) && Coherent(cfg, m, last, {p}) && CacheIdle(cfg, m, bulk)
    ensures Flagged(Saved(cfg, m, p, seen, fits, bulk, last), pages, {} + lost)
  {
    hide SavePage, Saved, CoherentAt;
    SavedShape(cfg, m, p, seen, fits, bulk, last);
    SavedArrives(cfg, m, p, seen, fits, bulk, last);
    if seen.quiet { QuietSave(cfg, m.cache, p, seen, m.ram(p), fits, bulk, last); }
  }

  lemma SavedCoherent(cfg: Config, m: State, p: nat, seen: Seen, fits: bool, bulk: bool, last: bool)
    requires cfg.slots > 0 && p !in m.bitmap && Coherent(cfg, m, last, {p}) && CacheIdle(cfg, m, bulk)
    ensures var m' := Saved(cfg, m, p, seen, fits, bulk, last); Coherent(cfg, m', last, {}) && CacheIdle(cfg, m', bulk)
  {
    hide SavePage, Saved;
    SavedShape(cfg, m, p, seen, fits, bulk, last);
    SavedArrives(cfg, m, p, seen, fits, bulk, last);
    var m' := Saved(cfg, m, p, seen, fits, bulk, last);
    forall x | !last || x in m'.bitmap ensures CoherentAt(cfg, m'.cache, x, m'.dest(x)) {
      assert CoherentAt(cfg, m.cache, x, m.dest(x));
      if x != p { OtherSlots(cfg, m.cache, p, Looked(seen, m.ram(p)), fits, bulk, last, x); }
    }
  }

  /** Taking a page out of the bitmap. */
  function Cleared(m: State, p: nat): State {
    m.(bitmap := m.bitmap - {p}, count := m.count - 1)
  }

  lemma ClearLeaves(cfg: Config, m: State, pages: set<nat>, bulk: bool, last: bool, lost: set<nat>, p: nat)
    requires cfg.slots > 0 && Inv(cfg, m, pages, bulk, last, lost) && p in m.bitmap && p in pages
    ensures InvBut(cfg, Cleared(m, p), pages, bulk, last, lost, {p}) && Cleared(m, p).bitmap == m.bitmap - {p}
    ensures p !in lost
  {
    assert (m.bitmap - {p}) * pages == m.bitmap * pages - {p};
  }

  /** If the page is not sent, it is lost, unless the guest has written it since. */
  lemma ClearLoses(cfg: Config, m: State, pages: set<nat>, last: bool, p: nat)
    requires cfg.slots > 0 && Inv(cfg, m, pages, true, last, {}) && p in m.bitmap && p in pages
    ensures Inv(cfg, Cleared(m, p), pages, false, last, {p} - m.log)
  {
    ClearLeaves(cfg, m, pages, true, last, {}, p);
  }

  /** A guest write is logged. */
  lemma GuestWriteKeeps(cfg: Config, m: State, pages: set<nat>, bulk: bool, last: bool, lost: set<nat>, p: nat,
                        data: Ram)
    requires cfg.slots > 0 && Inv(cfg, m, pages, bulk, last, lost) && p in pages
    ensures Inv(cfg, m.(ram := Update(m.ram, p, data), log := m.log + {p}), pages, bulk, last, lost - {p})
  {
  }

  /** Moving some logged pages to the bitmap. */
  function Synced(m: State, taken: set<nat>): State {
    m.(log := m.log - taken, bitmap := m.bitmap + (m.log * taken), count := m.count + |(m.log * taken) - m.bitmap|)
  }

  lemma SyncKeeps(cfg: Config, m: State, pages: set<nat>, bulk: bool, lost: set<nat>, taken: set<nat>)
    requires cfg.slots > 0 && Inv(cfg, m, pages, bulk, false, lost)
    ensures Inv(cfg, Synced(m, taken), pages, bulk, false, lost)
  {
    hide Flagged, Coherent, CacheIdle, Counted;
    SyncCounted(m, pages, taken);
    SyncRest(cfg, m, pages, bulk, lost, taken);
  }

  lemma SyncCounted(m: State, pages: set<nat>, taken: set<nat>)
    requires Counted(m, pages)
    ensures Counted(Synced(m, taken), pages)
  {
    var new_ := (m.log * taken) - m.bitmap;
    assert (m.bitmap + m.log * taken) * pages == m.bitmap * pages + new_;
    assert m.bitmap * pages !! new_;
  }

  lemma SyncRest(cfg: Config, m: State, pages: set<nat>, bulk: bool, lost: set<nat>, taken: set<nat>)
    requires cfg.slots > 0 && Flagged(m, pages, {} + lost) && Coherent(cfg, m, false, {}) && CacheIdle(cfg, m, bulk)
    ensures var m' := Synced(m, taken);
      Flagged(m', pages, {} + lost) && Coherent(cfg, m', false, {}) && CacheIdle(cfg, m', bulk)
  {
    hide CoherentAt;
  }

  /** When nothing is marked any more, the destination has the guest's memory, but for lost pages. */
  lemma NothingLeft(cfg: Config, m: State, pages: set<nat>, bulk: bool, last: bool, lost: set<nat>)
    requires cfg.slots > 0 && Inv(cfg, m, pages, bulk, last, lost) && m.log == {} && m.bitmap * pages == {}
    ensures forall p :: p in pages && p !in lost ==> m.dest(p) == m.ram(p)
  {
    forall p | p in pages && p !in lost ensures m.dest(p) == m.ram(p) {
      assert p !in m.bitmap * pages;
    }
  }
}
