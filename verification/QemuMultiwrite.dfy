/** Merging adjacent and overlapping write requests ('multiwrite_merge' in block.c, vectors as in util/iov.c). */
module Multiwrite {
  import opened Common
  import opened Writes

  const BDRV_SECTOR_SIZE: nat := 512
  const IOV_MAX: nat := 1024

  /** A vector of buffers. */
  type Vector = seq<seq<Byte>>

  function Flat(v: Vector): seq<Byte> {
    if v == [] then [] else v[0] + Flat(v[1..])
  }

  datatype Request = Request(sector: nat, nb: nat, qiov: Vector)

  predicate Consistent(r: Request) {
    |Flat(r.qiov)| == r.nb * BDRV_SECTOR_SIZE
  }

  // ----- partial vectors -----

  /** The parts of a vector that hold the bytes from soffset on, up to sbytes of them. */
  function Cut(src: Vector, soffset: nat, sbytes: nat): Vector {
    if sbytes == 0 || src == [] then []
    else if soffset < |src[0]| then
      var len := if |src[0]| - soffset < sbytes then |src[0]| - soffset else sbytes;
      [src[0][soffset..soffset + len]] + Cut(src[1..], 0, sbytes - len)
    else Cut(src[1..], soffset - |src[0]|, sbytes)
  }

  lemma {:induction false} CutFlat(src: Vector, soffset: nat, sbytes: nat)
    requires soffset + sbytes <= |Flat(src)|
    ensures Flat(Cut(src, soffset, sbytes)) == Flat(src)[soffset..soffset + sbytes]
    decreases |src|
  {
    if sbytes > 0 {
      var rest := Flat(src[1..]);
      assert Flat(src) == src[0] + rest;
      if soffset < |src[0]| {
        var len := if |src[0]| - soffset < sbytes then |src[0]| - soffset else sbytes;
        CutFlat(src[1..], 0, sbytes - len);
        var cut := Cut(src[1..], 0, sbytes - len);
        assert ([src[0][soffset..soffset + len]] + cut)[1..] == cut;
      } else {
        CutFlat(src[1..], soffset - |src[0]|, sbytes);
      }
    }
  }

  lemma {:induction false} CutCount(src: Vector, soffset: nat, sbytes: nat)
    ensures |Cut(src, soffset, sbytes)| <= |src|
    decreases |src|
  {
    if sbytes > 0 && src != [] {
      if soffset < |src[0]| {
        var len := if |src[0]| - soffset < sbytes then |src[0]| - soffset else sbytes;
        CutCount(src[1..], 0, sbytes - len);
      } else {
        CutCount(src[1..], soffset - |src[0]|, sbytes);
      }
    }
  }

  /** A vector cut in two, with something dropped in between, has at most one more part. */
  lemma {:induction false} TwoCuts(src: Vector, x: nat, y: nat, n: nat)
    requires x <= y
    ensures |Cut(src, 0, x)| + |Cut(src, y, n)| <= |src| + 1
    decreases |src|
  {
    CutCount(src, y, n);
    if x > 0 && src != [] {
      var l := |src[0]|;
      if x > l {
        TwoCuts(src[1..], x - l, y - l, n);
      } else {
        assert Cut(src[1..], 0, 0) == [];
      }
    }
  }

  lemma {:induction false} FlatAppend(v: Vector, w: Vector)
    ensures Flat(v + w) == Flat(v) + Flat(w)
    decreases |v|
  {
    if v == [] {
      assert v + w == w;
    } else {
      assert (v + w)[1..] == v[1..] + w;
      FlatAppend(v[1..], w);
    }
  }

  /** 'qemu_iovec_concat'. Its assertion, that the offset is not beyond the end, asks for no more than is required
      here. */
  method Concat(dst: Vector, src: Vector, soffset: nat, sbytes: nat) returns (r: Vector)
    requires sbytes == 0 || soffset <= |Flat(src)|
    ensures r == dst + Cut(src, soffset, sbytes)
  {
    r := dst;
    if sbytes == 0 { return; }
    var i, done, skip := 0, 0, soffset;
    while done < sbytes && i < |src|
      invariant 0 <= i <= |src| && 0 <= done <= sbytes && 0 <= skip
      invariant r + Cut(src[i..], skip, sbytes - done) == dst + Cut(src, soffset, sbytes)
      invariant skip <= |Flat(src[i..])| && (done > 0 ==> skip == 0)
    {
      ghost var rest := src[i..];
      assert rest[0] == src[i] && rest[1..] == src[i + 1..];
      if skip < |src[i]| {
        var len := if |src[i]| - skip < sbytes - done then |src[i]| - skip else sbytes - done;
        ghost var r0 := r;
        r := r + [src[i][skip..skip + len]];
        assert r + Cut(rest[1..], 0, sbytes - done - len) == r0 + Cut(rest, skip, sbytes - done);
        done := done + len;
        skip := 0;
      } else {
        skip := skip - |src[i]|;
      }
      i := i + 1;
    }
    assert skip == 0;
    assert Cut(src[i..], skip, sbytes - done) == [];
  }

  // ----- merging two requests -----

  function MergedVector(a: Request, b: Request): Vector
    requires a.sector <= b.sector
  {
    var v := Cut(a.qiov, 0, (b.sector - a.sector) * BDRV_SECTOR_SIZE) + Cut(b.qiov, 0, |Flat(b.qiov)|);
    if |Flat(v)| < |Flat(a.qiov)| then v + Cut(a.qiov, |Flat(v)|, |Flat(a.qiov)| - |Flat(v)|) else v
  }

  function Merged(a: Request, b: Request): Request
    requires a.sector <= b.sector
  {
    var v := MergedVector(a, b);
    Request(a.sector, |Flat(v)| / BDRV_SECTOR_SIZE, v)
  }

  /** Two requests that touch or overlap, the second not starting before the first. */
  predicate Mergeable(a: Request, b: Request) {
    Consistent(a) && Consistent(b) && a.sector <= b.sector <= a.sector + a.nb
  }

  /** The part of a merged vector that comes before the tail of the first request. */
  lemma FrontBytes(a: Request, b: Request)
    requires Mergeable(a, b)
    ensures var x, y, n := Flat(a.qiov), Flat(b.qiov), (b.sector - a.sector) * BDRV_SECTOR_SIZE;
      n <= |x| && Flat(Cut(a.qiov, 0, n) + Cut(b.qiov, 0, |y|)) == x[..n] + y
  {
    hide Cut, Flat;
    var x, y, n := Flat(a.qiov), Flat(b.qiov), (b.sector - a.sector) * BDRV_SECTOR_SIZE;
    CutFlat(a.qiov, 0, n);
    CutFlat(b.qiov, 0, |y|);
    FlatAppend(Cut(a.qiov, 0, n), Cut(b.qiov, 0, |y|));
    assert y[0..|y|] == y;
  }

  /** The bytes of a merged request: the first one's, overwritten by the second one's. */
  lemma MergedBytes(a: Request, b: Request)
    requires Mergeable(a, b)
    ensures var x, y, n := Flat(a.qiov), Flat(b.qiov), (b.sector - a.sector) * BDRV_SECTOR_SIZE;
      && n <= |x|
      && Flat(MergedVector(a, b)) == x[..n] + y + (if n + |y| < |x| then x[n + |y|..] else [])
      && |MergedVector(a, b)| <= |a.qiov| + |b.qiov| + 1
  {
    hide Cut, Flat;
    var x, y, n := Flat(a.qiov), Flat(b.qiov), (b.sector - a.sector) * BDRV_SECTOR_SIZE;
    var v := Cut(a.qiov, 0, n) + Cut(b.qiov, 0, |y|);
    FrontBytes(a, b);
    CutCount(b.qiov, 0, |y|);
    CutCount(a.qiov, 0, n);
    if n + |y| < |x| {
      var rest := |x| - n - |y|;
      CutFlat(a.qiov, n + |y|, rest);
      assert x[n + |y|..n + |y| + rest] == x[n + |y|..];
      FlatAppend(v, Cut(a.qiov, n + |y|, rest));
      TwoCuts(a.qiov, n, n + |y|, rest);
    }
  }

  function Apply(d: Disk, r: Request): Disk {
    Overwrite(d, r.sector * BDRV_SECTOR_SIZE, Flat(r.qiov))
  }

  function ApplyAll(d: Disk, rs: seq<Request>): Disk {
    if rs == [] then d else Apply(ApplyAll(d, rs[..|rs| - 1]), rs[|rs| - 1])
  }

  /** The merged request does to the disk what the two do one after the other; it is not longer than both together. */
  lemma MergedMeans(a: Request, b: Request, d: Disk)
    requires Mergeable(a, b)
    ensures Same(Apply(d, Merged(a, b)), Apply(Apply(d, a), b))
    ensures Consistent(Merged(a, b)) && Merged(a, b).nb <= a.nb + b.nb && |Merged(a, b).qiov| <= |a.qiov| + |b.qiov| + 1
    ensures Merged(a, b).sector + Merged(a, b).nb >= b.sector
  {
    hide Cut, MergedVector;
    MergedBytes(a, b);
    var x, y, n := Flat(a.qiov), Flat(b.qiov), (b.sector - a.sector) * BDRV_SECTOR_SIZE;
    var z := Flat(MergedVector(a, b));
    assert |z| == if n + |y| < |x| then |x| else n + |y|;
  }

  lemma ApplySame(d: Disk, e: Disk, r: Request)
    requires Same(d, e)
    ensures Same(Apply(d, r), Apply(e, r))
  {
  }

  lemma ApplyLast(d: Disk, rs: seq<Request>, front: seq<Request>)
    requires |rs| == |front| + 1 && rs[..|front|] == front
    ensures ApplyAll(d, rs) == Apply(ApplyAll(d, front), rs[|front|])
  {
    hide Apply;
  }

  lemma SameTrans(d: Disk, e: Disk, f: Disk)
    requires Same(d, e) && Same(e, f)
    ensures Same(d, f)
  {
  }

  // ----- the loop -----

  predicate Sorted(rs: seq<Request>) {
    forall i, j :: 0 <= i < j < |rs| ==> rs[i].sector <= rs[j].sector
  }

  /** A request that the limits allow: one of the given ones, or a merged one that does not exceed them. */
  ghost predicate Allowed(r: Request, given: seq<Request>, maxTransfer: nat) {
    r in given || (|r.qiov| <= IOV_MAX && (maxTransfer != 0 ==> r.nb <= maxTransfer))
  }

  /** The requests up to 'outidx' stand for the first i of the given ones; the others are still in place. */
  ghost predicate Progress(now: seq<Request>, given: seq<Request>, outidx: nat, i: nat, maxTransfer: nat, d: Disk) {
    && outidx < i <= |given| == |now|
    && (forall k :: i <= k < |now| ==> now[k] == given[k] && now[outidx].sector <= given[k].sector)
    && Sorted(now[..outidx + 1])
    && (forall k :: 0 <= k <= outidx ==> Consistent(now[k]) && Allowed(now[k], given, maxTransfer))
    && Same(ApplyAll(d, now[..outidx + 1]), ApplyAll(d, given[..i]))
  }

  ghost predicate Given(given: seq<Request>) {
    Sorted(given) && forall r :: r in given ==> Consistent(r)
  }

  // ----- the order of the requests -----

  function Insert(r: Request, rs: seq<Request>): (s: seq<Request>)
    requires Sorted(rs)
    ensures Sorted(s) && multiset(s) == multiset{r} + multiset(rs)
  {
    if rs == [] then [r]
    else if r.sector <= rs[0].sector then [r] + rs
    else
      assert rs == [rs[0]] + rs[1..];
      InsertStays(r, rs, Insert(r, rs[1..]));
      [rs[0]] + Insert(r, rs[1..])
  }

  lemma InsertStays(r: Request, rs: seq<Request>, s: seq<Request>)
    requires rs != [] && Sorted(rs) && Sorted(s) && multiset(s) == multiset{r} + multiset(rs[1..])
    requires rs[0].sector < r.sector
    ensures Sorted([rs[0]] + s)
  {
    forall j | 0 <= j < |s| ensures rs[0].sector <= s[j].sector {
      assert s[j] in multiset(s);
      if s[j] != r { assert s[j] in rs[1..]; }
    }
  }

  /** What the comparison of 'qsort' asks for; the library may order requests for the same sector as it likes. */
  function SortedBySector(rs: seq<Request>): (s: seq<Request>)
    ensures Sorted(s) && multiset(s) == multiset(rs)
  {
    if rs == [] then [] else
      assert rs == [rs[0]] + rs[1..];
      Insert(rs[0], SortedBySector(rs[1..]))
  }

  /** The requests write to different places. */
  ghost predicate Apart(rs: seq<Request>) {
    forall i, j :: 0 <= i < j < |rs| ==> forall x :: !(Covers(rs[i], x) && Covers(rs[j], x))
  }

  predicate Covers(r: Request, x: nat) {
    r.sector * BDRV_SECTOR_SIZE <= x < r.sector * BDRV_SECTOR_SIZE + |Flat(r.qiov)|
  }

  /** A byte that is written by one request only, perhaps more than once. */
  lemma {:induction false} ByteOf(d: Disk, rs: seq<Request>, x: nat, r: Request)
    requires forall q :: q in rs && Covers(q, x) ==> q == r
    ensures ApplyAll(d, rs)(x) ==
      if r in rs && Covers(r, x) then Flat(r.qiov)[x - r.sector * BDRV_SECTOR_SIZE] else d(x)
    decreases |rs|
  {
    hide Flat;
    if rs != [] {
      var front, last := rs[..|rs| - 1], rs[|rs| - 1];
      assert rs == front + [last];
      assert last in rs;
      ByteOf(d, front, x, r);
    }
  }

  /** Requests for different places do the same in every order. */
  lemma AnyOrder(d: Disk, rs: seq<Request>, s: seq<Request>)
    requires Apart(rs) && multiset(rs) == multiset(s)
    ensures Same(ApplyAll(d, rs), ApplyAll(d, s))
  {
    hide ApplyAll, Covers, Flat;
    forall x: nat ensures ApplyAll(d, rs)(x) == ApplyAll(d, s)(x) {
      var r := if exists q :: q in rs && Covers(q, x) then var q :| q in rs && Covers(q, x); q else Request(0, 0, []);
      forall q | q in rs && Covers(q, x) ensures q == r {
        OnlyOne(rs, x, q, r);
      }
      forall q ensures q in s <==> q in rs {
        assert q in multiset(s) <==> q in multiset(rs);
      }
      ByteOf(d, rs, x, r);
      ByteOf(d, s, x, r);
    }
  }

  lemma OnlyOne(rs: seq<Request>, x: nat, q: Request, r: Request)
    requires Apart(rs) && q in rs && r in rs && Covers(q, x) && Covers(r, x)
    ensures q == r
  {
    var i :| 0 <= i < |rs| && rs[i] == q;
    var j :| 0 <= j < |rs| && rs[j] == r;
    assert i == j;
  }

  /** 'multiwrite_merge': what remains does to the disk what the requests do in the order of their sectors; if they
      write to different places, what they do in any order. */
  method MultiwriteMerge(reqs: array<Request>, maxTransfer: nat, ghost d: Disk) returns (n: nat,
      ghost order: seq<Request>)
    requires reqs.Length > 0 && forall r :: r in reqs[..] ==> Consistent(r)
    modifies reqs
    ensures Sorted(order) && multiset(order) == multiset(old(reqs[..]))
    ensures 1 <= n <= reqs.Length && Same(ApplyAll(d, reqs[..n]), ApplyAll(d, order))
    ensures Apart(old(reqs[..])) ==> Same(ApplyAll(d, reqs[..n]), ApplyAll(d, old(reqs[..])))
    ensures Sorted(reqs[..n]) && forall r :: r in reqs[..n] ==> Consistent(r) && Allowed(r, old(reqs[..]), maxTransfer)
  {
    hide Consistent, ApplyAll, Apart, Sorted, Same, Flat;
    ghost var given := reqs[..];
    var sorted := SortedBySector(reqs[..]);
    SameMembers(sorted, given);
    forall i | 0 <= i < reqs.Length { reqs[i] := sorted[i]; }
    assert reqs[..] == sorted;
    order := sorted;
    SortedGiven(sorted);
    n := MergeSorted(reqs, maxTransfer, d);
    if Apart(given) {
      AnyOrder(d, given, order);
      SameBack(ApplyAll(d, given), ApplyAll(d, order));
      SameTrans(ApplyAll(d, reqs[..n]), ApplyAll(d, order), ApplyAll(d, given));
    }
  }

  lemma SameBack(d: Disk, e: Disk)
    requires Same(d, e)
    ensures Same(e, d)
  {
  }

  lemma SameMembers(s: seq<Request>, rs: seq<Request>)
    requires multiset(s) == multiset(rs)
    ensures |s| == |rs| && forall r :: r in s <==> r in rs
  {
    assert |multiset(s)| == |s| && |multiset(rs)| == |rs|;
    forall r ensures r in s <==> r in rs {
      assert r in multiset(s) <==> r in multiset(rs);
    }
  }

  lemma SortedGiven(s: seq<Request>)
    requires Sorted(s) && forall r :: r in s ==> Consistent(r)
    ensures Given(s)
  {
  }

  /** The loop, on sorted requests. */
  method MergeSorted(reqs: array<Request>, maxTransfer: nat, ghost d: Disk) returns (n: nat)
    requires reqs.Length > 0 && Given(reqs[..])
    modifies reqs
    ensures 1 <= n <= reqs.Length && Same(ApplyAll(d, reqs[..n]), ApplyAll(d, old(reqs[..])))
    ensures Sorted(reqs[..n]) && forall r :: r in reqs[..n] ==> Consistent(r) && Allowed(r, old(reqs[..]), maxTransfer)
  {
    hide Flat, Merged, Apply, ApplyAll, Progress, Given, Sorted, Same;
    ghost var given := reqs[..];
    var outidx, i := 0, 1;
    ProgressStart(given, maxTransfer, d);
    while i < reqs.Length
      invariant 0 <= outidx < i <= reqs.Length
      invariant Progress(reqs[..], given, outidx, i, maxTransfer, d)
    {
      var a, b := reqs[outidx], reqs[i];
      ghost var was := reqs[..];
      ProgressTells(was, given, outidx, i, maxTransfer, d);
      var merge := b.sector <= a.sector + a.nb;
      if |a.qiov| + |b.qiov| + 1 > IOV_MAX { merge := false; }
      if maxTransfer != 0 && a.nb + b.nb > maxTransfer { merge := false; }
      if merge {
        var m := MergeTwo(a, b);
        reqs[outidx] := m;
        ProgressMerged(was, given, outidx, i, maxTransfer, d);
        assert reqs[..] == was[outidx := m];
      } else {
        outidx := outidx + 1;
        reqs[outidx] := b;
        ProgressNext(was, given, outidx - 1, i, maxTransfer, d);
        assert reqs[..] == was[outidx := b];
      }
      i := i + 1;
    }
    ProgressEnds(reqs[..], given, outidx, maxTransfer, d);
    return outidx + 1;
  }

  lemma ProgressStart(given: seq<Request>, maxTransfer: nat, d: Disk)
    requires Given(given) && given != []
    ensures Progress(given, given, 0, 1, maxTransfer, d)
  {
  }

  lemma ProgressTells(now: seq<Request>, given: seq<Request>, outidx: nat, i: nat, maxTransfer: nat, d: Disk)
    requires Progress(now, given, outidx, i, maxTransfer, d) && i < |given| && Given(given)
    ensures now[i] == given[i] && Consistent(now[outidx]) && Consistent(now[i]) && now[outidx].sector <= now[i].sector
  {
    assert given[i] in given;
  }

  lemma ProgressMerged(now: seq<Request>, given: seq<Request>, outidx: nat, i: nat, maxTransfer: nat, d: Disk)
    requires Progress(now, given, outidx, i, maxTransfer, d) && i < |given| && Mergeable(now[outidx], now[i])
    requires Given(given)
    requires |now[outidx].qiov| + |now[i].qiov| + 1 <= IOV_MAX
    requires (maxTransfer != 0 ==> now[outidx].nb + now[i].nb <= maxTransfer)
    ensures Progress(now[outidx := Merged(now[outidx], now[i])], given, outidx, i + 1, maxTransfer, d)
  {
    hide Apply, ApplyAll, Same, MergedVector, Flat, Consistent;
    var a, b := now[outidx], now[i];
    var m := Merged(a, b);
    var next := now[outidx := m];
    MergedMeans(a, b, ApplyAll(d, now[..outidx]));
    assert next[..outidx + 1] == now[..outidx + 1][outidx := m];
    assert now[..outidx + 1][outidx] == a;
    AppliedMerged(now[..outidx + 1], next[..outidx + 1], a, b, given, i, d);
  }

  lemma ProgressNext(now: seq<Request>, given: seq<Request>, outidx: nat, i: nat, maxTransfer: nat, d: Disk)
    requires Progress(now, given, outidx, i, maxTransfer, d) && i < |given| && Given(given)
    ensures Progress(now[outidx + 1 := now[i]], given, outidx + 1, i + 1, maxTransfer, d)
  {
    hide Apply, ApplyAll, Same, Consistent;
    var b := now[i];
    var next := now[outidx + 1 := b];
    assert next[..outidx + 2][..outidx + 1] == now[..outidx + 1];
    assert b == given[i] && b in given;
    assert forall k :: 0 <= k <= outidx ==>
      now[k] == now[..outidx + 1][k] && now[..outidx + 1][k].sector <= now[outidx].sector;
    AppliedNext(now[..outidx + 1], next[..outidx + 2], b, given, i, d);
  }

  lemma ProgressEnds(now: seq<Request>, given: seq<Request>, outidx: nat, maxTransfer: nat, d: Disk)
    requires Progress(now, given, outidx, |given|, maxTransfer, d)
    ensures Same(ApplyAll(d, now[..outidx + 1]), ApplyAll(d, given)) && Sorted(now[..outidx + 1])
    ensures forall r :: r in now[..outidx + 1] ==> Consistent(r) && Allowed(r, given, maxTransfer)
  {
    assert given[..|given|] == given;
  }

  method MergeTwo(a: Request, b: Request) returns (m: Request)
    requires Mergeable(a, b)
    ensures m == Merged(a, b)
  {
    hide Cut, Flat;
    FrontBytes(a, b);
    var size := (b.sector - a.sector) * BDRV_SECTOR_SIZE;
    var qiov := Concat([], a.qiov, 0, size);
    qiov := Concat(qiov, b.qiov, 0, |Flat(b.qiov)|);
    assert [] + Cut(a.qiov, 0, size) == Cut(a.qiov, 0, size);
    if |Flat(qiov)| < |Flat(a.qiov)| {
      qiov := Concat(qiov, a.qiov, |Flat(qiov)|, |Flat(a.qiov)| - |Flat(qiov)|);
    }
    return Request(a.sector, |Flat(qiov)| / BDRV_SECTOR_SIZE, qiov);
  }

  lemma AppliedMerged(was: seq<Request>, now: seq<Request>, a: Request, b: Request, given: seq<Request>, i: nat,
                      d: Disk)
    requires |was| == |now| > 0 && Mergeable(a, b) && i < |given| && b == given[i]
    requires now == was[|was| - 1 := Merged(a, b)] && was[|was| - 1] == a
    requires Same(ApplyAll(d, was), ApplyAll(d, given[..i]))
    ensures Same(ApplyAll(d, now), ApplyAll(d, given[..i + 1]))
  {
    hide Apply, Merged, Same, Consistent, ApplyAll;
    var n := |was| - 1;
    ApplyLast(d, was, was[..n]);
    ApplyLast(d, now, was[..n]);
    ApplyLast(d, given[..i + 1], given[..i]);
    var d0 := ApplyAll(d, was[..n]);
    MergedMeans(a, b, d0);
    ApplySame(ApplyAll(d, was), ApplyAll(d, given[..i]), b);
    SameTrans(Apply(d0, Merged(a, b)), Apply(Apply(d0, a), b), Apply(ApplyAll(d, given[..i]), b));
  }

  lemma AppliedNext(was: seq<Request>, now: seq<Request>, b: Request, given: seq<Request>, i: nat, d: Disk)
    requires i < |given| && b == given[i] && |now| == |was| + 1 && now[..|was|] == was && now[|was|] == b
    requires Same(ApplyAll(d, was), ApplyAll(d, given[..i]))
    ensures Same(ApplyAll(d, now), ApplyAll(d, given[..i + 1]))
  {
    hide Apply, Same, ApplyAll;
    ApplyLast(d, now, was);
    ApplyLast(d, given[..i + 1], given[..i]);
    ApplySame(ApplyAll(d, was), ApplyAll(d, given[..i]), b);
  }
}
