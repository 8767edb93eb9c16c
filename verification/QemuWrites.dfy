/** Unaligned writes of the block layer: read-modify-write cycles of concurrent requests, on top of the tracked
    requests. */
module Writes {
  import opened Common
  import opened Alignment
  import opened Serialising

  /** Contents of the device, byte by byte. */
  type Disk = nat -> Byte

  function Overwrite(d: Disk, off: nat, data: seq<Byte>): Disk {
    (k: nat) => if off <= k < off + |data| then data[k - off] else d(k)
  }

  function ReadAt(d: Disk, off: nat, n: nat): (r: seq<Byte>)
    ensures |r| == n && forall k :: off <= k < off + n ==> r[k - off] == d(k)
  {
    seq(n, k requires 0 <= k < n => d(off + k))
  }

  ghost predicate Same(d: Disk, e: Disk) {
    forall k: nat :: d(k) == e(k)
  }

  // ----- a single write -----

  /** What 'bdrv_co_do_pwritev' keeps for a write; the buffers of the head and the tail block once they have been
      read; 'wrote': the bytes that the driver has put on the disk so far. */
  datatype Job = Job(off: nat, data: seq<Byte>, align: nat, head: Option<seq<Byte>>, tail: Option<seq<Byte>>,
                     wrote: set<nat>, done: bool)

  function End(j: Job): nat { j.off + |j.data| }

  predicate HeadUnaligned(j: Job) requires j.align > 0 { j.off % j.align != 0 }

  predicate TailUnaligned(j: Job) requires j.align > 0 { (j.off + |j.data|) % j.align != 0 }

  /** The blocks the write touches. */
  function Lo(j: Job): nat requires j.align > 0 { Down(j.off, j.align) }

  function Hi(j: Job): nat requires j.align > 0 { Up(j.off + |j.data|, j.align) }

  function TailBlock(j: Job): nat requires j.align > 0 { Down(j.off + |j.data|, j.align) }

  /** The buffers that are needed are there. */
  predicate BuffersReady(j: Job)
    requires j.align > 0
  {
    && (HeadUnaligned(j) ==> j.head.Some? && |j.head.value| == j.align)
    && (TailUnaligned(j) ==> j.tail.Some? && |j.tail.value| == j.align)
  }

  /** The vector that is finally written, at Lo(j). */
  function Padded(j: Job): (v: seq<Byte>)
    requires j.align > 0 && BuffersReady(j)
    ensures Lo(j) + |v| == Hi(j)
  {
    UpOfMultiple(j.off + |j.data|, j.align);
    (if HeadUnaligned(j) then j.head.value[..j.off % j.align] else [])
    + j.data
    + (if TailUnaligned(j) then j.tail.value[(j.off + |j.data|) % j.align..] else [])
  }

  /** The buffers hold what the disk holds around the requested bytes. */
  ghost predicate BuffersCurrent(j: Job, d: Disk)
    requires j.align > 0
  {
    && (j.head.Some? ==> |j.head.value| == j.align && Matches(j.head.value, Lo(j), d, Lo(j), j.off))
    && (j.tail.Some? ==> |j.tail.value| == j.align && Matches(j.tail.value, TailBlock(j), d, End(j), Hi(j)))
  }

  /** Buffer v, read at lo, holds what the disk holds between two addresses. */
  ghost predicate Matches(v: seq<Byte>, lo: nat, d: Disk, from: nat, to: nat) {
    forall k :: from <= k < to && lo <= k < lo + |v| ==> v[k - lo] == d(k)
  }

  /** What is said to be on the disk is there. */
  ghost predicate Arrived(j: Job, d: Disk) {
    forall k :: k in j.wrote && j.off <= k < End(j) ==> d(k) == j.data[k - j.off]
  }

  /** Where each byte of the vector comes from. */
  lemma PaddedAt(j: Job, k: nat)
    requires j.align > 0 && BuffersReady(j) && Lo(j) <= k < Hi(j)
    ensures k < j.off ==> HeadUnaligned(j) && k - Lo(j) < j.align && Padded(j)[k - Lo(j)] == j.head.value[k - Lo(j)]
    ensures j.off <= k < End(j) ==> Padded(j)[k - Lo(j)] == j.data[k - j.off]
    ensures k >= End(j) ==>
      TailUnaligned(j) && TailBlock(j) <= k < TailBlock(j) + j.align
      && Padded(j)[k - Lo(j)] == j.tail.value[k - TailBlock(j)]
  {
    UpOfMultiple(End(j), j.align);
    var h := if HeadUnaligned(j) then j.head.value[..j.off % j.align] else [];
    var t := if TailUnaligned(j) then j.tail.value[End(j) % j.align..] else [];
    Third(h, j.data, t, k - Lo(j));
  }

  lemma Third(a: seq<Byte>, b: seq<Byte>, c: seq<Byte>, i: nat)
    requires i < |a| + |b| + |c|
    ensures (a + b + c)[i] == if i < |a| then a[i] else if i < |a| + |b| then b[i - |a|] else c[i - |a| - |b|]
  {
  }

  /** The vector from address 'at' on. */
  function Piece(j: Job, at: nat, n: nat): (v: seq<Byte>)
    requires j.align > 0 && BuffersReady(j) && Lo(j) <= at && at + n <= Hi(j)
    ensures |v| == n
  {
    Padded(j)[at - Lo(j)..at - Lo(j) + n]
  }

  /** The requested bytes among those n from address 'at' on, and where they go. */
  function Asked(j: Job, at: nat, n: nat): (nat, seq<Byte>) {
    var from, to := if at < j.off then j.off else at, if at + n < End(j) then at + n else End(j);
    if from < to then (from, j.data[from - j.off..to - j.off]) else (at, [])
  }

  /** Writing any part of the padded vector changes exactly the requested bytes in it. */
  lemma PieceWrite(j: Job, d: Disk, at: nat, n: nat)
    requires j.align > 0 && BuffersReady(j) && BuffersCurrent(j, d) && Lo(j) <= at && at + n <= Hi(j)
    ensures var a := Asked(j, at, n); Same(Overwrite(d, at, Piece(j, at, n)), Overwrite(d, a.0, a.1))
  {
    hide Lo, Hi, Piece, Asked, Overwrite;
    var a := Asked(j, at, n);
    forall k: nat ensures Overwrite(d, at, Piece(j, at, n))(k) == Overwrite(d, a.0, a.1)(k) {
      PieceAt(j, d, at, n, k);
      AskedAt(j, d, at, n, k);
    }
  }

  /** A byte that is both in the part and asked for. */
  predicate Wanted(j: Job, at: nat, n: nat, k: nat) {
    at <= k < at + n && j.off <= k < End(j)
  }

  lemma PieceAt(j: Job, d: Disk, at: nat, n: nat, k: nat)
    requires j.align > 0 && BuffersReady(j) && BuffersCurrent(j, d) && Lo(j) <= at && at + n <= Hi(j)
    ensures Overwrite(d, at, Piece(j, at, n))(k) == if Wanted(j, at, n, k) then j.data[k - j.off] else d(k)
  {
    hide Lo, Hi, TailBlock, Padded, Piece;
    if at <= k < at + n {
      PaddedAt(j, k);
      PieceIs(j, at, n, k);
    }
  }

  lemma PieceIs(j: Job, at: nat, n: nat, k: nat)
    requires j.align > 0 && BuffersReady(j) && Lo(j) <= at <= k < at + n <= Hi(j)
    ensures Piece(j, at, n)[k - at] == Padded(j)[k - Lo(j)]
  {
    hide Padded, Lo, Hi, BuffersReady;
  }

  lemma AskedAt(j: Job, d: Disk, at: nat, n: nat, k: nat)
    ensures var a := Asked(j, at, n);
      Overwrite(d, a.0, a.1)(k) == if Wanted(j, at, n, k) then j.data[k - j.off] else d(k)
  {
  }

  // ----- concurrent runs -----

  /** The tracked requests, the disk, the jobs of the writes among them, and the writes that reached the disk, in order;
      for a write that failed, what it left in its blocks. */
  datatype Run = Run(p: State, disk: Disk, jobs: map<Id, Job>, log: seq<(nat, seq<Byte>)>)

  /** What happens between two points where a coroutine can yield. */
  datatype Action =
    | StartWrite(id: Id, off: nat, data: seq<Byte>, align: nat)
    // with copy-on-read it is serialising, in whole clusters
    | StartRead(id: Id, off: nat, bytes: nat, cluster: Option<nat>)
    | Wake(id: Id)
    | ReadHead(id: Id)
    | ReadTail(id: Id)
    // the driver writes some of the blocks or parts of them, in any order; zeroes are written in several requests
    | WritePiece(id: Id, at: nat, n: nat)
    | WriteDone(id: Id)
    // the driver reports an error and may have left anything in the blocks
    | WriteFails(id: Id, left: seq<Byte>)
    | Finished(id: Id)

  /** A write whose ends are not aligned must be alone in its blocks. */
  function Needs(j: Job): Option<nat>
    requires j.align > 0
  {
    if HeadUnaligned(j) || TailUnaligned(j) then Some(j.align) else None
  }

  function NewJob(off: nat, data: seq<Byte>, align: nat): Job {
    Job(off, data, align, None, None, {}, false)
  }

  /** The write may go on: it has passed its wait, and it is not done. */
  ghost predicate Going(r: Run, id: Id) {
    Passed(r.p, id) && id in r.jobs && !r.jobs[id].done && r.jobs[id].align > 0
  }

  ghost predicate Possible(r: Run, a: Action) {
    match a
    case StartWrite(id, off, data, align) =>
      align > 0 && Enabled(r.p, Arrive(id, off, |data|, Needs(NewJob(off, data, align))))
    case StartRead(id, off, bytes, cluster) => Enabled(r.p, Arrive(id, off, bytes, cluster))
    case Wake(id) => Enabled(r.p, Resume(id))
    case ReadHead(id) => Going(r, id) && HeadUnaligned(r.jobs[id]) && r.jobs[id].head.None?
    case ReadTail(id) =>
      && Going(r, id) && TailUnaligned(r.jobs[id]) && r.jobs[id].tail.None?
      && (HeadUnaligned(r.jobs[id]) ==> r.jobs[id].head.Some?)
    case WritePiece(id, at, n) =>
      Going(r, id) && BuffersReady(r.jobs[id]) && Lo(r.jobs[id]) <= at && at + n <= Hi(r.jobs[id])
    case WriteDone(id) => Going(r, id) && forall k :: Lo(r.jobs[id]) <= k < Hi(r.jobs[id]) ==> k in r.jobs[id].wrote
    case WriteFails(id, left) =>
      Going(r, id) && BuffersReady(r.jobs[id]) && Lo(r.jobs[id]) + |left| == Hi(r.jobs[id])
    case Finished(id) => Enabled(r.p, Finish(id))
  }

  /** Every access to the driver is preceded by 'wait_serialising_requests'. */
  ghost function Do(r: Run, a: Action): Run
    requires Possible(r, a)
  {
    match a
    case StartWrite(id, off, data, align) =>
      var j := NewJob(off, data, align);
      r.(p := Step(r.p, Arrive(id, off, |data|, Needs(j))), jobs := r.jobs[id := j])
    case StartRead(id, off, bytes, cluster) => r.(p := Step(r.p, Arrive(id, off, bytes, cluster)))
    case Wake(id) => r.(p := Step(r.p, Resume(id)))
    case ReadHead(id) =>
      var j := r.jobs[id];
      r.(p := Step(r.p, Recheck(id)), jobs := r.jobs[id := j.(head := Some(ReadAt(r.disk, Lo(j), j.align)))])
    case ReadTail(id) =>
      var j := r.jobs[id];
      r.(p := Step(r.p, Recheck(id)), jobs := r.jobs[id := j.(tail := Some(ReadAt(r.disk, TailBlock(j), j.align)))])
    case WritePiece(id, at, n) =>
      var j := r.jobs[id];
      Run(Step(r.p, Recheck(id)), Overwrite(r.disk, at, Piece(j, at, n)),
          r.jobs[id := j.(wrote := j.wrote + Span(at, n))], r.log + [Asked(j, at, n)])
    case WriteDone(id) => r.(jobs := r.jobs[id := r.jobs[id].(done := true)])
    case WriteFails(id, left) =>
      var j := r.jobs[id];
      Run(Step(r.p, Recheck(id)), Overwrite(r.disk, Lo(j), left), r.jobs[id := j.(done := true)],
          r.log + [(Lo(j), left)])
    case Finished(id) => r.(p := Step(r.p, Finish(id)), jobs := r.jobs - {id})
  }

  /** The disk after the logged writes, each as one atomic change of its own bytes. */
  function Replay(d: Disk, log: seq<(nat, seq<Byte>)>): Disk {
    if log == [] then d else Overwrite(Replay(d, log[..|log| - 1]), log[|log| - 1].0, log[|log| - 1].1)
  }

  // ----- the invariant -----

  /** The tracked request of a write claims the blocks that the write touches. */
  predicate Claims(q: Req, j: Job) {
    && j.align > 0 && q.ser == (HeadUnaligned(j) || TailUnaligned(j))
    && q.lo == Lo(j) && q.lo + q.len == Hi(j)
  }

  ghost predicate JobOk(r: Run, id: Id) {
    && id in r.p.reqs && id in r.jobs && Claims(r.p.reqs[id], r.jobs[id])
    && (r.jobs[id].head.Some? || r.jobs[id].tail.Some? ==> Passed(r.p, id) && r.p.reqs[id].ser)
    && (r.jobs[id].wrote != {} ==> Passed(r.p, id))
    && (!r.jobs[id].done ==>
          BuffersCurrent(r.jobs[id], r.disk) && (r.p.reqs[id].ser ==> Arrived(r.jobs[id], r.disk)))
    && (forall k :: k in r.jobs[id].wrote ==> Lo(r.jobs[id]) <= k < Hi(r.jobs[id]))
    && (r.jobs[id].head.Some? ==> HeadUnaligned(r.jobs[id])) && (r.jobs[id].tail.Some? ==> TailUnaligned(r.jobs[id]))
  }

  ghost predicate RunInv(r: Run) {
    Inv(r.p) && forall id :: id in r.jobs ==> JobOk(r, id)
  }

  /** The blocks that are read lie inside the range that is claimed. */
  lemma BlocksInside(j: Job)
    requires j.align > 0
    ensures HeadUnaligned(j) ==> Lo(j) + j.align <= Hi(j)
    ensures TailUnaligned(j) ==> Lo(j) <= TailBlock(j) && TailBlock(j) + j.align == Hi(j)
  {
    UpOfMultiple(j.off + |j.data|, j.align);
    if HeadUnaligned(j) && Hi(j) < Lo(j) + j.align { SameMultiple(Lo(j), Hi(j), j.align); }
    if TailBlock(j) < Lo(j) { SameMultiple(TailBlock(j), Lo(j), j.align); }
  }

  /** A new request changes nobody else's; it claims what it was marked for. */
  lemma ArriveShape(s: State, id: Id, off: nat, bytes: nat, align: Option<nat>)
    requires Enabled(s, Arrive(id, off, bytes, align))
    ensures var s' := Step(s, Arrive(id, off, bytes, align));
      && s'.reqs.Keys == s.reqs.Keys + {id}
      && (forall x :: x in s.reqs ==> s'.reqs[x] == s.reqs[x])
      && s'.reqs[id].ser == align.Some?
      && (align.None? ==> s'.reqs[id].lo == off && s'.reqs[id].len == bytes)
      && (align.Some? ==>
            && s'.reqs[id].lo == Down(off, align.value)
            && s'.reqs[id].lo + s'.reqs[id].len == Up(off + bytes, align.value))
  {
    hide Blocker;
    MarkShape(Req(off, bytes, false, off, bytes, None), align);
  }

  lemma MarkShape(q: Req, align: Option<nat>)
    requires (align.Some? ==> align.value > 0) && q.lo == q.off && q.len == q.bytes
    ensures align.Some? ==>
      var q' := MarkedReq(q, align.value);
      q'.lo == Down(q.off, align.value) && q'.lo + q'.len == Up(q.off + q.bytes, align.value)
  {
    if align.Some? { MarkCovers(q, align.value); }
  }

  lemma NewClaims(s: State, id: Id, off: nat, data: seq<Byte>, align: nat)
    requires align > 0 && Enabled(s, Arrive(id, off, |data|, Needs(NewJob(off, data, align))))
    ensures Claims(Step(s, Arrive(id, off, |data|, Needs(NewJob(off, data, align)))).reqs[id], NewJob(off, data, align))
  {
    hide Step;
    var j := NewJob(off, data, align);
    ArriveShape(s, id, off, |data|, Needs(j));
    UpOfMultiple(off + |data|, align);
  }

  /** Waking up changes the request that wakes up only, and in it only what it waits for. */
  lemma ResumeShape(s: State, id: Id)
    requires Enabled(s, Resume(id))
    ensures var s' := Step(s, Resume(id));
      && s'.reqs.Keys == s.reqs.Keys && (forall x :: x in s.reqs && x != id ==> s'.reqs[x] == s.reqs[x])
      && s'.reqs[id].(waiting := None) == s.reqs[id].(waiting := None)
  {
    hide Blocker;
  }

  /** The write of one request does not touch the blocks that another has read, or written as the only one. */
  lemma OthersCurrent(r: Run, id: Id, x: Id, at: nat, v: seq<Byte>)
    requires RunInv(r) && Going(r, id) && x in r.jobs && x != id && !r.jobs[x].done
    requires Lo(r.jobs[id]) <= at && at + |v| <= Hi(r.jobs[id])
    ensures r.jobs[x].align > 0 && BuffersCurrent(r.jobs[x], Overwrite(r.disk, at, v))
    ensures x in r.p.reqs && (r.p.reqs[x].ser ==> Arrived(r.jobs[x], Overwrite(r.disk, at, v)))
  {
    hide Inv, Lo, Hi, TailBlock;
    var j := r.jobs[x];
    assert JobOk(r, x) && JobOk(r, id);
    if r.p.reqs[x].ser && (j.head.Some? || j.tail.Some? || j.wrote != {}) {
      Disjoint(r, id, x);
      BlocksInside(j);
      Around(j);
    }
  }

  lemma Around(j: Job)
    requires j.align > 0
    ensures Lo(j) <= j.off && End(j) <= Hi(j)
  {
    UpOfMultiple(End(j), j.align);
  }

  lemma Disjoint(r: Run, id: Id, x: Id)
    requires Inv(r.p) && JobOk(r, x) && JobOk(r, id) && x != id && Passed(r.p, id) && Passed(r.p, x) && r.p.reqs[x].ser
    ensures Hi(r.jobs[id]) <= Lo(r.jobs[x]) || Hi(r.jobs[x]) <= Lo(r.jobs[id])
  {
    hide Padded, Lo, Hi, BuffersCurrent;
    assert !Conflict(r.p.reqs[x], r.p.reqs[id]);
  }

  // ----- steps -----

  lemma StartWriteKeeps(r: Run, id: Id, off: nat, data: seq<Byte>, align: nat)
    requires RunInv(r) && Possible(r, StartWrite(id, off, data, align))
    ensures RunInv(Do(r, StartWrite(id, off, data, align)))
  {
    hide Step, Inv, Enabled, Lo, Hi, TailBlock, BuffersCurrent, Arrived;
    var j := NewJob(off, data, align);
    var r' := Do(r, StartWrite(id, off, data, align));
    StepKeeps(r.p, Arrive(id, off, |data|, Needs(j)));
    ArriveShape(r.p, id, off, |data|, Needs(j));
    NewClaims(r.p, id, off, data, align);
    assert JobOk(r', id) by { NoBuffers(j, r'.disk); }
    forall x | x in r'.jobs ensures JobOk(r', x) {
      if x != id { assert JobOk(r, x); }
    }
  }

  lemma NoBuffers(j: Job, d: Disk)
    requires j.align > 0 && j.head.None? && j.tail.None? && j.wrote == {}
    ensures BuffersCurrent(j, d) && Arrived(j, d)
  {
  }

  lemma StartReadKeeps(r: Run, id: Id, off: nat, bytes: nat, cluster: Option<nat>)
    requires RunInv(r) && Possible(r, StartRead(id, off, bytes, cluster))
    ensures RunInv(Do(r, StartRead(id, off, bytes, cluster)))
  {
    hide Step, Inv, Lo, Hi, TailBlock, BuffersCurrent, Arrived;
    var r' := Do(r, StartRead(id, off, bytes, cluster));
    StepKeeps(r.p, Arrive(id, off, bytes, cluster));
    ArriveShape(r.p, id, off, bytes, cluster);
    forall x | x in r'.jobs ensures JobOk(r', x) {
      assert JobOk(r, x);
    }
  }

  lemma WakeKeeps(r: Run, id: Id)
    requires RunInv(r) && Possible(r, Wake(id))
    ensures RunInv(Do(r, Wake(id)))
  {
    hide Step, Inv, Lo, Hi, TailBlock, BuffersCurrent, Arrived;
    var r' := Do(r, Wake(id));
    StepKeeps(r.p, Resume(id));
    ResumeShape(r.p, id);
    forall x | x in r'.jobs ensures JobOk(r', x) {
      assert JobOk(r, x);
    }
  }

  lemma SameBlocks(j: Job, j': Job)
    requires j.align > 0 && j'.off == j.off && j'.data == j.data && j'.align == j.align
    ensures Lo(j') == Lo(j) && Hi(j') == Hi(j) && TailBlock(j') == TailBlock(j)
  {
  }

  /** A request that has passed does not wait again. */
  lemma RecheckSame(s: State, id: Id)
    requires Inv(s) && Passed(s, id)
    ensures Step(s, Recheck(id)) == s
  {
    PassedNeverWaits(s, id);
  }

  /** A buffer that was just read is current. */
  lemma BufferRead(j: Job, d: Disk, j': Job)
    requires j.align > 0 && BuffersCurrent(j, d)
    requires || j' == j.(head := Some(ReadAt(d, Lo(j), j.align)))
             || j' == j.(tail := Some(ReadAt(d, TailBlock(j), j.align)))
    ensures BuffersCurrent(j', d) && (Arrived(j, d) ==> Arrived(j', d))
  {
    hide Lo, Hi, TailBlock, Matches, ReadAt;
    SameBlocks(j, j');
    ReadMatches(d, Lo(j), j.align, Lo(j), j.off);
    ReadMatches(d, TailBlock(j), j.align, End(j), Hi(j));
  }

  lemma ReadMatches(d: Disk, lo: nat, n: nat, from: nat, to: nat)
    ensures Matches(ReadAt(d, lo, n), lo, d, from, to)
  {
    hide ReadAt;
  }

  lemma ReadKeeps(r: Run, id: Id, a: Action)
    requires RunInv(r) && a in {ReadHead(id), ReadTail(id)} && Possible(r, a)
    ensures RunInv(Do(r, a))
  {
    hide Inv, Lo, Hi, TailBlock, BuffersCurrent, Arrived, ReadAt, Step;
    var r' := Do(r, a);
    RecheckSame(r.p, id);
    assert JobOk(r, id);
    SameBlocks(r.jobs[id], r'.jobs[id]);
    BufferRead(r.jobs[id], r.disk, r'.jobs[id]);
    forall x | x in r'.jobs ensures JobOk(r', x) {
      assert JobOk(r, x);
    }
  }

  /** The job of the request that writes. */
  lemma OwnPiece(j: Job, d: Disk, at: nat, n: nat)
    requires j.align > 0 && BuffersReady(j) && BuffersCurrent(j, d) && Lo(j) <= at && at + n <= Hi(j)
    ensures var d' := Overwrite(d, at, Piece(j, at, n)); var j' := j.(wrote := j.wrote + Span(at, n));
      BuffersCurrent(j', d') && (Arrived(j, d) ==> Arrived(j', d'))
  {
    hide Lo, Hi, TailBlock, Padded, Piece, Overwrite, Span;
    var d' := Overwrite(d, at, Piece(j, at, n));
    var j' := j.(wrote := j.wrote + Span(at, n));
    SameBlocks(j, j');
    forall k: nat ensures d'(k) == if Wanted(j, at, n, k) then j.data[k - j.off] else d(k) {
      PieceAt(j, d, at, n, k);
    }
  }

  lemma WritePieceKeeps(r: Run, id: Id, at: nat, n: nat)
    requires RunInv(r) && Possible(r, WritePiece(id, at, n))
    ensures RunInv(Do(r, WritePiece(id, at, n)))
  {
    hide Inv, Lo, Hi, TailBlock, Padded, Overwrite, BuffersCurrent, Arrived, Piece, Asked, Step, BuffersReady;
    var r' := Do(r, WritePiece(id, at, n));
    RecheckSame(r.p, id);
    assert JobOk(r, id);
    SameBlocks(r.jobs[id], r'.jobs[id]);
    OwnPiece(r.jobs[id], r.disk, at, n);
    forall x | x in r'.jobs ensures JobOk(r', x) {
      assert JobOk(r, x);
      if x != id && !r.jobs[x].done { OthersCurrent(r, id, x, at, Piece(r.jobs[id], at, n)); }
    }
  }

  lemma WriteDoneKeeps(r: Run, id: Id)
    requires RunInv(r) && Possible(r, WriteDone(id))
    ensures RunInv(Do(r, WriteDone(id)))
  {
    hide Inv, Lo, Hi, TailBlock, BuffersCurrent, Arrived;
    var r' := Do(r, WriteDone(id));
    SameBlocks(r.jobs[id], r'.jobs[id]);
    forall x | x in r'.jobs ensures JobOk(r', x) {
      assert JobOk(r, x);
    }
  }

  lemma WriteFailsKeeps(r: Run, id: Id, left: seq<Byte>)
    requires RunInv(r) && Possible(r, WriteFails(id, left))
    ensures RunInv(Do(r, WriteFails(id, left)))
  {
    hide Inv, Lo, Hi, TailBlock, Padded, Overwrite, BuffersCurrent, Arrived, Step, BuffersReady;
    var r' := Do(r, WriteFails(id, left));
    RecheckSame(r.p, id);
    SameBlocks(r.jobs[id], r'.jobs[id]);
    forall x | x in r'.jobs ensures JobOk(r', x) {
      assert JobOk(r, x);
      if x != id && !r.jobs[x].done { OthersCurrent(r, id, x, Lo(r.jobs[id]), left); }
    }
  }

  lemma FinishedKeeps(r: Run, id: Id)
    requires RunInv(r) && Possible(r, Finished(id))
    ensures RunInv(Do(r, Finished(id)))
  {
    hide Inv, Lo, Hi, TailBlock, BuffersCurrent, Arrived, Without;
    var r' := Do(r, Finished(id));
    FinishKeeps(r.p, id);
    forall x | x in r'.jobs ensures JobOk(r', x) {
      assert JobOk(r, x);
    }
  }

  lemma DoKeeps(r: Run, a: Action)
    requires RunInv(r) && Possible(r, a)
    ensures RunInv(Do(r, a))
  {
    hide RunInv, Do;
    match a
    case StartWrite(id, off, data, align) => StartWriteKeeps(r, id, off, data, align);
    case StartRead(id, off, bytes, cluster) => StartReadKeeps(r, id, off, bytes, cluster);
    case Wake(id) => WakeKeeps(r, id);
    case ReadHead(id) => ReadKeeps(r, id, a);
    case ReadTail(id) => ReadKeeps(r, id, a);
    case WritePiece(id, at, n) => WritePieceKeeps(r, id, at, n);
    case WriteDone(id) => WriteDoneKeeps(r, id);
    case WriteFails(id, left) => WriteFailsKeeps(r, id, left);
    case Finished(id) => FinishedKeeps(r, id);
  }

  /** Each write changes exactly its own bytes, whatever ran since its blocks were read; other actions change
      nothing. */
  lemma DiskAfter(r: Run, a: Action, d: Disk)
    requires RunInv(r) && Possible(r, a) && Same(r.disk, Replay(d, r.log))
    ensures Same(Do(r, a).disk, Replay(d, Do(r, a).log))
  {
    hide Inv, Lo, Hi, TailBlock, Padded, Piece, Asked, Same, Overwrite, Replay, BuffersCurrent, Arrived;
    if a.WritePiece? {
      var j := r.jobs[a.id];
      var (at, data) := Asked(j, a.at, a.n);
      assert JobOk(r, a.id);
      PieceWrite(j, r.disk, a.at, a.n);
      OneMore(r.disk, d, r.log, at, data);
      var log := r.log + [(at, data)];
      SameAlso(Overwrite(r.disk, a.at, Piece(j, a.at, a.n)), Overwrite(r.disk, at, data), Replay(d, log));
    } else if a.WriteFails? {
      OneMore(r.disk, d, r.log, Lo(r.jobs[a.id]), a.left);
    }
  }

  lemma OneMore(disk: Disk, d: Disk, log: seq<(nat, seq<Byte>)>, off: nat, data: seq<Byte>)
    requires Same(disk, Replay(d, log))
    ensures Same(Overwrite(disk, off, data), Replay(d, log + [(off, data)]))
  {
    var more := log + [(off, data)];
    assert more[..|more| - 1] == log;
  }

  lemma SameAlso(a: Disk, b: Disk, c: Disk)
    requires Same(a, b) && Same(b, c)
    ensures Same(a, c)
  {
  }

  /** The run after some actions from an idle device with contents d, if all of them are possible. */
  ghost function Ran(d: Disk, acts: seq<Action>): Option<Run> {
    if acts == [] then Some(Run(INITIAL, d, map[], [])) else
      var before := Ran(d, acts[..|acts| - 1]);
      var a := acts[|acts| - 1];
      if before.Some? && Possible(before.value, a) then Some(Do(before.value, a)) else None
  }

  /** Whatever requests run together, in any order of their steps: the disk is what the writes that were carried out
      give one after the other, each changing exactly the bytes it was asked to change, or, if it failed, no more
      than its blocks. */
  lemma {:induction false} RunsAreAtomic(d: Disk, acts: seq<Action>)
    requires Ran(d, acts).Some?
    ensures RunInv(Ran(d, acts).value)
    ensures Same(Ran(d, acts).value.disk, Replay(d, Ran(d, acts).value.log))
    decreases |acts|
  {
    hide RunInv, Do, Possible, Same, Replay;
    if acts == [] {
      StartInv(d);
    } else {
      var before := acts[..|acts| - 1];
      RunsAreAtomic(d, before);
      DoKeeps(Ran(d, before).value, acts[|acts| - 1]);
      DiskAfter(Ran(d, before).value, acts[|acts| - 1], d);
    }
  }

  lemma StartInv(d: Disk)
    ensures RunInv(Run(INITIAL, d, map[], [])) && Same(d, Replay(d, []))
  {
    assert SerialisingIds(INITIAL) == {};
  }

  /** The assertions of 'bdrv_aligned_pwritev': the aligned write stays inside the range that its request claims. */
  lemma WriteIsClaimed(r: Run, id: Id, at: nat, n: nat)
    requires RunInv(r) && Possible(r, WritePiece(id, at, n))
    ensures var j, q := r.jobs[id], r.p.reqs[id];
      && q.lo <= Lo(j) && Lo(j) + |Padded(j)| <= q.lo + q.len && Scanned(r.p, id) == r.p
      && q.lo <= at && at + n <= q.lo + q.len
  {
    assert JobOk(r, id);
    PassedNeverWaits(r.p, id);
  }

  /** When an unaligned write is done, its bytes are on the disk, whatever else ran meanwhile. */
  lemma WriteArrives(r: Run, id: Id)
    requires RunInv(r) && Possible(r, WriteDone(id)) && Needs(r.jobs[id]).Some?
    ensures var j := r.jobs[id]; ReadAt(r.disk, j.off, |j.data|) == j.data
  {
    hide Inv, Lo, Hi, BuffersCurrent, ReadAt;
    var j := r.jobs[id];
    assert JobOk(r, id);
    Around(j);
    forall i | 0 <= i < |j.data| ensures ReadAt(r.disk, j.off, |j.data|)[i] == j.data[i] {
      var k := j.off + i;
      assert k in j.wrote && r.disk(k) == j.data[k - j.off];
      assert ReadAt(r.disk, j.off, |j.data|)[k - j.off] == r.disk(k);
    }
  }

  // ----- 'bdrv_co_do_pwritev' on its own -----

  /** The bytes s with data put at off. */
  function Spliced(s: seq<Byte>, off: nat, data: seq<Byte>): seq<Byte>
    requires off + |data| <= |s|
  {
    s[..off] + data + s[off + |data|..]
  }

  /** A device that is read and written in whole blocks. */
  class Device {
    const disk: array<Byte>
    const align: nat

    constructor (size: nat, align: nat)
      ensures fresh(disk) && disk.Length == size && this.align == align
    {
      disk := new Byte[size];
      this.align := align;
    }

    method ReadBlock(at: nat) returns (buf: seq<Byte>)
      requires align > 0 && at % align == 0 && at + align <= disk.Length
      ensures buf == disk[at..at + align]
    {
      buf := disk[at..at + align];
    }

    method WriteBlocks(at: nat, v: seq<Byte>)
      requires align > 0 && at % align == 0 && |v| % align == 0 && at + |v| <= disk.Length
      modifies disk
      ensures disk[..] == Spliced(old(disk[..]), at, v)
    {
      var i := 0;
      while i < |v|
        invariant 0 <= i <= |v|
        invariant forall k :: at <= k < at + i ==> disk[k] == v[k - at]
        invariant forall k :: 0 <= k < disk.Length && !(at <= k < at + i) ==> disk[k] == old(disk[k])
      {
        disk[at + i] := v[i];
        i := i + 1;
      }
    }

    /** The part of 'bdrv_co_do_pwritev' that reads the block of an unaligned start and puts its bytes in front. */
    method PadHead(off: nat, data: seq<Byte>) returns (offset: nat, qiov: seq<Byte>)
      requires align > 0 && Up(off + |data|, align) <= disk.Length
      ensures offset == Down(off, align) && offset <= off <= disk.Length && qiov == disk[offset..off] + data
    {
      offset, qiov := off, data;
      BlocksInside(NewJob(off, data, align));
      if off % align != 0 {
        var headBuf := ReadBlock(Down(off, align));
        qiov := headBuf[..off % align] + data;
        offset := Down(off, align);
        assert headBuf[..off % align] == disk[offset..off];
      }
    }

    /** The part that reads the block of an unaligned end and puts its bytes behind. */
    method PadTail(end: nat, qiov: seq<Byte>) returns (hi: nat, v: seq<Byte>)
      requires align > 0 && Up(end, align) <= disk.Length
      ensures hi == Up(end, align) && end <= hi && v == qiov + disk[end..hi]
    {
      hi, v := end, qiov;
      UpOfMultiple(end, align);
      if end % align != 0 {
        var tailBuf := ReadBlock(Down(end, align));
        var tailBytes := end % align;
        v := qiov + tailBuf[tailBytes..];
        hi := Down(end, align) + align;
        assert tailBuf[tailBytes..] == disk[end..hi];
      }
    }

    /** headOk, tailOk: whether the driver can read the first and the last block, if that is needed. */
    method DoPwritev(off: nat, data: seq<Byte>, headOk: bool, tailOk: bool) returns (ok: bool)
      requires align > 0 && Up(off + |data|, align) <= disk.Length
      modifies disk
      ensures ok <==> (off % align != 0 ==> headOk) && ((off + |data|) % align != 0 ==> tailOk)
      ensures disk[..] == if ok then Spliced(old(disk[..]), off, data) else old(disk[..])
    {
      hide Spliced;
      ghost var before := disk[..];
      var end := off + |data|;
      if off % align != 0 && !headOk { return false; }
      var offset, qiov := PadHead(off, data);
      if end % align != 0 && !tailOk { return false; }
      var hi, v := PadTail(end, qiov);
      WholeBlocks(offset, hi, align);
      WriteBlocks(offset, v);
      PaddedSplice(before, offset, off, data, hi);
      return true;
    }
  }

  lemma WholeBlocks(lo: nat, hi: nat, align: nat)
    requires align > 0 && lo % align == 0 && hi % align == 0 && lo <= hi
    ensures (hi - lo) % align == 0
  {
    SumMod(lo, hi - lo, align);
  }

  /** Writing the bytes around data back where they came from. */
  lemma PaddedSplice(s: seq<Byte>, lo: nat, off: nat, data: seq<Byte>, hi: nat)
    requires lo <= off && off + |data| <= hi <= |s|
    ensures Spliced(s, lo, s[lo..off] + data + s[off + |data|..hi]) == Spliced(s, off, data)
  {
  }
}
