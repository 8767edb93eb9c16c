/** Rounding to a multiple of an alignment. */
module Alignment {

  lemma Scaled(a: nat, d: int)
    requires a > 0
    ensures d >= 1 ==> a * d >= a
    ensures d <= -1 ==> a * d <= 0 - a
  {
  }

  /** Quotient and remainder are unique. */
  lemma Division(m: nat, a: nat, q: int, r: nat)
    requires a > 0 && r < a && m == a * q + r
    ensures m / a == q && m % a == r
  {
    var d := q - m / a;
    assert a * d == a * q - a * (m / a);
    Scaled(a, d);
  }

  /** offset & ~(align - 1) */
  function Down(n: nat, a: nat): (r: nat)
    requires a > 0
    ensures r <= n < r + a && r % a == 0 && n - r == n % a
  {
    assert n == a * (n / a) + n % a;
    Division(n - n % a, a, n / a, 0);
    n - n % a
  }

  /** ROUND_UP */
  function Up(n: nat, a: nat): (r: nat)
    requires a > 0
    ensures n <= r < n + a && r % a == 0
  {
    Down(n + a - 1, a)
  }

  /** Remainders of a sum. */
  lemma SumMod(m: nat, n: nat, a: nat)
    requires a > 0 && m % a == 0
    ensures (m + n) % a == n % a
  {
    assert m == a * (m / a) && n == a * (n / a) + n % a;
    assert m + n == a * (m / a + n / a) + n % a;
    Division(m + n, a, m / a + n / a, n % a);
  }

  /** Multiples of a less than a apart are equal. */
  lemma SameMultiple(m: nat, n: nat, a: nat)
    requires a > 0 && m % a == 0 && n % a == 0 && m <= n < m + a
    ensures m == n
  {
    SumMod(m, n - m, a);
    Division(n - m, a, 0, n - m);
  }

  lemma UpOfMultiple(n: nat, a: nat)
    requires a > 0
    ensures n % a == 0 ==> Up(n, a) == n
    ensures n % a != 0 ==> Up(n, a) == Down(n, a) + a
  {
    if n % a == 0 {
      SameMultiple(n, Up(n, a), a);
    } else {
      SumMod(Down(n, a), a, a);
      Division(a, a, 1, 0);
      var x, y := Up(n, a), Down(n, a) + a;
      if x <= y { SameMultiple(x, y, a); } else { SameMultiple(y, x, a); }
    }
  }
}

/** Tracked requests of the block layer: a request waits for those it must not overlap. */
module Serialising {
  import opened Common
  import opened Alignment

  type Id = nat

  /** A tracked request, its overlap range and 'waiting_for'. A request's address is a number, not used twice. */
  datatype Req = Req(off: nat, bytes: nat, ser: bool, lo: nat, len: nat, waiting: Option<Id>)

  /** 'tracked_requests' (most recent first), the requests, and 'serialising_in_flight'. */
  datatype State = State(order: seq<Id>, reqs: map<Id, Req>, inFlight: int)

  const INITIAL := State([], map[], 0)

  /** 'tracked_request_overlaps'. */
  predicate Overlaps(r: Req, lo: nat, len: nat) {
    !(lo >= r.lo + r.len) && !(r.lo >= lo + len)
  }

  /** Two requests that must not be under way together. */
  predicate Conflict(a: Req, b: Req) {
    (a.ser || b.ser) && Overlaps(a, b.lo, b.len)
  }

  // ----- the functions of block.c, as functions of the state -----

  function Begun(s: State, id: Id, off: nat, bytes: nat): State {
    s.(order := [id] + s.order, reqs := s.reqs[id := Req(off, bytes, false, off, bytes, None)])
  }

  function MarkedReq(r: Req, align: nat): Req
    requires align > 0
  {
    var lo := Down(r.off, align);
    var len := Up(r.off + r.bytes, align) - lo;
    r.(ser := true, lo := if r.lo < lo then r.lo else lo, len := if r.len > len then r.len else len)
  }

  function Marked(s: State, id: Id, align: nat): State
    requires id in s.reqs && align > 0
  {
    s.(reqs := s.reqs[id := MarkedReq(s.reqs[id], align)], inFlight := s.inFlight + if s.reqs[id].ser then 0 else 1)
  }

  /** x makes 'id' wait: they conflict and x is not waiting itself. */
  predicate Blocks(s: State, id: Id, x: Id)
    requires id in s.reqs
  {
    x in s.reqs && x != id && Conflict(s.reqs[x], s.reqs[id]) && s.reqs[x].waiting.None?
  }

  /** The first request of the list that makes 'id' wait. */
  function Blocker(s: State, id: Id, order: seq<Id>): (b: Option<Id>)
    requires id in s.reqs
    ensures b.Some? ==> b.value in order && Blocks(s, id, b.value)
    ensures b.None? ==> forall x :: x in order ==> !Blocks(s, id, x)
  {
    if order == [] then None else if Blocks(s, id, order[0]) then Some(order[0]) else Blocker(s, id, order[1..])
  }

  function SetWaiting(s: State, id: Id, w: Option<Id>): State
    requires id in s.reqs
  {
    s.(reqs := s.reqs[id := s.reqs[id].(waiting := w)])
  }

  /** One pass of 'wait_serialising_requests', up to its next wait or to its end. */
  function Scanned(s: State, id: Id): State
    requires id in s.reqs
  {
    if s.inFlight == 0 then s else SetWaiting(s, id, Blocker(s, id, s.order))
  }

  function Without(order: seq<Id>, id: Id): (r: seq<Id>)
    ensures forall x :: x in r <==> x in order && x != id
    ensures Distinct(order) ==> Distinct(r)
  {
    if order == [] then [] else if order[0] == id then Without(order[1..], id) else [order[0]] + Without(order[1..], id)
  }

  predicate Distinct(order: seq<Id>) {
    order != [] ==> order[0] !in order[1..] && Distinct(order[1..])
  }

  function Ended(s: State, id: Id): State
    requires id in s.reqs
  {
    State(Without(s.order, id), s.reqs - {id}, s.inFlight - if s.reqs[id].ser then 1 else 0)
  }

  // ----- runs -----

  /** What happens between two points where a coroutine can yield. */
  datatype Event =
    // begins, marks itself serialising if it has an alignment, looks for requests to wait for
    | Arrive(id: Id, off: nat, bytes: nat, align: Option<nat>)
    // wakes up and looks again
    | Resume(id: Id)
    // has passed, and calls 'wait_serialising_requests' again
    | Recheck(id: Id)
    // ends, waking up those that wait for it
    | Finish(id: Id)

  /** A request that is tracked and not waiting has passed 'wait_serialising_requests'. */
  predicate Passed(s: State, id: Id) {
    id in s.reqs && s.reqs[id].waiting.None?
  }

  predicate Enabled(s: State, e: Event) {
    match e
    case Arrive(id, _, _, align) =>
      && id !in s.reqs && (forall x :: x in s.reqs ==> s.reqs[x].waiting != Some(id))
      && (align.Some? ==> align.value > 0)
    case Resume(id) => id in s.reqs && s.reqs[id].waiting.Some?
    case Recheck(id) => Passed(s, id)
    case Finish(id) => Passed(s, id)
  }

  function Step(s: State, e: Event): State
    requires Enabled(s, e)
  {
    match e
    case Arrive(id, off, bytes, align) =>
      var s1 := Begun(s, id, off, bytes);
      Scanned(if align.Some? then Marked(s1, id, align.value) else s1, id)
    case Resume(id) => Scanned(SetWaiting(s, id, None), id)
    case Recheck(id) => Scanned(s, id)
    case Finish(id) => Ended(s, id)
  }

  // ----- the invariant -----

  function SerialisingIds(s: State): set<Id> {
    set x | x in s.reqs && s.reqs[x].ser
  }

  ghost predicate Listed(s: State) {
    Distinct(s.order) && forall x :: x in s.order <==> x in s.reqs
  }

  /** The counter of the fast path is exact. */
  ghost predicate Counted(s: State) {
    s.inFlight == |SerialisingIds(s)|
  }

  /** Nobody waits for a request that is waiting. */
  ghost predicate NoChains(s: State) {
    forall x :: x in s.reqs && s.reqs[x].waiting.Some? && s.reqs[x].waiting.value in s.reqs ==> Passed(s,
        s.reqs[x].waiting.value)
  }

  /** No two conflicting requests have both passed. */
  ghost predicate Exclusive(s: State) {
    forall x, y :: Passed(s, x) && Passed(s, y) && x != y ==> !Conflict(s.reqs[x], s.reqs[y])
  }

  ghost predicate Inv(s: State) {
    Listed(s) && Counted(s) && NoChains(s) && Exclusive(s)
  }

  /** Nobody waits for 'id'. */
  ghost predicate Unwanted(s: State, id: Id) {
    forall x :: x in s.reqs ==> s.reqs[x].waiting != Some(id)
  }

  ghost predicate ExclusiveBut(s: State, id: Id) {
    forall x, y :: Passed(s, x) && Passed(s, y) && x != y && x != id && y != id ==> !Conflict(s.reqs[x], s.reqs[y])
  }

  /** With no serialising request around, nothing makes a request wait: the fast path loses nothing. */
  lemma FastPath(s: State, id: Id)
    requires Counted(s) && id in s.reqs && s.inFlight == 0
    ensures Blocker(s, id, s.order) == None
  {
    assert SerialisingIds(s) == {};
    assert forall x :: x in s.reqs ==> x !in SerialisingIds(s);
  }

  lemma ConflictSymmetric(a: Req, b: Req)
    ensures Conflict(a, b) == Conflict(b, a)
  {
  }

  /** After the scan 'id' either waits or conflicts with no request that has passed. */
  lemma ScanExclusive(s: State, id: Id)
    requires Listed(s) && Counted(s) && Passed(s, id) && ExclusiveBut(s, id)
    ensures Exclusive(Scanned(s, id))
  {
    hide Conflict, SerialisingIds;
    if s.inFlight == 0 { FastPath(s, id); }
    var b := Blocker(s, id, s.order);
    var s' := SetWaiting(s, id, b);
    assert Scanned(s, id).reqs == s'.reqs;
    forall x, y | Passed(s', x) && Passed(s', y) && x != y ensures !Conflict(s'.reqs[x], s'.reqs[y]) {
      ConflictSymmetric(s'.reqs[x], s'.reqs[y]);
      assert Passed(s, x) && Passed(s, y);
      if x == id { assert !Blocks(s, id, y); }
      if y == id { assert !Blocks(s, id, x); }
    }
  }

  /** Those it waits for have passed. */
  lemma ScanNoChains(s: State, id: Id)
    requires Passed(s, id) && NoChains(s) && Unwanted(s, id)
    ensures NoChains(Scanned(s, id))
  {
    hide Conflict, SerialisingIds;
    var s' := Scanned(s, id);
    forall x | x in s'.reqs && s'.reqs[x].waiting.Some? && s'.reqs[x].waiting.value in s'.reqs
      ensures Passed(s', s'.reqs[x].waiting.value)
    {
      if x != id { assert Passed(s, s.reqs[x].waiting.value); }
    }
  }

  lemma WaitingKeeps(s: State, id: Id, w: Option<Id>)
    requires Listed(s) && Counted(s) && id in s.reqs
    ensures Listed(SetWaiting(s, id, w)) && Counted(SetWaiting(s, id, w))
  {
    assert SerialisingIds(SetWaiting(s, id, w)) == SerialisingIds(s);
  }

  lemma ScanKeeps(s: State, id: Id)
    requires Listed(s) && Counted(s) && Passed(s, id) && ExclusiveBut(s, id) && NoChains(s) && Unwanted(s, id)
    ensures Inv(Scanned(s, id))
  {
    hide Conflict, SerialisingIds, Listed, Counted, NoChains, Exclusive, ExclusiveBut, Unwanted, Blocker, SetWaiting;
    ScanExclusive(s, id);
    ScanNoChains(s, id);
    WaitingKeeps(s, id, Blocker(s, id, s.order));
  }

  /** A new request, marked or not, before it looks for others. */
  lemma BegunKeeps(s: State, id: Id, off: nat, bytes: nat, align: Option<nat>)
    requires Inv(s) && Enabled(s, Arrive(id, off, bytes, align))
    ensures var s1 := Begun(s, id, off, bytes);
      var s2 := if align.Some? then Marked(s1, id, align.value) else s1;
      Listed(s2) && Counted(s2) && Passed(s2, id) && ExclusiveBut(s2, id) && NoChains(s2) && Unwanted(s2, id)
  {
    hide Conflict, Counted, ExclusiveBut, Exclusive, NoChains, SerialisingIds;
    var s1 := Begun(s, id, off, bytes);
    var s2 := if align.Some? then Marked(s1, id, align.value) else s1;
    assert s2.order[1..] == s.order;
    BegunCounted(s, s2, id, align);
    BegunOthers(s, s2, id);
  }

  /** A request that was not there before changes nothing for the others. */
  lemma BegunOthers(s: State, s2: State, id: Id)
    requires Exclusive(s) && NoChains(s) && Unwanted(s, id) && id !in s.reqs && s2.reqs.Keys == s.reqs.Keys + {id}
    requires s2.reqs[id].waiting.None? && forall x :: x in s.reqs ==> s2.reqs[x] == s.reqs[x]
    ensures ExclusiveBut(s2, id) && NoChains(s2) && Unwanted(s2, id)
  {
    hide Conflict;
    assert forall x :: x in s2.reqs && x != id ==> x in s.reqs && s2.reqs[x] == s.reqs[x];
    forall x, y | Passed(s2, x) && Passed(s2, y) && x != y && x != id && y != id
      ensures !Conflict(s2.reqs[x], s2.reqs[y])
    {
      assert Passed(s, x) && Passed(s, y);
    }
  }

  lemma BegunCounted(s: State, s2: State, id: Id, align: Option<nat>)
    requires Counted(s) && id !in s.reqs && s2.inFlight == s.inFlight + if align.Some? then 1 else 0
    requires s2.reqs.Keys == s.reqs.Keys + {id} && s2.reqs[id].ser == align.Some?
    requires forall x :: x in s.reqs ==> s2.reqs[x] == s.reqs[x]
    ensures Counted(s2)
  {
    assert SerialisingIds(s2) == SerialisingIds(s) + if align.Some? then {id} else {};
  }

  lemma ResumeKeeps(s: State, id: Id)
    requires Inv(s) && Enabled(s, Resume(id))
    ensures Inv(Step(s, Resume(id)))
  {
    hide Conflict, SerialisingIds, Scanned, Listed, Counted;
    var s1 := SetWaiting(s, id, None);
    WaitingKeeps(s, id, None);
    forall x, y | Passed(s1, x) && Passed(s1, y) && x != y && x != id && y != id
      ensures !Conflict(s1.reqs[x], s1.reqs[y])
    {
      assert Passed(s, x) && Passed(s, y);
    }
    assert !Passed(s, id);
    ScanKeeps(s1, id);
  }

  /** A request that has passed never waits again. */
  lemma PassedNeverWaits(s: State, id: Id)
    requires Inv(s) && Passed(s, id)
    ensures Blocker(s, id, s.order) == None && Scanned(s, id) == s
  {
    hide Conflict, SerialisingIds;
    assert forall x :: x in s.order ==> !Blocks(s, id, x) by {
      forall x | x in s.order ensures !Blocks(s, id, x) {
        if x in s.reqs && x != id && s.reqs[x].waiting.None? { assert Passed(s, x); }
      }
    }
    assert s.reqs[id := s.reqs[id].(waiting := None)] == s.reqs;
  }

  lemma FinishKeeps(s: State, id: Id)
    requires Inv(s) && Enabled(s, Finish(id))
    ensures Inv(Step(s, Finish(id)))
  {
    hide Conflict;
    var s' := Ended(s, id);
    EndedCounted(s, id);
    forall x, y | Passed(s', x) && Passed(s', y) && x != y ensures !Conflict(s'.reqs[x], s'.reqs[y]) {
      assert Passed(s, x) && Passed(s, y);
    }
    forall x | x in s'.reqs && s'.reqs[x].waiting.Some? && s'.reqs[x].waiting.value in s'.reqs
      ensures Passed(s', s'.reqs[x].waiting.value)
    {
      assert Passed(s, s.reqs[x].waiting.value);
    }
  }

  lemma EndedCounted(s: State, id: Id)
    requires Counted(s) && id in s.reqs
    ensures Counted(Ended(s, id))
  {
    assert SerialisingIds(Ended(s, id)) == SerialisingIds(s) - {id};
  }

  lemma StepKeeps(s: State, e: Event)
    requires Inv(s) && Enabled(s, e)
    ensures Inv(Step(s, e))
  {
    hide Inv, Scanned;
    match e
    case Arrive(id, off, bytes, align) =>
      BegunKeeps(s, id, off, bytes, align);
      var s1 := Begun(s, id, off, bytes);
      ScanKeeps(if align.Some? then Marked(s1, id, align.value) else s1, id);
    case Resume(id) => ResumeKeeps(s, id);
    case Recheck(id) => PassedNeverWaits(s, id);
    case Finish(id) => FinishKeeps(s, id);
  }

  /** The state after a run, if every event of it can happen. */
  function After(es: seq<Event>): Option<State> {
    if es == [] then Some(INITIAL) else
      var before := After(es[..|es| - 1]);
      if before.Some? && Enabled(before.value, es[|es| - 1]) then Some(Step(before.value, es[|es| - 1])) else None
  }

  /** In every run: no two conflicting requests have both passed, the counter is exact, and nobody waits for a
      waiting request. */
  lemma {:induction false} RunsAreSafe(es: seq<Event>)
    requires After(es).Some?
    ensures Inv(After(es).value)
    decreases |es|
  {
    if es == [] {
      assert SerialisingIds(INITIAL) == {};
    } else {
      RunsAreSafe(es[..|es| - 1]);
      StepKeeps(After(es[..|es| - 1]).value, es[|es| - 1]);
    }
  }

  /** In every run: a request that calls 'wait_serialising_requests' again after passing it does not wait. */
  lemma NoSecondWait(es: seq<Event>, id: Id)
    requires After(es).Some? && Passed(After(es).value, id)
    ensures Step(After(es).value, Recheck(id)) == After(es).value
  {
    RunsAreSafe(es);
    PassedNeverWaits(After(es).value, id);
  }

  /** No deadlock: as long as requests are tracked, one of them can go on, because it has passed or because the
      request it waited for has ended. */
  lemma SomeoneCanGoOn(es: seq<Event>)
    requires After(es).Some? && After(es).value.reqs != map[]
    ensures var s := After(es).value;
      exists id :: id in s.reqs && (Passed(s, id) || (s.reqs[id].waiting.Some? && s.reqs[id].waiting.value !in s.reqs))
  {
    RunsAreSafe(es);
    var s := After(es).value;
    assert s.reqs.Keys != {};
    var id :| id in s.reqs.Keys;
    if !Passed(s, id) {
      var y := s.reqs[id].waiting.value;
      if y in s.reqs { assert Passed(s, y); }
    }
  }

  ghost predicate WaitsFor(s: State, x: Id, y: Id) {
    x in s.reqs && y in s.reqs && s.reqs[x].waiting == Some(y)
  }

  /** In every run the 'waiting_for' graph has no cycle: its longest paths are single edges between different
      requests. */
  lemma Acyclic(es: seq<Event>, path: seq<Id>)
    requires After(es).Some? && |path| >= 2
    requires forall i :: 0 <= i < |path| - 1 ==> WaitsFor(After(es).value, path[i], path[i + 1])
    ensures |path| == 2 && path[0] != path[1]
  {
    RunsAreSafe(es);
    var s := After(es).value;
    assert WaitsFor(s, path[0], path[0 + 1]);
    assert Passed(s, path[1]);
    assert |path| > 2 ==> WaitsFor(s, path[1], path[1 + 1]);
  }

  /** Marking a request again with the same alignment changes nothing. */
  lemma RemarkSame(s: State, id: Id, align: nat)
    requires id in s.reqs && align > 0
    ensures Marked(Marked(s, id, align), id, align) == Marked(s, id, align)
  {
    var s1 := Marked(s, id, align);
    assert MarkedReq(s1.reqs[id], align) == s1.reqs[id];
    assert Marked(s1, id, align).reqs == s1.reqs;
  }

  /** Marking only widens the range that a request claims, and the new one holds all blocks that the request touches. */
  lemma MarkCovers(r: Req, align: nat)
    requires align > 0 && r.lo == r.off && r.len == r.bytes
    ensures var r' := MarkedReq(r, align);
      && r'.lo == Down(r.off, align) && r'.lo + r'.len == Up(r.off + r.bytes, align)
      && r'.lo <= r.lo && r.lo + r.len <= r'.lo + r'.len
  {
  }

  lemma BlockerAt(s: State, id: Id, order: seq<Id>, i: nat)
    requires id in s.reqs && i < |order| && order[i] in s.reqs
    ensures var x := order[i]; var r, q := s.reqs[x], s.reqs[id];
      Blocker(s, id, order[i..]) ==
        if x != id && (r.ser || q.ser) && Overlaps(r, q.lo, q.len) && r.waiting.None? then Some(x) else Blocker(s, id,
            order[i + 1..])
  {
    hide Overlaps;
    assert order[i..][1..] == order[i + 1..];
  }

  lemma BlockerEnd(s: State, id: Id, order: seq<Id>)
    requires id in s.reqs
    ensures Blocker(s, id, order[|order|..]) == None
  {
  }

  /** The part of BlockDriverState that tracks requests, updated in place. */
  class BlockDriverState {
    var order: seq<Id>
    var reqs: map<Id, Req>
    var inFlight: int

    ghost function Now(): State
      reads this
    {
      State(order, reqs, inFlight)
    }

    constructor ()
      ensures Now() == INITIAL
    {
      order, reqs, inFlight := [], map[], 0;
    }

    method TrackedRequestBegin(id: Id, off: nat, bytes: nat)
      requires id !in reqs
      modifies this
      ensures Now() == Begun(old(Now()), id, off, bytes)
    {
      reqs := reqs[id := Req(off, bytes, false, off, bytes, None)];
      order := [id] + order;
    }

    method TrackedRequestEnd(id: Id)
      requires id in reqs
      modifies this
      ensures Now() == Ended(old(Now()), id)
    {
      if reqs[id].ser { inFlight := inFlight - 1; }
      order := Without(order, id);
      reqs := reqs - {id};
    }

    method MarkRequestSerialising(id: Id, align: nat)
      requires id in reqs && align > 0
      modifies this
      ensures Now() == Marked(old(Now()), id, align)
    {
      var r := reqs[id];
      var overlapOffset := Down(r.off, align);
      var overlapBytes := Up(r.off + r.bytes, align) - overlapOffset;
      if !r.ser {
        inFlight := inFlight + 1;
        r := r.(ser := true);
      }
      r := r.(lo := if r.lo < overlapOffset then r.lo else overlapOffset);
      r := r.(len := if r.len > overlapBytes then r.len else overlapBytes);
      reqs := reqs[id := r];
    }

    /** 'wait_serialising_requests' up to the point where it waits (then 'wait' is true) or returns. */
    method WaitSerialisingRequests(id: Id) returns (wait: bool)
      requires Listed(Now()) && Passed(Now(), id)
      modifies this
      ensures Now() == Scanned(old(Now()), id)
      ensures wait == !Passed(Now(), id)
    {
      hide Blocker, Overlaps, Conflict;
      wait := false;
      if inFlight == 0 { return; }
      var i := 0;
      assert order[0..] == order;
      while i < |order|
        invariant 0 <= i <= |order| && Now() == old(Now())
        invariant Blocker(Now(), id, order) == Blocker(Now(), id, order[i..])
      {
        var req := order[i];
        assert req in order;
        BlockerAt(Now(), id, order, i);
        if req != id && (reqs[req].ser || reqs[id].ser) && Overlaps(reqs[req], reqs[id].lo, reqs[id].len)
           && reqs[req].waiting.None?
        {
          reqs := reqs[id := reqs[id].(waiting := Some(req))];
          return true;
        }
        i := i + 1;
      }
      BlockerEnd(Now(), id, order);
      assert reqs[id := reqs[id].(waiting := None)] == reqs;
    }

    /** The waiting request is woken up and goes round its loop again. */
    method WakeUp(id: Id) returns (wait: bool)
      requires Inv(Now()) && Enabled(Now(), Resume(id))
      modifies this
      ensures Now() == Step(old(Now()), Resume(id)) && Inv(Now())
      ensures wait == !Passed(Now(), id)
    {
      ResumeKeeps(Now(), id);
      WaitingKeeps(Now(), id, None);
      reqs := reqs[id := reqs[id].(waiting := None)];
      wait := WaitSerialisingRequests(id);
    }

    /** The start of a request: tracked, marked if it has to be, and checked against the others. */
    method StartRequest(id: Id, off: nat, bytes: nat, align: Option<nat>) returns (wait: bool)
      requires Inv(Now()) && Enabled(Now(), Arrive(id, off, bytes, align))
      modifies this
      ensures Now() == Step(old(Now()), Arrive(id, off, bytes, align)) && Inv(Now())
      ensures wait == !Passed(Now(), id)
    {
      hide Inv, Scanned, SerialisingIds;
      StepKeeps(Now(), Arrive(id, off, bytes, align));
      BegunKeeps(Now(), id, off, bytes, align);
      TrackedRequestBegin(id, off, bytes);
      if align.Some? { MarkRequestSerialising(id, align.value); }
      wait := WaitSerialisingRequests(id);
    }
  }
}
