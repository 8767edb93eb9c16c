/** When 'finaltarget' ends: exactly when the jumps it follows do not go round in a circle. In the code of accepted
    patterns they never do, neither while calls are corrected nor during the peephole pass. */
module Jumps {
  import opened PegTree
  import opened Analysis
  import opened Vm
  import opened Layout
  import opened Code
  import opened Tidiness
  import opened GrammarCheck
  import opened Peephole

  predicate IsJump(code: seq<Slot>, k: int) {
    IsOp(code, k, IJmp) && OffAt(code, k + 1)
  }

  /** Where n jumps lead from k; defined only while there is a jump to follow. */
  ghost predicate Leads(code: seq<Slot>, k: int, n: nat, k': int)
    decreases n
  {
    if n == 0 then k' == k else IsJump(code, k) && Leads(code, k + code[k + 1].offset, n - 1, k')
  }

  ghost predicate PassedBy(code: seq<Slot>, k: int, k': int) {
    exists n: nat :: n > 0 && Leads(code, k, n, k')
  }

  /** Following jumps from k comes back to a jump it has been at. */
  ghost predicate Circles(code: seq<Slot>, k: int) {
    exists n: nat, m: nat, x: int :: n > 0 && Leads(code, k, m, x) && Leads(code, x, n, x)
  }

  lemma {:induction false} LeadsTrans(code: seq<Slot>, k: int, n: nat, x: int, m: nat, y: int)
    requires Leads(code, k, n, x) && Leads(code, x, m, y)
    ensures Leads(code, k, n + m, y)
    decreases n
  {
    if n > 0 { LeadsTrans(code, k + code[k + 1].offset, n - 1, x, m, y); }
  }

  /** The jumps passed so far, all different, are counted by 'seen'. */
  lemma {:induction false} StopsWithin(code: seq<Slot>, k: int, x: int, seen: set<int>, hops: nat, m: nat)
    requires !Circles(code, k) && Leads(code, k, m, x)
    requires forall y :: y in seen ==> 0 <= y < |code| && PassedBy(code, y, x)
    requires |seen| + hops >= |code|
    ensures !IsJump(code, FinalTarget(code, x, hops))
    decreases hops
  {
    if IsJump(code, x) {
      assert x !in seen;
      var seen' := seen + {x};
      Bounded(seen', |code|);
      var x' := x + code[x + 1].offset;
      assert Leads(code, x, 1, x') by { assert Leads(code, x', 0, x'); }
      forall y | y in seen' ensures PassedBy(code, y, x') {
        if y in seen {
          var n: nat :| n > 0 && Leads(code, y, n, x);
          LeadsTrans(code, y, n, x, 1, x');
        }
      }
      LeadsTrans(code, k, m, x, 1, x');
      StopsWithin(code, k, x', seen', hops - 1, m + 1);
    }
  }

  lemma {:induction false} Bounded(xs: set<int>, n: nat)
    requires forall x :: x in xs ==> 0 <= x < n
    ensures |xs| <= n
    decreases n
  {
    if n > 0 {
      Bounded(xs - {n - 1}, n - 1);
    } else {
      forall x ensures x !in xs {}
    }
  }

  /** Going round in a circle never ends. */
  lemma {:induction false} CircleNeverStops(code: seq<Slot>, k: int, hops: nat)
    requires Circles(code, k)
    ensures IsJump(code, FinalTarget(code, k, hops))
    decreases hops
  {
    var n: nat, m: nat, x: int :| n > 0 && Leads(code, k, m, x) && Leads(code, x, n, x);
    if hops > 0 {
      var k' := k + code[k + 1].offset;
      if m > 0 {
        assert Leads(code, k', m - 1, x);
      } else {
        var x' := x + code[x + 1].offset;
        assert Leads(code, x', n - 1, x);
        assert Leads(code, x, 1, x') by { assert Leads(code, x', 0, x'); }
        LeadsTrans(code, x', n - 1, x, 1, x');
        assert Leads(code, x', 0, x');
      }
      assert Circles(code, k');
      CircleNeverStops(code, k', hops - 1);
    }
  }

  /** The unbounded loop of 'finaltarget' ends if and only if the jumps from k do not go in a circle; then the bound
      that FinalTarget puts on it, the size of the code, is never reached, and its result is the end of the chain. */
  lemma TargetIsFinal(code: seq<Slot>, k: int, hops: nat)
    requires hops >= |code|
    ensures !Circles(code, k) <==> !IsJump(code, FinalTarget(code, k, hops))
    ensures !Circles(code, k) ==> FinalTarget(code, k, hops) == FinalTarget(code, k, |code|)
  {
    if Circles(code, k) {
      CircleNeverStops(code, k, hops);
    } else {
      assert Leads(code, k, 0, k);
      StopsWithin(code, k, k, {}, |code|, 0);
      StopsWithin(code, k, k, {}, hops, 0);
      MoreHops(code, k, |code|, hops);
    }
  }

  lemma {:induction false} MoreHops(code: seq<Slot>, k: int, h: nat, h': nat)
    requires h <= h' && !IsJump(code, FinalTarget(code, k, h))
    ensures FinalTarget(code, k, h') == FinalTarget(code, k, h)
    decreases h
  {
    if h > 0 && IsJump(code, k) { MoreHops(code, k + code[k + 1].offset, h - 1, h' - 1); }
  }

  // ----- pieces of code -----

  /** From k the jumps of x lead to y, which is no jump, or the end of x. */
  ghost predicate Leaves(x: seq<Slot>, k: int, y: int) {
    0 <= y <= |x| && !IsOp(x, y, IJmp) && exists n: nat :: Leads(x, k, n, y)
  }

  ghost predicate LeavesSomewhere(x: seq<Slot>, k: int) {
    exists y :: Leaves(x, k, y)
  }

  /** Wherever one starts in x, the jumps end. */
  ghost predicate NoLoop(x: seq<Slot>) {
    forall k :: 0 <= k <= |x| ==> LeavesSomewhere(x, k)
  }

  lemma Stays(x: seq<Slot>, k: int)
    requires 0 <= k <= |x| && !IsOp(x, k, IJmp)
    ensures Leaves(x, k, k) && LeavesSomewhere(x, k)
  {
    assert Leads(x, k, 0, k);
    assert Leaves(x, k, k);
  }

  lemma Hop(x: seq<Slot>, k: int, y: int)
    requires IsJump(x, k) && Leaves(x, k + x[k + 1].offset, y)
    ensures Leaves(x, k, y) && LeavesSomewhere(x, k)
  {
    var n: nat :| Leads(x, k + x[k + 1].offset, n, y);
    assert Leads(x, k, n + 1, y);
  }

  lemma {:induction false} LeadsIn(pre: seq<Slot>, x: seq<Slot>, post: seq<Slot>, k: int, n: nat, y: int)
    requires Leads(x, k, n, y)
    ensures Leads(pre + x + post, |pre| + k, n, |pre| + y)
    decreases n
  {
    if n > 0 {
      var z := pre + x + post;
      assert z[|pre| + k] == x[k] && z[|pre| + k + 1] == x[k + 1];
      LeadsIn(pre, x, post, k + x[k + 1].offset, n - 1, y);
      assert |pre| + k + x[k + 1].offset == |pre| + (k + x[k + 1].offset);
    }
  }

  lemma LeavesLeft(x: seq<Slot>, y: seq<Slot>, k: int, v: int)
    requires Leaves(x, k, v) && v < |x|
    ensures Leaves(x + y, k, v)
  {
    var n: nat :| Leads(x, k, n, v);
    LeadsIn([], x, y, k, n, v);
    assert [] + x + y == x + y;
  }

  lemma LeavesRight(x: seq<Slot>, y: seq<Slot>, k: int, v: int)
    requires Leaves(y, k, v)
    ensures Leaves(x + y, |x| + k, |x| + v)
  {
    var n: nat :| Leads(y, k, n, v);
    LeadsIn(x, y, [], k, n, v);
    assert x + y + [] == x + y;
  }

  lemma LeavesThrough(x: seq<Slot>, y: seq<Slot>, k: int, v: int)
    requires Leaves(x, k, |x|) && Leaves(y, 0, v)
    ensures Leaves(x + y, k, |x| + v)
  {
    var n: nat :| Leads(x, k, n, |x|);
    LeadsIn([], x, y, k, n, |x|);
    assert [] + x + y == x + y;
    LeavesRight(x, y, 0, v);
    var m: nat :| Leads(x + y, |x|, m, |x| + v);
    LeadsTrans(x + y, k, n, |x|, m, |x| + v);
  }

  lemma NoLoopAdd(x: seq<Slot>, y: seq<Slot>)
    requires NoLoop(x) && NoLoop(y)
    ensures NoLoop(x + y)
  {
    hide Leaves;
    forall k | 0 <= k <= |x + y| ensures LeavesSomewhere(x + y, k) {
      if k < |x| {
        assert LeavesSomewhere(x, k);
        var v :| Leaves(x, k, v);
        LeavesInside(x, k, v);
        if v < |x| {
          LeavesLeft(x, y, k, v);
        } else {
          assert LeavesSomewhere(y, 0);
          var w :| Leaves(y, 0, w);
          LeavesThrough(x, y, k, w);
        }
      } else {
        assert LeavesSomewhere(y, k - |x|);
        var w :| Leaves(y, k - |x|, w);
        LeavesRight(x, y, k - |x|, w);
      }
    }
  }

  lemma LeavesInside(x: seq<Slot>, k: int, v: int)
    requires Leaves(x, k, v)
    ensures 0 <= v <= |x| && !IsOp(x, v, IJmp)
  {
  }

  ghost predicate NoJumps(x: seq<Slot>) {
    forall j :: 0 <= j < |x| ==> !IsOp(x, j, IJmp)
  }

  lemma NoLoopPlain(x: seq<Slot>)
    requires NoJumps(x)
    ensures NoLoop(x)
  {
    forall k | 0 <= k <= |x| ensures LeavesSomewhere(x, k) { Stays(x, k); }
  }

  /** A jump forward over a part of the rest. */
  lemma NoLoopJump(off: int, rest: seq<Slot>)
    requires NoLoop(rest) && 2 <= off <= 2 + |rest|
    ensures NoLoop([Op(IJmp), Off(off)] + rest)
  {
    hide Leaves;
    var jmp := [Op(IJmp), Off(off)];
    var z := jmp + rest;
    forall k | 0 <= k <= |z| ensures LeavesSomewhere(z, k) {
      if k == 1 {
        Stays(z, k);
      } else {
        var from := if k == 0 then off - 2 else k - 2;
        assert LeavesSomewhere(rest, from);
        var w :| Leaves(rest, from, w);
        LeavesRight(jmp, rest, from, w);
        if k == 0 { Hop(z, 0, 2 + w); }
      }
    }
  }

  lemma NoLoopTest(cs: Charset, off: int, rest: seq<Slot>)
    requires NoLoop(rest) && TestSize(cs) <= off <= TestSize(cs) + |rest|
    ensures NoLoop(TestCode(cs, off) + rest)
  {
    hide NoLoop, CharsetType;
    if CharsetType(cs) == EmptySet {
      assert TestCode(cs, off) == [Op(IJmp), Off(off)];
      NoLoopJump(off, rest);
    } else {
      NoLoopPlain(TestCode(cs, off));
      NoLoopAdd(TestCode(cs, off), rest);
    }
  }

  lemma NoLoopMaybe(f: First, off: int, rest: seq<Slot>)
    requires NoLoop(rest) && MaybeSize(f) <= off <= MaybeSize(f) + |rest|
    ensures NoLoop(MaybeTest(f, off) + rest)
  {
    hide NoLoop, TestCode, TestSize;
    if f.e { assert [] + rest == rest; } else { NoLoopTest(f.cs, off, rest); }
  }

  // ----- layouts -----

  lemma LoopChoiceTested(cs: Charset, x1: seq<Slot>, x2: seq<Slot>, empty: bool)
    requires NoLoop(x1) && NoLoop(x2)
    ensures NoLoop(ChoiceTested(cs, x1, x2, empty))
  {
    hide NoLoop, TestCode, TestSize;
    var jmp := if empty then [] else [Op(IJmp), Off(2 + |x2|)];
    if empty { assert jmp + x2 == x2; } else { NoLoopJump(2 + |x2|, x2); }
    NoLoopAdd(x1, jmp + x2);
    NoLoopTest(cs, TestSize(cs) + |x1| + |jmp|, x1 + (jmp + x2));
    assert ChoiceTested(cs, x1, x2, empty) == TestCode(cs, TestSize(cs) + |x1| + |jmp|) + (x1 + (jmp + x2));
  }

  lemma LoopChoiceFull(f: First, x1: seq<Slot>, x2: seq<Slot>)
    requires NoLoop(x1) && NoLoop(x2)
    ensures NoLoop(ChoiceFull(f, x1, x2))
  {
    hide NoLoop, MaybeTest, MaybeSize;
    var choice, commit := [Op(IChoice), Off(4 + |x1|)], [Op(ICommit), Off(2 + |x2|)];
    NoLoopPlain(choice);
    NoLoopPlain(commit);
    NoLoopAdd(commit, x2);
    NoLoopAdd(x1, commit + x2);
    NoLoopAdd(choice, x1 + (commit + x2));
    var rest := choice + (x1 + (commit + x2));
    NoLoopMaybe(f, MaybeSize(f) + 4 + |x1|, rest);
    assert ChoiceFull(f, x1, x2) == MaybeTest(f, MaybeSize(f) + 4 + |x1|) + rest;
  }

  lemma LoopAround(front: seq<Slot>, x: seq<Slot>, back: seq<Slot>)
    requires NoJumps(front) && NoLoop(x) && NoJumps(back)
    ensures NoLoop(front + x + back)
  {
    hide NoLoop, NoJumps;
    NoLoopPlain(front);
    NoLoopPlain(back);
    NoLoopAdd(front, x);
    NoLoopAdd(front + x, back);
  }

  lemma LoopTestedAround(f: First, off: int, front: seq<Slot>, x: seq<Slot>, back: seq<Slot>)
    requires NoJumps(front) && NoLoop(x) && NoJumps(back)
    requires MaybeSize(f) <= off <= MaybeSize(f) + |front| + |x| + |back|
    ensures NoLoop(MaybeTest(f, off) + front + x + back)
  {
    hide NoLoop, NoJumps, MaybeTest, MaybeSize;
    LoopAround(front, x, back);
    NoLoopMaybe(f, off, front + x + back);
    assert MaybeTest(f, off) + front + x + back == MaybeTest(f, off) + (front + x + back);
  }

  /** The jump at the end of a tested loop leads to the test, which stops or leads to the end. */
  lemma LoopRepTested(cs: Charset, x: seq<Slot>)
    requires NoLoop(x)
    ensures NoLoop(RepTested(cs, x))
  {
    hide Leaves, TestCode, TestSize;
    var test, n := TestCode(cs, TestSize(cs) + |x| + 2), TestSize(cs);
    var jmp := [Op(IJmp), Off(-(n + |x|))];
    var z := RepTested(cs, x);
    assert z == test + (x + jmp);
    FirstOfTest(cs, x);
    var v :| Leaves(z, 0, v);
    assert z[n + |x|] == jmp[0] && z[n + |x| + 1] == jmp[1];
    Hop(z, n + |x|, v);
    forall k | 0 <= k <= |z| ensures LeavesSomewhere(z, k) {
      if n <= k < n + |x| {
        assert LeavesSomewhere(x, k - n);
        var w :| Leaves(x, k - n, w);
        LoopBody(test, x, jmp, k - n, w, v);
      } else if 0 < k < n {
        OtherOfTest(cs, x, k);
      } else if k != 0 && k != n + |x| {
        assert k == n + |x| + 1 || k == |z|;
        Stays(z, k);
      }
    }
  }

  lemma FirstOfTest(cs: Charset, x: seq<Slot>)
    ensures LeavesSomewhere(RepTested(cs, x), 0)
  {
    hide CharsetType;
    var z := RepTested(cs, x);
    if CharsetType(cs) == EmptySet {
      Stays(z, |z|);
      Hop(z, 0, |z|);
    } else {
      Stays(z, 0);
    }
  }

  lemma OtherOfTest(cs: Charset, x: seq<Slot>, k: nat)
    requires 0 < k < TestSize(cs)
    ensures LeavesSomewhere(RepTested(cs, x), k)
  {
    hide CharsetType;
    var test := TestCode(cs, TestSize(cs) + |x| + 2);
    assert RepTested(cs, x)[k] == test[k];
    assert !test[k].I?;
    Stays(RepTested(cs, x), k);
  }

  lemma LoopBody(test: seq<Slot>, x: seq<Slot>, jmp: seq<Slot>, k: int, w: int, v: int)
    requires Leaves(x, k, w) && Leaves(test + (x + jmp), |test| + |x|, v)
    ensures LeavesSomewhere(test + (x + jmp), |test| + k)
  {
    var z := test + (x + jmp);
    if w < |x| {
      LeavesLeft(x, jmp, k, w);
      LeavesRight(test, x + jmp, k, w);
    } else {
      var n: nat :| Leads(x, k, n, |x|);
      LeadsIn(test, x, jmp, k, n, |x|);
      assert test + x + jmp == z;
      var m: nat :| Leads(z, |test| + |x|, m, v);
      LeadsTrans(z, |test| + k, n, |test| + |x|, m, v);
      assert Leaves(z, |test| + k, v);
    }
  }

  lemma LoopRepChoice(f: First, opt: bool, x: seq<Slot>)
    requires NoLoop(x)
    ensures NoLoop(RepChoice(f, opt, x))
  {
    hide NoLoop, MaybeTest, MaybeSize;
    var enter := [Op(if opt then IPartialCommit else IChoice), Off(if opt then 2 else 4 + |x|)];
    LoopTestedAround(f, MaybeSize(f) + 4 + |x|, enter, x, [Op(IPartialCommit), Off(-|x|)]);
  }

  lemma LoopNot(f: First, x: seq<Slot>)
    requires NoLoop(x)
    ensures NoLoop(NotHead(f)) && NoLoop(NotChoice(f, x))
  {
    hide NoLoop, MaybeTest, MaybeSize;
    NoLoopPlain([Op(IFail)]);
    NoLoopMaybe(f, MaybeSize(f) + 1, [Op(IFail)]);
    LoopTestedAround(f, MaybeSize(f) + 3 + |x|, [Op(IChoice), Off(3 + |x|)], x, [Op(IFailTwice)]);
  }

  lemma LoopWrapped(x: seq<Slot>, front: seq<Slot>, back: seq<Slot>)
    requires NoLoop(x) && NoJumps(front) && NoJumps(back)
    ensures NoLoop(front + x + back) && NoLoop(front + x) && NoLoop(x + back)
  {
    hide NoLoop, NoJumps;
    LoopAround(front, x, back);
    NoLoopPlain(front);
    NoLoopPlain(back);
    NoLoopAdd(front, x);
    NoLoopAdd(x, back);
  }

  // ----- the code of a tree -----

  /** The jumps in the code of a tree end, wherever one starts. */
  lemma {:induction false} GenNoLoop(g: seq<Tree>, t: Tree, opt: bool, tt: Test, fl: Charset)
    requires Wf(g, t) && Fit(t)
    ensures NoLoop(Gen(g, t, opt, tt, fl, true))
    decreases t, 1
  {
    hide NoLoop, GetFirst, HeadFail, CheckAux, FixedLenX, HasCaptures, ChoiceTested, ChoiceFull, ChoicePartial;
    hide RepTested, RepChoice;
    hide NotChoice, NotHead, AndChoice, CaptureFull, CaptureOpen, Accepted, RulesCode, Positions, CorrectCalls, RepSpan;
    hide MaybeTest;
    match t
    case TSeq(p1, p2) =>
      GenNoLoop(g, p1, false, tt, SeqFollow(g, p1, p2, fl));
      GenNoLoop(g, p2, opt, SeqTest(g, p1, tt), fl);
      NoLoopAdd(Gen(g, p1, false, tt, SeqFollow(g, p1, p2, fl), true), Gen(g, p2, opt, SeqTest(g, p1, tt), fl, true));
    case TChoice(p1, p2) => ChoiceNoLoop(g, t, opt, tt, fl);
    case TRep(p) => RepNoLoop(g, t, opt, tt, fl);
    case TNot(p) =>
      GenNoLoop(g, p, false, NoTest, FULL);
      LoopNot(GetFirst(g, p, FULL, DEPTH), Gen(g, p, false, NoTest, FULL, true));
    case TAnd(p) =>
      GenNoLoop(g, p, false, tt, FULL);
      LoopAnd(Gen(g, p, false, tt, FULL, true), FixedLen(g, p));
    case TBehind(n, p) =>
      GenNoLoop(g, p, false, NoTest, FULL);
      LoopBehind(n, Gen(g, p, false, NoTest, FULL, true));
    case TCapture(kind, key, p) =>
      GenNoLoop(g, p, false, tt, fl);
      LoopCapture(kind, key, FixedLen(g, p), Gen(g, p, false, tt, fl, true));
    case TGrammar(rules) => GrammarNoLoop(g, t, opt, tt, fl);
    case _ => LeafNoLoop(g, t, opt, tt, fl);
  }

  lemma LeafNoLoop(g: seq<Tree>, t: Tree, opt: bool, tt: Test, fl: Charset)
    requires IsCharset(t) || t.TTrue? || t.TFalse? || t.TCall?
    ensures NoLoop(Gen(g, t, opt, tt, fl, true))
  {
    hide CharsetType;
    NoLoopPlain(Gen(g, t, opt, tt, fl, true));
  }

  lemma LoopAnd(x: seq<Slot>, n: int)
    requires NoLoop(x)
    ensures NoLoop(AndChoice(x)) && (n >= 0 ==> NoLoop(x + BehindIf(n)))
  {
    hide NoLoop;
    LoopWrapped(x, [Op(IChoice), Off(4 + |x|)], [Op(IBackCommit), Off(3), Op(IFail)]);
    if n >= 0 { LoopWrapped(x, [], BehindIf(n)); }
  }

  lemma LoopBehind(n: nat, x: seq<Slot>)
    requires NoLoop(x)
    ensures NoLoop(BehindIf(n) + x)
  {
    hide NoLoop;
    LoopWrapped(x, BehindIf(n), []);
  }

  lemma LoopCapture(kind: nat, key: nat, len: int, x: seq<Slot>)
    requires NoLoop(x)
    ensures NoLoop(CaptureOpen(kind, key, x)) && (len >= 0 ==> NoLoop(CaptureFull(kind, key, len, x)))
  {
    hide NoLoop;
    LoopWrapped(x, [I(IOpenCapture, JoinKindOff(kind, 0), key)], [I(ICloseCapture, JoinKindOff(CCLOSE, 0), 0)]);
    if len >= 0 { LoopWrapped(x, [], [I(IFullCapture, JoinKindOff(kind, len), key)]); }
  }

  lemma {:induction false} ChoiceNoLoop(g: seq<Tree>, t: Tree, opt: bool, tt: Test, fl: Charset)
    requires t.TChoice? && Wf(g, t) && Fit(t)
    ensures NoLoop(Gen(g, t, opt, tt, fl, true))
    decreases t, 0
  {
    hide NoLoop, GetFirst, HeadFail, ChoiceTested, ChoiceFull;
    var TChoice(p1, p2) := t;
    var f1 := GetFirst(g, p1, FULL, DEPTH);
    GenNoLoop(g, p2, opt, NoTest, fl);
    if ChoiceByTest(g, p1, p2, fl) {
      GenNoLoop(g, p1, false, TestInfo(f1.cs), fl);
      LoopChoiceTested(f1.cs, Gen(g, p1, false, TestInfo(f1.cs), fl, true), Gen(g, p2, opt, NoTest, fl, true),
                       p2.TTrue?);
    } else if opt && p2.TTrue? {
      GenNoLoop(g, p1, true, NoTest, FULL);
      LoopWrapped(Gen(g, p1, true, NoTest, FULL, true), [Op(IPartialCommit), Off(2)], []);
    } else {
      GenNoLoop(g, p1, p2.TTrue?, MaybeInfo(f1), FULL);
      LoopChoiceFull(f1, Gen(g, p1, p2.TTrue?, MaybeInfo(f1), FULL, true), Gen(g, p2, opt, NoTest, fl, true));
    }
  }

  lemma {:induction false} RepNoLoop(g: seq<Tree>, t: Tree, opt: bool, tt: Test, fl: Charset)
    requires t.TRep? && Wf(g, t) && Fit(t)
    ensures NoLoop(Gen(g, t, opt, tt, fl, true))
    decreases t, 0
  {
    hide NoLoop, GetFirst, HeadFail, RepTested, RepChoice;
    var p := t.p;
    var f := GetFirst(g, p, FULL, DEPTH);
    if IsCharset(p) {
      NoLoopPlain(RepSpan(ToCharset(p)));
    } else if RepByTest(g, p, fl) {
      GenNoLoop(g, p, opt, TestInfo(f.cs), FULL);
      LoopRepTested(f.cs, Gen(g, p, opt, TestInfo(f.cs), FULL, true));
    } else {
      GenNoLoop(g, p, false, NoTest, FULL);
      LoopRepChoice(f, opt, Gen(g, p, false, NoTest, FULL, true));
    }
  }

  lemma {:induction false} RulesNoLoop(g: seq<Tree>, rs: seq<Tree>)
    requires forall k :: 0 <= k < |rs| ==> Wf(g, rs[k]) && Fit(rs[k])
    ensures NoLoop(RulesCode(g, rs, true))
    decreases rs, 2
  {
    hide NoLoop, Gen, Wf, Fit;
    if rs == [] {
      NoLoopPlain([]);
    } else {
      GenNoLoop(g, rs[0], false, NoTest, FULL);
      NoLoopPlain([Op(IRet)]);
      NoLoopAdd(Gen(g, rs[0], false, NoTest, FULL, true), [Op(IRet)]);
      RulesNoLoop(g, rs[1..]);
      NoLoopAdd(RuleCode(g, rs[0], true), RulesCode(g, rs[1..], true));
    }
  }

  // ----- where the code of a tree leads without doing anything -----

  /** The rule may be entered at a place the check has come to, with 'left' more rules to enter. */
  ghost predicate LeftCall(g: seq<Tree>, k: nat, left: nat) {
    left > 0 && k < |g| && VerifyRule(g, g[k], left - 1, false, true).Passed?
  }

  /** The jumps at the start of x lead to y: to the end only if the check finds the tree nullable, and to a call only
      if the check has entered it. */
  ghost predicate Starts(g: seq<Tree>, x: seq<Slot>, y: int, left: nat, v: Verdict) {
    && Leaves(x, 0, y)
    && (y == |x| ==> v.Passed? && v.nullable)
    && (IsOp(x, y, IOpenCall) ==> LeftCall(g, x[y].key, left))
  }

  lemma StartPlain(g: seq<Tree>, x: seq<Slot>, left: nat, v: Verdict)
    requires x != [] && !IsOp(x, 0, IJmp) && !IsOp(x, 0, IOpenCall)
    ensures Starts(g, x, 0, left, v)
  {
    Stays(x, 0);
  }

  /** A test at the start stops, or leads into the second part of the code. */
  lemma StartTest(g: seq<Tree>, f: First, off: int, mid: seq<Slot>, x2: seq<Slot>, y2: int, left: nat,
                  v: Verdict) returns (y: int)
    requires off == MaybeSize(f) + |mid| && (f.e ==> mid != [] && !IsOp(mid, 0, IJmp) && !IsOp(mid, 0, IOpenCall))
    requires Starts(g, x2, y2, left, v)
    ensures Starts(g, MaybeTest(f, off) + mid + x2, y, left, v)
  {
    hide CharsetType;
    var test := MaybeTest(f, off);
    var z := test + mid + x2;
    if !f.e && CharsetType(f.cs) == EmptySet {
      LeavesRight(test + mid, x2, 0, y2);
      y := |test + mid| + y2;
      Hop(z, 0, y);
      if y < |z| { assert z[y] == x2[y2]; }
    } else {
      y := 0;
      StartPlain(g, z, left, v);
    }
  }

  lemma StartEmpty(g: seq<Tree>, left: nat, v: Verdict)
    requires v.Passed? && v.nullable
    ensures Starts(g, [], 0, left, v)
  {
    Stays([], 0);
  }

  lemma StartAdd(g: seq<Tree>, x1: seq<Slot>, x2: seq<Slot>, y1: int, y2: int, left: nat, v1: Verdict,
                 v: Verdict) returns (y: int)
    requires Starts(g, x1, y1, left, v1)
    requires y1 == |x1| ==> Starts(g, x2, y2, left, v)
    ensures Starts(g, x1 + x2, y, left, v)
  {
    var z := x1 + x2;
    if y1 < |x1| {
      LeavesLeft(x1, x2, 0, y1);
      y := y1;
    } else {
      LeavesThrough(x1, x2, 0, y2);
      y := |x1| + y2;
      if y < |z| { assert z[y] == x2[y2]; }
    }
  }

  lemma {:induction false} GenStarts(g: seq<Tree>, t: Tree, opt: bool, tt: Test, fl: Charset, left: nat,
                                     b: bool) returns (y: int)
    requires Wf(g, t) && Fit(t) && VerifyRule(g, t, left, b, true).Passed?
    ensures Starts(g, Gen(g, t, opt, tt, fl, true), y, left, VerifyRule(g, t, left, b, true))
    decreases t
  {
    hide Starts, GetFirst, HeadFail, CheckAux, FixedLenX, HasCaptures, ChoiceTested, ChoiceFull, ChoicePartial;
    hide RepTested, RepChoice;
    hide NotChoice, NotHead, AndChoice, CaptureFull, CaptureOpen, RulesCode, Positions, CorrectCalls, RepSpan;
    var v := VerifyRule(g, t, left, b, true);
    match t
    case TSeq(p1, p2) => y := SeqStarts(g, t, opt, tt, fl, left, b);
    case TChoice(p1, p2) => y := ChoiceStarts(g, t, opt, tt, fl, left, b);
    case TRep(p) =>
      VerdictFlag(g, p, left, true, true);
      y := RepStarts(g, t, opt, tt, fl, left, v);
    case TNot(p) =>
      VerdictFlag(g, p, left, true, true);
      y := NotStarts(g, GetFirst(g, p, FULL, DEPTH), Gen(g, p, false, NoTest, FULL, true), HeadFail(g, p, DEPTH), left,
                     v);
    case TAnd(p) =>
      y := GenStarts(g, p, false, tt, FULL, left, true);
      VerdictFlag(g, p, left, true, true);
      y := AndStarts(g, Gen(g, p, false, tt, FULL, true), FixedLen(g, p), AndByBehind(g, p), y, left, v);
    case TBehind(n, p) => y := BehindStarts(g, t, left, v);
    case TCapture(kind, key, p) =>
      y := GenStarts(g, p, false, tt, fl, left, b);
      y := CaptureStarts(g, kind, key, FixedLen(g, p), Gen(g, p, false, tt, fl, true), CaptureByLen(g, p), y, left, v);
    case TGrammar(rules) =>
      y := 0;
      StartGrammar(g, t, opt, tt, fl, left, v);
    case _ =>
      y := 0;
      StartLeaf(g, t, opt, tt, fl, left, b);
  }

  lemma StartGrammar(g: seq<Tree>, t: Tree, opt: bool, tt: Test, fl: Charset, left: nat, v: Verdict)
    requires t.TGrammar?
    ensures Starts(g, Gen(g, t, opt, tt, fl, true), 0, left, v)
  {
    hide RulesCode, Positions, CorrectCalls;
    StartPlain(g, Gen(g, t, opt, tt, fl, true), left, v);
  }

  lemma StartLeaf(g: seq<Tree>, t: Tree, opt: bool, tt: Test, fl: Charset, left: nat, b: bool)
    requires IsCharset(t) || t.TTrue? || t.TFalse? || t.TCall?
    requires Wf(g, t) && VerifyRule(g, t, left, b, true).Passed?
    ensures Starts(g, Gen(g, t, opt, tt, fl, true), 0, left, VerifyRule(g, t, left, b, true))
  {
    hide CharsetType;
    var x := Gen(g, t, opt, tt, fl, true);
    if t.TTrue? {
      StartEmpty(g, left, VerifyRule(g, t, left, b, true));
    } else {
      Stays(x, 0);
      if t.TCall? { VerdictFlag(g, g[t.rule], left - 1, b, false); }
    }
  }

  lemma {:induction false} SeqStarts(g: seq<Tree>, t: Tree, opt: bool, tt: Test, fl: Charset, left: nat,
                                     b: bool) returns (y: int)
    requires t.TSeq? && Wf(g, t) && Fit(t) && VerifyRule(g, t, left, b, true).Passed?
    ensures Starts(g, Gen(g, t, opt, tt, fl, true), y, left, VerifyRule(g, t, left, b, true))
    decreases t, 0
  {
    hide GetFirst, HeadFail, CheckAux, FixedLenX, HasCaptures, Leaves, LeftCall;
    var TSeq(p1, p2) := t;
    var x1 := Gen(g, p1, false, tt, SeqFollow(g, p1, p2, fl), true);
    var x2 := Gen(g, p2, opt, SeqTest(g, p1, tt), fl, true);
    var y1 := GenStarts(g, p1, false, tt, SeqFollow(g, p1, p2, fl), left, false);
    var y2 := 0;
    if y1 == |x1| { y2 := GenStarts(g, p2, opt, SeqTest(g, p1, tt), fl, left, b); }
    y := StartAdd(g, x1, x2, y1, y2, left, VerifyRule(g, p1, left, false, true), VerifyRule(g, t, left, b, true));
  }

  lemma {:induction false} ChoiceStarts(g: seq<Tree>, t: Tree, opt: bool, tt: Test, fl: Charset, left: nat,
                                        b: bool) returns (y: int)
    requires t.TChoice? && Wf(g, t) && Fit(t) && VerifyRule(g, t, left, b, true).Passed?
    ensures Starts(g, Gen(g, t, opt, tt, fl, true), y, left, VerifyRule(g, t, left, b, true))
    decreases t, 0
  {
    hide GetFirst, HeadFail, Starts, TestCode, TestSize, MaybeTest, MaybeSize, ChoiceTested, ChoiceFull;
    var TChoice(p1, p2) := t;
    var f1 := GetFirst(g, p1, FULL, DEPTH);
    var v1 := VerifyRule(g, p1, left, b, true);
    var x2 := Gen(g, p2, opt, NoTest, fl, true);
    var y2 := GenStarts(g, p2, opt, NoTest, fl, left, v1.nullable);
    var v := VerifyRule(g, t, left, b, true);
    if ChoiceByTest(g, p1, p2, fl) {
      y := TestedStarts(g, f1.cs, Gen(g, p1, false, TestInfo(f1.cs), fl, true), x2, p2.TTrue?, y2, left, v);
    } else if opt && p2.TTrue? {
      y := 0;
      StartPlain(g, ChoicePartial(Gen(g, p1, true, NoTest, FULL, true)), left, v);
    } else {
      y := FullStarts(g, f1, Gen(g, p1, p2.TTrue?, MaybeInfo(f1), FULL, true), x2, y2, left, v);
    }
  }

  lemma TestedStarts(g: seq<Tree>, cs: Charset, x1: seq<Slot>, x2: seq<Slot>, empty: bool, y2: int, left: nat,
                     v: Verdict) returns (y: int)
    requires Starts(g, x2, y2, left, v)
    ensures Starts(g, ChoiceTested(cs, x1, x2, empty), y, left, v)
  {
    hide Starts, TestCode, TestSize;
    var jmp := if empty then [] else [Op(IJmp), Off(2 + |x2|)];
    var off := TestSize(cs) + |x1| + |jmp|;
    y := StartTest(g, First(cs, false), off, x1 + jmp, x2, y2, left, v);
    assert ChoiceTested(cs, x1, x2, empty) == MaybeTest(First(cs, false), off) + (x1 + jmp) + x2;
  }

  lemma FullStarts(g: seq<Tree>, f: First, x1: seq<Slot>, x2: seq<Slot>, y2: int, left: nat,
                   v: Verdict) returns (y: int)
    requires Starts(g, x2, y2, left, v)
    ensures Starts(g, ChoiceFull(f, x1, x2), y, left, v)
  {
    hide Starts, MaybeTest, MaybeSize;
    var mid := [Op(IChoice), Off(4 + |x1|)] + x1 + [Op(ICommit), Off(2 + |x2|)];
    y := StartTest(g, f, MaybeSize(f) + 4 + |x1|, mid, x2, y2, left, v);
    assert ChoiceFull(f, x1, x2) == MaybeTest(f, MaybeSize(f) + 4 + |x1|) + mid + x2;
  }

  lemma RepStarts(g: seq<Tree>, t: Tree, opt: bool, tt: Test, fl: Charset, left: nat, v: Verdict) returns (y: int)
    requires t.TRep? && v.Passed? && v.nullable
    ensures Starts(g, Gen(g, t, opt, tt, fl, true), y, left, v)
  {
    hide GetFirst, HeadFail, Starts, TestCode, TestSize, MaybeTest, MaybeSize, RepTested, RepChoice;
    var p := t.p;
    var f := GetFirst(g, p, FULL, DEPTH);
    StartEmpty(g, left, v);
    if IsCharset(p) {
      y := 0;
      StartPlain(g, RepSpan(ToCharset(p)), left, v);
    } else if RepByTest(g, p, fl) {
      y := RepTestedStarts(g, f.cs, Gen(g, p, opt, TestInfo(f.cs), FULL, true), left, v);
    } else {
      y := RepChoiceStarts(g, f, opt, Gen(g, p, false, NoTest, FULL, true), left, v);
    }
  }

  lemma RepTestedStarts(g: seq<Tree>, cs: Charset, x: seq<Slot>, left: nat, v: Verdict) returns (y: int)
    requires Starts(g, [], 0, left, v)
    ensures Starts(g, RepTested(cs, x), y, left, v)
  {
    hide Starts, TestCode, TestSize;
    var mid := x + [Op(IJmp), Off(-(TestSize(cs) + |x|))];
    y := StartTest(g, First(cs, false), TestSize(cs) + |x| + 2, mid, [], 0, left, v);
    assert RepTested(cs, x) == MaybeTest(First(cs, false), TestSize(cs) + |x| + 2) + mid + [];
  }

  lemma RepChoiceStarts(g: seq<Tree>, f: First, opt: bool, x: seq<Slot>, left: nat, v: Verdict) returns (y: int)
    requires Starts(g, [], 0, left, v)
    ensures Starts(g, RepChoice(f, opt, x), y, left, v)
  {
    hide Starts, MaybeTest, MaybeSize;
    var enter := if opt then IPartialCommit else IChoice;
    var mid := [Op(enter), Off(if opt then 2 else 4 + |x|)] + x + [Op(IPartialCommit), Off(-|x|)];
    y := StartTest(g, f, MaybeSize(f) + 4 + |x|, mid, [], 0, left, v);
    assert RepChoice(f, opt, x) == MaybeTest(f, MaybeSize(f) + 4 + |x|) + mid + [];
  }

  lemma NotStarts(g: seq<Tree>, f: First, x: seq<Slot>, head: bool, left: nat, v: Verdict) returns (y: int)
    requires v.Passed? && v.nullable
    ensures Starts(g, if head then NotHead(f) else NotChoice(f, x), y, left, v)
  {
    hide Starts, MaybeTest, MaybeSize;
    StartEmpty(g, left, v);
    if head {
      y := StartTest(g, f, MaybeSize(f) + 1, [Op(IFail)], [], 0, left, v);
      assert NotHead(f) == MaybeTest(f, MaybeSize(f) + 1) + [Op(IFail)] + [];
    } else {
      var mid := [Op(IChoice), Off(3 + |x|)] + x + [Op(IFailTwice)];
      y := StartTest(g, f, MaybeSize(f) + 3 + |x|, mid, [], 0, left, v);
      assert NotChoice(f, x) == MaybeTest(f, MaybeSize(f) + 3 + |x|) + mid + [];
    }
  }

  lemma AndStarts(g: seq<Tree>, x: seq<Slot>, n: int, behind: bool, y1: int, left: nat, v: Verdict) returns (y: int)
    requires Starts(g, x, y1, left, v) && v.Passed? && v.nullable && (behind ==> n >= 0)
    ensures Starts(g, if behind then x + BehindIf(n) else AndChoice(x), y, left, v)
  {
    hide Starts;
    if behind {
      if n > 0 { StartPlain(g, BehindIf(n), left, v); } else { StartEmpty(g, left, v); }
      y := StartAdd(g, x, BehindIf(n), y1, 0, left, v, v);
    } else {
      y := 0;
      StartPlain(g, AndChoice(x), left, v);
    }
  }

  lemma {:induction false} BehindStarts(g: seq<Tree>, t: Tree, left: nat, v: Verdict) returns (y: int)
    requires t.TBehind? && Wf(g, t) && Fit(t) && v == Passed(true)
    ensures Starts(g, BehindIf(t.n) + Gen(g, t.p, false, NoTest, FULL, true), y, left, v)
    decreases t, 0
  {
    hide Gen, CheckAux, FixedLenX, HasCaptures;
    var x := Gen(g, t.p, false, NoTest, FULL, true);
    NoCallsVerdict(g, t.p, left, false);
    if t.n > 0 {
      y := 0;
      StartPlain(g, BehindIf(t.n) + x, left, v);
    } else {
      y := GenStarts(g, t.p, false, NoTest, FULL, left, false);
      assert BehindIf(t.n) + x == x;
    }
  }

  lemma CaptureStarts(g: seq<Tree>, kind: nat, key: nat, len: int, x: seq<Slot>, full: bool, y1: int, left: nat,
                      v: Verdict) returns (y: int)
    requires Starts(g, x, y1, left, v) && (full ==> len >= 0)
    ensures Starts(g, if full then CaptureFull(kind, key, len, x) else CaptureOpen(kind, key, x), y, left, v)
  {
    hide Starts;
    if full {
      StartPlain(g, [I(IFullCapture, JoinKindOff(kind, len), key)], left, v);
      y := StartAdd(g, x, [I(IFullCapture, JoinKindOff(kind, len), key)], y1, 0, left, v, v);
    } else {
      y := 0;
      StartPlain(g, CaptureOpen(kind, key, x), left, v);
    }
  }

  // ----- the calls in the code of a tree -----

  /** The open calls in x call rules of cs. */
  ghost predicate OnlyCalls(x: seq<Slot>, cs: set<nat>) {
    forall j :: 0 <= j < |x| && IsOp(x, j, IOpenCall) ==> x[j].key in cs
  }

  lemma CallsMore(x: seq<Slot>, cs: set<nat>, cs': set<nat>)
    requires OnlyCalls(x, cs) && cs <= cs'
    ensures OnlyCalls(x, cs')
  {
  }

  lemma CallsAdd(x: seq<Slot>, y: seq<Slot>, cs: set<nat>)
    requires OnlyCalls(x, cs) && OnlyCalls(y, cs)
    ensures OnlyCalls(x + y, cs)
  {
    var z := x + y;
    forall j | 0 <= j < |z| && IsOp(z, j, IOpenCall) ensures z[j].key in cs {
      if j < |x| { assert IsOp(x, j, IOpenCall); } else { assert IsOp(y, j - |x|, IOpenCall); }
    }
  }

  lemma CallsAround(a: seq<Slot>, x: seq<Slot>, b: seq<Slot>, cs: set<nat>)
    requires OnlyCalls(a, cs) && OnlyCalls(x, cs) && OnlyCalls(b, cs)
    ensures OnlyCalls(a + x + b, cs)
  {
    hide OnlyCalls;
    CallsAdd(a, x, cs);
    CallsAdd(a + x, b, cs);
  }

  lemma CallsTest(f: First, off: int, cs: set<nat>)
    ensures OnlyCalls(MaybeTest(f, off), cs) && OnlyCalls(TestCode(f.cs, off), cs)
  {
    hide CharsetType;
  }

  lemma {:induction false} GenCalls(g: seq<Tree>, t: Tree, opt: bool, tt: Test, fl: Charset)
    requires Wf(g, t)
    ensures OnlyCalls(Gen(g, t, opt, tt, fl, true), Calls(t))
    decreases t
  {
    hide OnlyCalls, GetFirst, HeadFail, CheckAux, FixedLenX, HasCaptures, ChoiceTested, ChoiceFull, ChoicePartial;
    hide RepTested, RepChoice;
    hide NotChoice, NotHead, AndChoice, CaptureFull, CaptureOpen, RulesCode, Positions, CorrectCalls, RepSpan;
    hide MaybeTest;
    match t
    case TSeq(p1, p2) =>
      var x1, x2 := Gen(g, p1, false, tt, SeqFollow(g, p1, p2, fl), true), Gen(g, p2, opt, SeqTest(g, p1, tt), fl,
          true);
      GenCalls(g, p1, false, tt, SeqFollow(g, p1, p2, fl));
      GenCalls(g, p2, opt, SeqTest(g, p1, tt), fl);
      CallsMore(x1, Calls(p1), Calls(t));
      CallsMore(x2, Calls(p2), Calls(t));
      CallsAdd(x1, x2, Calls(t));
    case TChoice(p1, p2) => ChoiceCalls(g, t, opt, tt, fl);
    case TRep(p) => RepCalls(g, t, opt, tt, fl);
    case TNot(p) =>
      GenCalls(g, p, false, NoTest, FULL);
      CallsNot(GetFirst(g, p, FULL, DEPTH), Gen(g, p, false, NoTest, FULL, true), Calls(p));
    case TAnd(p) =>
      GenCalls(g, p, false, tt, FULL);
      CallsWrapped(Gen(g, p, false, tt, FULL, true), FixedLen(g, p), 0, 0, Calls(p));
    case TBehind(n, p) =>
      GenCalls(g, p, false, NoTest, FULL);
      CallsWrapped(Gen(g, p, false, NoTest, FULL, true), n, 0, 0, Calls(p));
    case TCapture(kind, key, p) =>
      GenCalls(g, p, false, tt, fl);
      CallsWrapped(Gen(g, p, false, tt, fl, true), FixedLen(g, p), kind, key, Calls(p));
    case TGrammar(rules) => GrammarCalls(g, t, opt, tt, fl);
    case _ => LeafCalls(g, t, opt, tt, fl);
  }

  lemma LeafCalls(g: seq<Tree>, t: Tree, opt: bool, tt: Test, fl: Charset)
    requires Wf(g, t) && (IsCharset(t) || t.TTrue? || t.TFalse? || t.TCall?)
    ensures OnlyCalls(Gen(g, t, opt, tt, fl, true), Calls(t))
  {
    hide CharsetType;
  }

  lemma GrammarCalls(g: seq<Tree>, t: Tree, opt: bool, tt: Test, fl: Charset)
    requires t.TGrammar? && Wf(g, t)
    ensures OnlyCalls(Gen(g, t, opt, tt, fl, true), Calls(t))
  {
    hide RulesCode, Positions, CorrectCalls, Tidy;
    RulesTidy(t.rules, t.rules, true);
    TidyGrammar(t.rules, true, 0);
    assert Gen(g, t, opt, tt, fl, true) == Gen([], t, false, NoTest, FULL, true);
  }

  lemma CallsNot(f: First, x: seq<Slot>, cs: set<nat>)
    requires OnlyCalls(x, cs)
    ensures OnlyCalls(NotHead(f), cs) && OnlyCalls(NotChoice(f, x), cs)
  {
    hide MaybeTest;
    CallsTest(f, MaybeSize(f) + 1, cs);
    CallsAdd(MaybeTest(f, MaybeSize(f) + 1), [Op(IFail)], cs);
    CallsTest(f, MaybeSize(f) + 3 + |x|, cs);
    CallsAdd(MaybeTest(f, MaybeSize(f) + 3 + |x|), [Op(IChoice), Off(3 + |x|)], cs);
    CallsAround(MaybeTest(f, MaybeSize(f) + 3 + |x|) + [Op(IChoice), Off(3 + |x|)], x, [Op(IFailTwice)], cs);
  }

  lemma CallsWrapped(x: seq<Slot>, n: int, kind: nat, key: nat, cs: set<nat>)
    requires OnlyCalls(x, cs)
    ensures OnlyCalls(AndChoice(x), cs) && OnlyCalls(CaptureOpen(kind, key, x), cs)
    ensures n >= 0 ==>
      OnlyCalls(x + BehindIf(n), cs) && OnlyCalls(BehindIf(n) + x, cs) && OnlyCalls(CaptureFull(kind, key, n, x), cs)
  {
    CallsAround([Op(IChoice), Off(4 + |x|)], x, [Op(IBackCommit), Off(3), Op(IFail)], cs);
    CallsAround([I(IOpenCapture, JoinKindOff(kind, 0), key)], x, [I(ICloseCapture, JoinKindOff(CCLOSE, 0), 0)], cs);
    if n >= 0 {
      CallsAdd(x, BehindIf(n), cs);
      CallsAdd(BehindIf(n), x, cs);
      CallsAdd(x, [I(IFullCapture, JoinKindOff(kind, n), key)], cs);
    }
  }

  lemma {:induction false} ChoiceCalls(g: seq<Tree>, t: Tree, opt: bool, tt: Test, fl: Charset)
    requires t.TChoice? && Wf(g, t)
    ensures OnlyCalls(Gen(g, t, opt, tt, fl, true), Calls(t))
    decreases t, 0
  {
    hide OnlyCalls, GetFirst, HeadFail, ChoiceTested, ChoiceFull;
    var TChoice(p1, p2) := t;
    var f1, cs := GetFirst(g, p1, FULL, DEPTH), Calls(t);
    var x2 := Gen(g, p2, opt, NoTest, fl, true);
    GenCalls(g, p2, opt, NoTest, fl);
    CallsMore(x2, Calls(p2), cs);
    if ChoiceByTest(g, p1, p2, fl) {
      GenCalls(g, p1, false, TestInfo(f1.cs), fl);
      CallsMore(Gen(g, p1, false, TestInfo(f1.cs), fl, true), Calls(p1), cs);
      CallsChoice(f1, Gen(g, p1, false, TestInfo(f1.cs), fl, true), x2, p2.TTrue?, cs);
    } else if opt && p2.TTrue? {
      GenCalls(g, p1, true, NoTest, FULL);
      CallsMore(Gen(g, p1, true, NoTest, FULL, true), Calls(p1), cs);
      CallsPartial(Gen(g, p1, true, NoTest, FULL, true), cs);
    } else {
      GenCalls(g, p1, p2.TTrue?, MaybeInfo(f1), FULL);
      CallsMore(Gen(g, p1, p2.TTrue?, MaybeInfo(f1), FULL, true), Calls(p1), cs);
      CallsChoice(f1, Gen(g, p1, p2.TTrue?, MaybeInfo(f1), FULL, true), x2, p2.TTrue?, cs);
    }
  }

  lemma CallsPartial(x: seq<Slot>, cs: set<nat>)
    requires OnlyCalls(x, cs)
    ensures OnlyCalls(ChoicePartial(x), cs)
  {
    CallsAdd([Op(IPartialCommit), Off(2)], x, cs);
  }

  lemma CallsChoice(f: First, x1: seq<Slot>, x2: seq<Slot>, empty: bool, cs: set<nat>)
    requires OnlyCalls(x1, cs) && OnlyCalls(x2, cs)
    ensures OnlyCalls(ChoiceTested(f.cs, x1, x2, empty), cs) && OnlyCalls(ChoiceFull(f, x1, x2), cs)
  {
    hide MaybeTest, TestCode, TestSize, MaybeSize;
    var jmp := if empty then [] else [Op(IJmp), Off(2 + |x2|)];
    CallsTest(f, TestSize(f.cs) + |x1| + |jmp|, cs);
    CallsAround(TestCode(f.cs, TestSize(f.cs) + |x1| + |jmp|), x1, jmp, cs);
    CallsAdd(TestCode(f.cs, TestSize(f.cs) + |x1| + |jmp|) + x1 + jmp, x2, cs);
    var test := MaybeTest(f, MaybeSize(f) + 4 + |x1|);
    CallsTest(f, MaybeSize(f) + 4 + |x1|, cs);
    CallsAdd(test, [Op(IChoice), Off(4 + |x1|)], cs);
    CallsAround(test + [Op(IChoice), Off(4 + |x1|)], x1, [Op(ICommit), Off(2 + |x2|)], cs);
    CallsAdd(test + [Op(IChoice), Off(4 + |x1|)] + x1 + [Op(ICommit), Off(2 + |x2|)], x2, cs);
  }

  lemma {:induction false} RepCalls(g: seq<Tree>, t: Tree, opt: bool, tt: Test, fl: Charset)
    requires t.TRep? && Wf(g, t)
    ensures OnlyCalls(Gen(g, t, opt, tt, fl, true), Calls(t))
    decreases t, 0
  {
    hide OnlyCalls, GetFirst, HeadFail, RepTested, RepChoice, RepSpan;
    var p := t.p;
    var f := GetFirst(g, p, FULL, DEPTH);
    if IsCharset(p) {
      CallsSpan(ToCharset(p), Calls(p));
    } else if RepByTest(g, p, fl) {
      GenCalls(g, p, opt, TestInfo(f.cs), FULL);
      CallsRep(f, opt, Gen(g, p, opt, TestInfo(f.cs), FULL, true), Calls(p));
    } else {
      GenCalls(g, p, false, NoTest, FULL);
      CallsRep(f, opt, Gen(g, p, false, NoTest, FULL, true), Calls(p));
    }
  }

  lemma CallsSpan(set_: Charset, cs: set<nat>)
    ensures OnlyCalls(RepSpan(set_), cs)
  {
  }

  lemma CallsRep(f: First, opt: bool, x: seq<Slot>, cs: set<nat>)
    requires OnlyCalls(x, cs)
    ensures OnlyCalls(RepTested(f.cs, x), cs) && OnlyCalls(RepChoice(f, opt, x), cs)
  {
    hide MaybeTest, TestCode, TestSize, MaybeSize;
    CallsTest(f, TestSize(f.cs) + |x| + 2, cs);
    CallsAround(TestCode(f.cs, TestSize(f.cs) + |x| + 2), x, [Op(IJmp), Off(-(TestSize(f.cs) + |x|))], cs);
    var test := MaybeTest(f, MaybeSize(f) + 4 + |x|);
    var enter := [Op(if opt then IPartialCommit else IChoice), Off(if opt then 2 else 4 + |x|)];
    CallsTest(f, MaybeSize(f) + 4 + |x|, cs);
    CallsAdd(test, enter, cs);
    CallsAround(test + enter, x, [Op(IPartialCommit), Off(-|x|)], cs);
  }

  /** A rule that is called somewhere in the code of a grammar has been checked. */
  lemma {:induction false} CallInRules(g: seq<Tree>, rs: seq<Tree>, v: nat) returns (m: nat)
    requires (forall k :: 0 <= k < |rs| ==> Wf(g, rs[k])) && IsOp(RulesCode(g, rs, true), v, IOpenCall)
    ensures m < |rs| && RulesCode(g, rs, true)[v].key in Calls(rs[m])
    decreases rs
  {
    hide Gen, Wf;
    var x := Gen(g, rs[0], false, NoTest, FULL, true);
    var first := RuleCode(g, rs[0], true);
    if v < |first| {
      GenCalls(g, rs[0], false, NoTest, FULL);
      assert IsOp(x, v, IOpenCall);
      m := 0;
    } else {
      m := CallInRules(g, rs[1..], v - |first|);
      m := m + 1;
    }
  }

  lemma CalledIsUsed(g: seq<Tree>, c: seq<Slot>, v: nat)
    requires RulesFit(g) && c == RulesCode(g, g, true) && IsOp(c, v, IOpenCall)
    ensures c[v].key < |g| && VerifyRule(g, g[c[v].key], MAXRULES, false, true).Passed?
  {
    hide Wf, Fit, RulesCode, VerifyRule;
    var m := CallInRules(g, g, v);
    assert Used(g, c[v].key);
  }

  // ----- grammars -----

  /** What 'correctcalls' does to a slot: jumps and offsets stay, and a new jump comes from an open call and leads to
      its rule. */
  ghost predicate CorrectedAt(c: seq<Slot>, q: seq<Slot>, pos: seq<nat>, j: nat)
    requires j < |c| == |q|
  {
    && (c[j].Off? || IsOp(c, j, IJmp) ==> q[j] == c[j])
    && (IsOp(q, j, IOpenCall) ==> q[j] == c[j])
    && (IsOp(q, j, IJmp) && !IsOp(c, j, IJmp) ==>
          IsOp(c, j, IOpenCall) && c[j].key < |pos| && OffAt(q, j + 1) && j + q[j + 1].offset == pos[c[j].key])
  }

  ghost predicate Corrected(c: seq<Slot>, q: seq<Slot>, pos: seq<nat>) {
    |c| == |q| && forall j :: 0 <= j < |c| ==> CorrectedAt(c, q, pos, j)
  }

  lemma CorrectedOnce(c: seq<Slot>, pos: seq<nat>, k: nat)
    requires Tidy(c, |pos|) && IsOp(c, k, IOpenCall)
    ensures k + 1 < |c| && c[k].key < |pos| && Corrected(c, CorrectOne(c, pos, k), pos)
  {
    assert TidyAt(c, k, 0, |c|, |pos|);
    var q := CorrectOne(c, pos, k);
    forall j | 0 <= j < |c| ensures CorrectedAt(c, q, pos, j) {
      assert TidyAt(c, j, 0, |c|, |pos|);
    }
  }

  lemma CorrectedTwice(c: seq<Slot>, d: seq<Slot>, q: seq<Slot>, pos: seq<nat>)
    requires Corrected(c, d, pos) && Corrected(d, q, pos)
    ensures Corrected(c, q, pos)
  {
    forall j | 0 <= j < |c| ensures CorrectedAt(c, q, pos, j) {
      assert CorrectedAt(c, d, pos, j) && CorrectedAt(d, q, pos, j);
      if OffAt(d, j + 1) { assert CorrectedAt(d, q, pos, j + 1); }
    }
  }

  lemma CorrectedSame(c: seq<Slot>, pos: seq<nat>)
    ensures Corrected(c, c, pos)
  {
  }

  lemma {:induction false} AllCorrected(c: seq<Slot>, pos: seq<nat>, k: nat)
    requires Tidy(c, |pos|) && forall j :: 0 <= j < |pos| ==> pos[j] <= |c|
    ensures Corrected(c, CorrectCalls(c, pos, k), pos)
    decreases |c| - k
  {
    hide Tidy, Corrected, CorrectOne;
    if k >= |c| {
      CorrectedSame(c, pos);
    } else if IsOp(c, k, IOpenCall) {
      CorrectedOnce(c, pos, k);
      TidyCorrectOne(c, pos, k);
      var d := CorrectOne(c, pos, k);
      AllCorrected(d, pos, k + 2);
      CorrectedTwice(c, d, CorrectCalls(d, pos, k + 2), pos);
    } else {
      AllCorrected(c, pos, k + if c[k].I? then SizeOf(c[k].op) else 1);
    }
  }

  /** Jumps are still there after the correction. */
  lemma {:induction false} LeadsCorrected(c: seq<Slot>, q: seq<Slot>, pos: seq<nat>, k: int, n: nat, y: int)
    requires Corrected(c, q, pos) && Leads(c, k, n, y)
    ensures Leads(q, k, n, y)
    decreases n
  {
    if n > 0 {
      assert CorrectedAt(c, q, pos, k) && CorrectedAt(c, q, pos, k + 1);
      LeadsCorrected(c, q, pos, k + c[k + 1].offset, n - 1, y);
    }
  }

  /** Where the code of rule r is. */
  lemma {:induction false} RuleAt(g: seq<Tree>, rs: seq<Tree>, from: nat, r: nat) returns (a: seq<Slot>, b: seq<Slot>)
    requires r < |rs|
    ensures RulesCode(g, rs, true) == a + RuleCode(g, rs[r], true) + b && Positions(g, rs, from, true)[r] == from + |a|
    decreases rs
  {
    hide RuleCode;
    var first := RuleCode(g, rs[0], true);
    if r == 0 {
      a, b := [], RulesCode(g, rs[1..], true);
      assert [] + first + b == first + b;
    } else {
      var a', b' := RuleAt(g, rs[1..], from + |first|, r - 1);
      a, b := first + a', b';
      assert rs[1..][r - 1] == rs[r];
      assert first + (a' + RuleCode(g, rs[r], true) + b') == a + RuleCode(g, rs[r], true) + b;
    }
  }

  /** From where jumps of the uncorrected code lead to v, those of the corrected code lead on from v. */
  lemma LeadOn(c: seq<Slot>, q: seq<Slot>, pos: seq<nat>, k: int, v: int)
    requires Corrected(c, q, pos) && Leaves(c, k, v) && LeavesSomewhere(q, v)
    ensures LeavesSomewhere(q, k)
  {
    var n: nat :| Leads(c, k, n, v);
    LeadsCorrected(c, q, pos, k, n, v);
    var w :| Leaves(q, v, w);
    var m: nat :| Leads(q, v, m, w);
    LeadsTrans(q, k, n, v, m, w);
    assert Leaves(q, k, w);
  }

  /** At a place where the uncorrected code stops, the corrected code stops or jumps to a rule. */
  lemma StopOrCall(c: seq<Slot>, q: seq<Slot>, pos: seq<nat>, v: int)
    requires Corrected(c, q, pos) && 0 <= v <= |c| && !IsOp(c, v, IJmp)
    requires IsOp(c, v, IOpenCall) && c[v].key < |pos| ==> LeavesSomewhere(q, pos[c[v].key])
    ensures LeavesSomewhere(q, v)
  {
    if v < |c| { assert CorrectedAt(c, q, pos, v); }
    if IsOp(q, v, IJmp) {
      var w :| Leaves(q, pos[c[v].key], w);
      Hop(q, v, w);
    } else {
      Stays(q, v);
    }
  }

  ghost predicate RulesFit(g: seq<Tree>) {
    Accepted(g) && forall k :: 0 <= k < |g| ==> Wf(g, g[k])
  }

  /** From the start of a rule that the check has accepted, with 'left' more rules to enter, the jumps end. */
  lemma {:induction false} RuleLeaves(g: seq<Tree>, c: seq<Slot>, q: seq<Slot>, r: nat, left: nat)
    requires RulesFit(g) && c == RulesCode(g, g, true) && Corrected(c, q, Positions(g, g, 0, true))
    requires r < |g| && VerifyRule(g, g[r], left, false, true).Passed?
    ensures LeavesSomewhere(q, Positions(g, g, 0, true)[r])
    decreases left
  {
    hide Gen, Wf, Fit, RulesCode, Positions, Leaves, VerifyRule, VerifyGrammar;
    var pos := Positions(g, g, 0, true);
    var x := Gen(g, g[r], false, NoTest, FULL, true);
    var a, b := RuleAt(g, g, 0, r);
    var y := GenStarts(g, g[r], false, NoTest, FULL, left, false);
    RuleStops(g, x, y, left, VerifyRule(g, g[r], left, false, true));
    var rule := x + [Op(IRet)];
    LeavesRight(a, rule, 0, y);
    LeavesLeft(a + rule, b, |a|, |a| + y);
    var v := |a| + y;
    assert c[v] == rule[y];
    LeavesInside(c, |a|, v);
    if IsOp(c, v, IOpenCall) && c[v].key < |pos| { RuleLeaves(g, c, q, c[v].key, left - 1); }
    StopOrCall(c, q, pos, v);
    LeadOn(c, q, pos, |a|, v);
  }

  /** Followed by a return, the code of a rule stops before its end. */
  lemma RuleStops(g: seq<Tree>, x: seq<Slot>, y: int, left: nat, v: Verdict)
    requires Starts(g, x, y, left, v)
    ensures var rule := x + [Op(IRet)];
      0 <= y < |rule| && Leaves(rule, 0, y) && (IsOp(rule, y, IOpenCall) ==> LeftCall(g, rule[y].key, left))
  {
    var rule := x + [Op(IRet)];
    if y < |x| {
      LeavesLeft(x, [Op(IRet)], 0, y);
    } else {
      Stays([Op(IRet)], 0);
      LeavesThrough(x, [Op(IRet)], 0, 0);
    }
  }

  /** The code of an accepted grammar, corrected: left recursion would be the only way round in a circle. */
  lemma {:induction false} RulesCorrected(g: seq<Tree>)
    requires RulesFit(g)
    ensures NoLoop(CorrectCalls(RulesCode(g, g, true), Positions(g, g, 0, true), 0))
    decreases g, 3
  {
    hide Gen, Wf, Fit, RulesCode, Positions, Leaves, VerifyRule, CorrectCalls, Tidy, Corrected;
    var c, pos := RulesCode(g, g, true), Positions(g, g, 0, true);
    var q := CorrectCalls(c, pos, 0);
    RulesTidy(g, g, true);
    PositionsInside(g, g, 0, true);
    AllCorrected(c, pos, 0);
    RulesNoLoop(g, g);
    forall k | 0 <= k <= |q| ensures LeavesSomewhere(q, k) {
      assert LeavesSomewhere(c, k);
      var v :| Leaves(c, k, v);
      LeavesInside(c, k, v);
      if IsOp(c, v, IOpenCall) {
        CalledIsUsed(g, c, v);
        RuleLeaves(g, c, q, c[v].key, MAXRULES);
      }
      StopOrCall(c, q, pos, v);
      LeadOn(c, q, pos, k, v);
    }
  }

  lemma {:induction false} GrammarNoLoop(g: seq<Tree>, t: Tree, opt: bool, tt: Test, fl: Charset)
    requires t.TGrammar? && Wf(g, t) && Fit(t)
    ensures NoLoop(Gen(g, t, opt, tt, fl, true))
    decreases t, 0
  {
    hide NoLoop, RulesCode, Positions, CorrectCalls, Accepted;
    var rules := t.rules;
    var body, pos := RulesCode(rules, rules, true), Positions(rules, rules, 0, true);
    RulesCorrected(rules);
    var q := CorrectCalls(body, pos, 0);
    NoLoopJump(2 + |body|, q);
    NoLoopPlain([Op(ICall), Off(4)]);
    NoLoopAdd([Op(ICall), Off(4)], [Op(IJmp), Off(2 + |body|)] + q);
    assert [Op(ICall), Off(4)] + ([Op(IJmp), Off(2 + |body|)] + q)
        == [Op(ICall), Off(4), Op(IJmp), Off(2 + |body|)] + q;
  }

  // ----- no circles -----

  ghost predicate NoCircle(code: seq<Slot>) {
    forall k :: !Circles(code, k)
  }

  lemma {:induction false} LeadsFinal(code: seq<Slot>, k: int, n: nat, y: int)
    requires Leads(code, k, n, y)
    ensures FinalTarget(code, k, n) == y
    decreases n
  {
    if n > 0 { LeadsFinal(code, k + code[k + 1].offset, n - 1, y); }
  }

  lemma NoLoopNoCircle(x: seq<Slot>)
    requires NoLoop(x)
    ensures NoCircle(x)
  {
    forall k ensures !Circles(x, k) {
      if Circles(x, k) {
        CircleNeverStops(x, k, 0);
        assert LeavesSomewhere(x, k);
        var y :| Leaves(x, k, y);
        var n: nat :| Leads(x, k, n, y);
        LeadsFinal(x, k, n, y);
        CircleNeverStops(x, k, n);
      }
    }
  }

  /** Whoever looks for a final target in accepted code finds one. */
  lemma ProgramNoCircle(t: Tree)
    requires Wf([], t) && Fit(t)
    ensures NoCircle(Program(t, true))
  {
    hide Gen, Wf, Fit, NoLoop;
    GenNoLoop([], t, false, NoTest, FULL);
    NoLoopPlain([Op(IEnd)]);
    NoLoopAdd(Gen([], t, false, NoTest, FULL, true), [Op(IEnd)]);
    NoLoopNoCircle(Program(t, true));
  }

  lemma {:induction false} FinalLeads(code: seq<Slot>, k: int, h: nat) returns (n: nat)
    ensures Leads(code, k, n, FinalTarget(code, k, h))
    decreases h
  {
    n := 0;
    if h > 0 && IsJump(code, k) {
      n := FinalLeads(code, k + code[k + 1].offset, h - 1);
      n := n + 1;
    }
  }

  /** While calls are being corrected there is no circle either: every jump is still there at the end. */
  lemma CorrectingNoCircle(c: seq<Slot>, pos: seq<nat>, k: nat)
    requires Tidy(c, |pos|) && (forall j :: 0 <= j < |pos| ==> pos[j] <= |c|) && NoCircle(CorrectCalls(c, pos, k))
    ensures NoCircle(c)
  {
    hide Tidy, CorrectCalls, Corrected;
    var q := CorrectCalls(c, pos, k);
    AllCorrected(c, pos, k);
    forall x ensures !Circles(c, x) {
      if Circles(c, x) { CircleStays(c, q, pos, x); }
    }
  }

  lemma CircleStays(c: seq<Slot>, q: seq<Slot>, pos: seq<nat>, x: int)
    requires Corrected(c, q, pos) && Circles(c, x)
    ensures Circles(q, x)
  {
    hide Corrected;
    var n: nat, m: nat, z: int :| n > 0 && Leads(c, x, m, z) && Leads(c, z, n, z);
    LeadsCorrected(c, q, pos, x, m, z);
    LeadsCorrected(c, q, pos, z, n, z);
  }

  /** What jumps of an improved program do in one hop, those of the program do in one or more. */
  lemma ImprovedHop(p: seq<Slot>, q: seq<Slot>, k: nat, ft: int, x: int) returns (n: nat)
    requires Improved(p, q, k, ft) && !IsOp(q, k + 1, IJmp) && IsJump(q, x)
    ensures n > 0 && Leads(p, x, n, x + q[x + 1].offset)
  {
    if x == k && Threaded(p, q, k) {
      var h: nat :| FinalTarget(p, k + p[k + 1].offset, h) == k + q[k + 1].offset;
      n := FinalLeads(p, k + p[k + 1].offset, h);
      n := n + 1;
    } else {
      assert x != k && x != k + 1;
      assert q[x] == p[x] && x + 1 != k && q[x + 1] == p[x + 1];
      assert Leads(p, x + p[x + 1].offset, 0, x + p[x + 1].offset);
      n := 1;
    }
  }

  lemma {:induction false} ImprovedLeads(p: seq<Slot>, q: seq<Slot>, k: nat, ft: int, x: int, n: nat,
                                         y: int) returns (m: nat)
    requires Improved(p, q, k, ft) && !IsOp(q, k + 1, IJmp) && Leads(q, x, n, y)
    ensures m >= n && Leads(p, x, m, y)
    decreases n
  {
    hide Improved;
    m := 0;
    if n > 0 {
      var x' := x + q[x + 1].offset;
      var a := ImprovedHop(p, q, k, ft, x);
      var b := ImprovedLeads(p, q, k, ft, x', n - 1, y);
      LeadsTrans(p, x, a, x', b, y);
      m := a + b;
    }
  }

  lemma ImprovedNoCircle(p: seq<Slot>, q: seq<Slot>, k: nat, ft: int)
    requires Improved(p, q, k, ft) && !IsOp(q, k + 1, IJmp) && NoCircle(p)
    ensures NoCircle(q)
  {
    hide Improved;
    forall x ensures !Circles(q, x) {
      if Circles(q, x) { CircleBefore(p, q, k, ft, x); }
    }
  }

  lemma CircleBefore(p: seq<Slot>, q: seq<Slot>, k: nat, ft: int, x: int)
    requires Improved(p, q, k, ft) && !IsOp(q, k + 1, IJmp) && Circles(q, x)
    ensures Circles(p, x)
  {
    hide Improved;
    var n: nat, m: nat, z: int :| n > 0 && Leads(q, x, m, z) && Leads(q, z, n, z);
    var m' := ImprovedLeads(p, q, k, ft, x, m, z);
    var n' := ImprovedLeads(p, q, k, ft, z, n, z);
  }

  /** Each turn of the peephole pass leaves a program without circles. */
  lemma PeepNoCircle(code: seq<Slot>, k: nat)
    requires At(code, k) && NoCircle(code)
    ensures NoCircle(PeepAt(code, k))
  {
    hide FinalTarget, NoCircle;
    if code[k].I? && HasOffset(code[k].op) && code[k].op != IOpenCall && OffAt(code, k + 1) {
      if code[k].op != IJmp {
        RelabelNoCircle(code, k);
      } else {
        var ft := FinalTarget(code, k, |code|);
        ChainNext(code, k, |code|);
        if At(code, ft) && code[ft].I? && IsFinal(code[ft].op) {
          ImprovedNoCircle(code, PeepAt(code, k), k, ft);
        } else if At(code, ft) && code[ft].I? && IsCommit(code[ft].op) && OffAt(code, ft + 1) {
          var fft := FinalTarget(code, ft + code[ft + 1].offset, |code|);
          var code1 := code[k := code[ft]][k + 1 := Off(fft - k)];
          CopyNoCircle(code, k);
          RelabelNoCircle(code1, k);
        } else {
          ImprovedNoCircle(code, PeepAt(code, k), k, ft);
        }
      }
    }
  }

  lemma RelabelNoCircle(code: seq<Slot>, k: nat)
    requires OffAt(code, k + 1) && code[k].I? && HasOffset(code[k].op) && NoCircle(code)
    ensures NoCircle(Relabel(code, k))
  {
    hide NoCircle;
    assert Chain(code, k + code[k + 1].offset, FinalTarget(code, k + code[k + 1].offset, |code|));
    ImprovedNoCircle(code, Relabel(code, k), k, 0);
  }

  /** The jump at k has become a copy of the commit it leads to. */
  lemma CopyNoCircle(code: seq<Slot>, k: nat)
    requires IsOp(code, k, IJmp) && OffAt(code, k + 1) && NoCircle(code)
    requires var ft := FinalTarget(code, k, |code|);
      At(code, ft) && code[ft].I? && IsCommit(code[ft].op) && OffAt(code, ft + 1)
    ensures var ft := FinalTarget(code, k, |code|);
      NoCircle(code[k := code[ft]][k + 1 := Off(FinalTarget(code, ft + code[ft + 1].offset, |code|) - k)])
  {
    hide NoCircle, FinalTarget;
    var ft := FinalTarget(code, k, |code|);
    ChainNext(code, k, |code|);
    var fft := FinalTarget(code, ft + code[ft + 1].offset, |code|);
    assert Chain(code, ft + code[ft + 1].offset, fft);
    ImprovedNoCircle(code, code[k := code[ft]][k + 1 := Off(fft - k)], k, ft);
  }

  lemma {:induction false} PassNoCircle(code: seq<Slot>, k: nat)
    requires NoCircle(code)
    ensures NoCircle(PeepFrom(code, k))
    decreases |code| - k
  {
    hide NoCircle, PeepAt;
    if k < |code| {
      PeepNoCircle(code, k);
      var code' := PeepAt(code, k);
      PassNoCircle(code', k + if code'[k].I? then SizeOf(code'[k].op) else 1);
    }
  }

  /** 'finaltarget' as it is written: it follows jumps as long as there are any. */
  method FindTarget(code: seq<Slot>, k: int) returns (r: int)
    requires !Circles(code, k)
    ensures r == FinalTarget(code, k, |code|) && !IsJump(code, r)
  {
    TargetIsFinal(code, k, |code|);
    r := k;
    ghost var left: nat := |code|;
    while IsOp(code, r, IJmp) && OffAt(code, r + 1)
      invariant FinalTarget(code, r, left) == FinalTarget(code, k, |code|) && !IsJump(code, FinalTarget(code, r, left))
      decreases left
    {
      r := r + code[r + 1].offset;
      left := left - 1;
    }
  }
}
