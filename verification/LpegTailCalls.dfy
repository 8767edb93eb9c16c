/** Tail calls: turning "call; return" into a jump does not change what the machine answers. */
module TailCalls {
  import opened Common
  import opened PegTree
  import opened Peg
  import opened Analysis
  import opened Vm
  import opened Layout
  import opened Code
  import opened Tidiness

  /** From address x, the machine only jumps until it returns. */
  ghost predicate ReachRet(code: seq<Slot>, x: int) {
    exists h: nat :: IsOp(code, FinalTarget(code, x, h), IRet)
  }

  /** Slot j is kept, or is a call that became a jump because its continuation only returns. */
  ghost predicate TailAt(p: seq<Slot>, q: seq<Slot>, j: nat)
    requires j < |p| == |q|
  {
    p[j] == q[j] || (IsOp(p, j, ICall) && q[j] == p[j].(op := IJmp) && ReachRet(q, j + 2))
  }

  ghost predicate TailRel(p: seq<Slot>, q: seq<Slot>) {
    |p| == |q| && forall j :: 0 <= j < |p| ==> TailAt(p, q, j)
  }

  // ----- running both programs -----

  /** The second stack lacks some return addresses from which the machine would only return. */
  ghost predicate StackRel(q: seq<Slot>, st: Stack, st': Stack) {
    match st
    case Empty => st' == Empty
    case Push(Choice(_, _, _), rest) => st'.Push? && st'.top == st.top && StackRel(q, rest, st'.rest)
    case Push(Return(r), rest) =>
      || (st'.Push? && st'.top == st.top && StackRel(q, rest, st'.rest))
      || (ReachRet(q, r) && StackRel(q, rest, st'))
  }

  /** From x, h jumps of q lead to x', or both lead to a return. */
  ghost predicate PcRel(q: seq<Slot>, x: int, x': int, h: nat) {
    var y := FinalTarget(q, x, h);
    y == x' || (IsOp(q, y, IRet) && IsOp(q, x', IRet))
  }

  ghost predicate Rel(q: seq<Slot>, a: State, a': State) {
    match a
    case Run(x, i, caps, st) =>
      && a'.Run? && a'.i == i && a'.caps == caps && StackRel(q, st, a'.st)
      && exists h: nat :: PcRel(q, x, a'.pc, h)
    case _ => a == a'
  }

  lemma PcSame(q: seq<Slot>, x: int)
    ensures PcRel(q, x, x, 0)
  {
  }

  lemma {:induction false} BacktrackRel(q: seq<Slot>, st: Stack, st': Stack, caps: seq<Cap>)
    requires StackRel(q, st, st') && Backtrack(st, caps).Run?
    ensures Rel(q, Backtrack(st, caps), Backtrack(st', caps))
    decreases st
  {
    match st
    case Push(Return(r), rest) =>
      if st'.Push? && st'.top == st.top && StackRel(q, rest, st'.rest) {
        BacktrackRel(q, rest, st'.rest, caps);
      } else {
        BacktrackRel(q, rest, st', caps);
      }
    case Push(Choice(x, _, _), rest) => PcSame(q, x);
  }

  /** Instructions that push or pop. */
  predicate UsesStack(op: Opcode) {
    op in {IChoice, ICall, ICommit, IPartialCommit, IBackCommit}
  }

  /** Same address, same instruction. */
  lemma SameInstr(p: seq<Slot>, q: seq<Slot>, s: seq<Byte>, x: int, i: nat, caps: seq<Cap>, st: Stack, st': Stack)
    requires TailRel(p, q) && StackRel(q, st, st') && i <= |s|
    requires At(p, x) && p[x].I? && q[x] == p[x] && p[x].op != IRet
    requires Exec(p, s, x, i, caps, st) != Stuck
    ensures Rel(q, Exec(p, s, x, i, caps, st), Exec(q, s, x, i, caps, st'))
  {
    hide Exec, Rel, TailRel, StackRel;
    if UsesStack(p[x].op) {
      SameStack(p, q, s, x, i, caps, st, st');
    } else if p[x].op == IFailTwice {
      SameFailTwice(p, q, s, x, i, caps, st, st');
    } else {
      SamePlain(p, q, s, x, i, caps, st, st');
    }
  }

  lemma SamePlain(p: seq<Slot>, q: seq<Slot>, s: seq<Byte>, x: int, i: nat, caps: seq<Cap>, st: Stack, st': Stack)
    requires TailRel(p, q) && StackRel(q, st, st') && i <= |s|
    requires At(p, x) && p[x].I? && q[x] == p[x] && p[x].op != IRet && p[x].op != IFailTwice && !UsesStack(p[x].op)
    requires Exec(p, s, x, i, caps, st) != Stuck
    ensures Rel(q, Exec(p, s, x, i, caps, st), Exec(q, s, x, i, caps, st'))
  {
    hide SpanEnd, FinalTarget, Backtrack, ReachRet, StackRel, CloseCapture, Rel, PcRel;
    assert At(p, x + 1) ==> TailAt(p, q, x + 1);
    assert At(p, x + 2) ==> TailAt(p, q, x + 2);
    if Backtrack(st, caps).Run? { BacktrackRel(q, st, st', caps); }
    if st.Push? && st.top.Choice? && st.rest == Empty { LastChoice(q, st, st'); }
    var b := Exec(p, s, x, i, caps, st);
    if b.Run? { RunRel(q, b.pc, b.i, b.caps, st, st'); }
    if b.Halt? { HaltRel(q, b); }
  }

  lemma LastChoice(q: seq<Slot>, st: Stack, st': Stack)
    requires StackRel(q, st, st') && st.Push? && st.top.Choice? && st.rest == Empty
    ensures st' == st
  {
  }

  lemma RunRel(q: seq<Slot>, pc: int, i: nat, caps: seq<Cap>, st: Stack, st': Stack)
    requires StackRel(q, st, st')
    ensures Rel(q, Run(pc, i, caps, st), Run(pc, i, caps, st'))
  {
    PcSame(q, pc);
  }

  lemma HaltRel(q: seq<Slot>, b: State)
    requires !b.Run?
    ensures Rel(q, b, b)
  {
  }

  lemma SameStack(p: seq<Slot>, q: seq<Slot>, s: seq<Byte>, x: int, i: nat, caps: seq<Cap>, st: Stack, st': Stack)
    requires TailRel(p, q) && StackRel(q, st, st') && i <= |s|
    requires At(p, x) && p[x].I? && q[x] == p[x] && UsesStack(p[x].op)
    requires Exec(p, s, x, i, caps, st) != Stuck
    ensures Rel(q, Exec(p, s, x, i, caps, st), Exec(q, s, x, i, caps, st'))
  {
    hide ExecJump, StackRel, Rel, ReachRet;
    assert At(p, x + 1) ==> TailAt(p, q, x + 1);
    JumpBoth(p, q, s, p[x].op, p[x].aux, x, x + p[x + 1].offset, i, caps, st, st');
  }

  /** An instruction that changes the stack does the same to both stacks. */
  lemma JumpBoth(p: seq<Slot>, q: seq<Slot>, s: seq<Byte>, op: Opcode, aux: nat, x: int, l: int, i: nat,
                 caps: seq<Cap>, st: Stack, st': Stack)
    requires StackRel(q, st, st') && i <= |s| && UsesStack(op) && HasOffset(op)
    requires ExecJump(p, s, op, aux, x, l, i, caps, st) != Stuck
    ensures Rel(q, ExecJump(p, s, op, aux, x, l, i, caps, st), ExecJump(q, s, op, aux, x, l, i, caps, st'))
  {
    hide StackRel, PcRel;
    ChoiceOnTop(q, st, st');
    var b := ExecJump(p, s, op, aux, x, l, i, caps, st);
    PcSame(q, b.pc);
    if op == IChoice || op == ICall { PushBoth(q, b.st.top, st, st'); }
    if op == IPartialCommit { PushBoth(q, b.st.top, st.rest, st'.rest); }
  }

  lemma ChoiceOnTop(q: seq<Slot>, st: Stack, st': Stack)
    requires StackRel(q, st, st')
    ensures st.Push? && st.top.Choice? ==> st'.Push? && st'.top == st.top && StackRel(q, st.rest, st'.rest)
  {
  }

  lemma PushBoth(q: seq<Slot>, e: Entry, st: Stack, st': Stack)
    ensures StackRel(q, st, st') ==> StackRel(q, Push(e, st), Push(e, st'))
  {
  }

  lemma SameFailTwice(p: seq<Slot>, q: seq<Slot>, s: seq<Byte>, x: int, i: nat, caps: seq<Cap>, st: Stack, st': Stack)
    requires TailRel(p, q) && StackRel(q, st, st') && i <= |s|
    requires At(p, x) && p[x].I? && q[x] == p[x] && p[x].op == IFailTwice
    requires Exec(p, s, x, i, caps, st) != Stuck
    ensures Rel(q, Exec(p, s, x, i, caps, st), Exec(q, s, x, i, caps, st'))
  {
    hide SpanEnd, FinalTarget, ReachRet;
    FailTwiceRel(q, st, st', caps);
  }

  /** IFailTwice pops an entry that both stacks have, a choice. */
  lemma FailTwiceRel(q: seq<Slot>, st: Stack, st': Stack, caps: seq<Cap>)
    requires st.Push? && st.top.Choice? && StackRel(q, st, st') && Backtrack(st.rest, caps).Run?
    ensures st'.Push? && Rel(q, Backtrack(st.rest, caps), Backtrack(st'.rest, caps))
  {
    BacktrackRel(q, st.rest, st'.rest, caps);
  }

  /** A return: the second program returns as well, unless the address it returns to was left out of its stack. */
  lemma ReturnRel(q: seq<Slot>, x': int, i: nat, caps: seq<Cap>, st: Stack, st': Stack) returns (k: nat)
    requires StackRel(q, st, st') && st.Push? && st.top.Return? && IsOp(q, x', IRet)
    ensures k == 0 ==> Rel(q, Run(st.top.p, i, caps, st.rest), Run(x', i, caps, st'))
    ensures k == 1 ==>
      st'.Push? && st'.top.Return? && Rel(q, Run(st.top.p, i, caps, st.rest), Run(st'.top.p, i, caps, st'.rest))
    ensures k <= 1
  {
    var r := st.top.p;
    if st'.Push? && st'.top == st.top && StackRel(q, st.rest, st'.rest) {
      PcSame(q, r);
      k := 1;
    } else {
      var h: nat :| IsOp(q, FinalTarget(q, r, h), IRet);
      assert PcRel(q, r, x', h);
      k := 0;
    }
  }

  /** Each step of p is matched by at most one step of q. */
  lemma StepRel(p: seq<Slot>, q: seq<Slot>, s: seq<Byte>, a: State, a': State) returns (k: nat)
    requires TailRel(p, q) && Rel(q, a, a') && Step(p, s, a) != Stuck
    ensures k <= 1 && Rel(q, Step(p, s, a), if k == 0 then a' else Step(q, s, a'))
  {
    hide TailRel, StackRel, Exec;
    k := 1;
    if a.Run? {
      var Run(x, i, caps, st) := a;
      var Run(x', _, _, st') := a';
      var h: nat :| PcRel(q, x, x', h);
      if x == GIVEUP {
        GiveUpRel(q, st, st', x', h);
      } else if h > 0 && IsOp(q, x, IJmp) && OffAt(q, x + 1) {
        JumpRel(p, q, s, a, a', h);
        k := 0;
      } else if IsOp(p, x, IRet) {
        k := StepReturn(p, q, s, a, a');
      } else {
        StepSame(p, q, s, a, a');
      }
    }
  }

  lemma GiveUpRel(q: seq<Slot>, st: Stack, st': Stack, x': int, h: nat)
    requires PcRel(q, GIVEUP, x', h) && StackRel(q, st, st') && st == Empty
    ensures x' == GIVEUP && st' == Empty
  {
  }

  /** While p jumps, or calls where q jumps, q may wait. */
  lemma JumpRel(p: seq<Slot>, q: seq<Slot>, s: seq<Byte>, a: State, a': State, h: nat)
    requires TailRel(p, q) && Rel(q, a, a') && Step(p, s, a) != Stuck
    requires a.Run? && a.pc != GIVEUP && h > 0 && PcRel(q, a.pc, a'.pc, h)
    requires IsOp(q, a.pc, IJmp) && OffAt(q, a.pc + 1)
    ensures Rel(q, Step(p, s, a), a')
  {
    var x := a.pc;
    assert TailAt(p, q, x) && TailAt(p, q, x + 1);
    assert PcRel(q, x + q[x + 1].offset, a'.pc, h - 1);
  }

  lemma StepReturn(p: seq<Slot>, q: seq<Slot>, s: seq<Byte>, a: State, a': State) returns (k: nat)
    requires TailRel(p, q) && Rel(q, a, a') && Step(p, s, a) != Stuck
    requires a.Run? && IsOp(p, a.pc, IRet) && PcRel(q, a.pc, a'.pc, 0)
    ensures k <= 1 && Rel(q, Step(p, s, a), if k == 0 then a' else Step(q, s, a'))
  {
    assert TailAt(p, q, a.pc);
    k := ReturnRel(q, a'.pc, a.i, a.caps, a.st, a'.st);
  }

  lemma StepSame(p: seq<Slot>, q: seq<Slot>, s: seq<Byte>, a: State, a': State)
    requires TailRel(p, q) && Rel(q, a, a') && Step(p, s, a) != Stuck
    requires a.Run? && a.pc != GIVEUP && !IsOp(p, a.pc, IRet) && PcRel(q, a.pc, a'.pc, 0)
    ensures Rel(q, Step(p, s, a), Step(q, s, a'))
  {
    var x := a.pc;
    assert TailAt(p, q, x);
    if p[x] == q[x] {
      SameInstr(p, q, s, x, a.i, a.caps, a.st, a'.st);
    } else {
      assert TailAt(p, q, x + 1);
      PcSame(q, x + q[x + 1].offset);
    }
  }

  lemma {:induction false} HaltsRel(p: seq<Slot>, q: seq<Slot>, s: seq<Byte>, a: State, a': State, n: nat)
    requires TailRel(p, q) && Rel(q, a, a') && Iter(p, s, a, n).Halt?
    ensures Reaches(q, s, a', Iter(p, s, a, n))
    decreases n
  {
    if !a.Run? {
      IterFixed(p, s, a, n);
      Reach0(q, s, a');
    } else {
      var b := Step(p, s, a);
      if b == Stuck { IterFixed(p, s, b, n - 1); }
      var k := StepRel(p, q, s, a, a');
      var b' := if k == 0 then a' else Step(q, s, a');
      HaltsRel(p, q, s, b, b', n - 1);
      if k == 0 { Reach0(q, s, a'); } else { Reach1(q, s, a'); }
      ReachTrans(q, s, a', b', Iter(p, s, a, n));
    }
  }

  /** Programs related by tail calls give the same answers. */
  lemma TailAnswers(p: seq<Slot>, q: seq<Slot>, s: seq<Byte>, i: nat, r: Answer)
    requires TailRel(p, q) && Answers(p, s, i, r)
    ensures Answers(q, s, i, r)
  {
    var n: nat :| Iter(p, s, Start(i), n) == Halt(r);
    PcSame(q, 0);
    HaltsRel(p, q, s, Start(i), Start(i), n);
  }

  // ----- what 'correctcalls' does is such a relation -----

  /** Jumps, returns and offsets of x are still there in y. */
  ghost predicate Keeps(x: seq<Slot>, y: seq<Slot>) {
    |x| == |y| && forall j :: 0 <= j < |x| ==> KeepsAt(x, y, j)
  }

  ghost predicate KeepsAt(x: seq<Slot>, y: seq<Slot>, j: nat)
    requires j < |x| == |y|
  {
    IsOp(x, j, IJmp) || IsOp(x, j, IRet) || x[j].Off? ==> y[j] == x[j]
  }

  lemma {:induction false} ChainKept(x: seq<Slot>, y: seq<Slot>, k: int, h: nat)
    requires Keeps(x, y) && IsOp(x, FinalTarget(x, k, h), IRet)
    ensures IsOp(y, FinalTarget(y, k, h), IRet)
    decreases h
  {
    assert At(x, k) ==> KeepsAt(x, y, k);
    assert At(x, k + 1) ==> KeepsAt(x, y, k + 1);
    if h > 0 && IsOp(x, k, IJmp) && OffAt(x, k + 1) {
      ChainKept(x, y, k + x[k + 1].offset, h - 1);
    }
  }

  lemma ReachRetKept(x: seq<Slot>, y: seq<Slot>, k: int)
    requires Keeps(x, y) && ReachRet(x, k)
    ensures ReachRet(y, k)
  {
    var h: nat :| IsOp(x, FinalTarget(x, k, h), IRet);
    ChainKept(x, y, k, h);
  }

  lemma {:induction false} ChainShift(pre: seq<Slot>, x: seq<Slot>, post: seq<Slot>, k: int, h: nat)
    requires IsOp(x, FinalTarget(x, k, h), IRet)
    ensures IsOp(pre + x + post, FinalTarget(pre + x + post, |pre| + k, h), IRet)
    decreases h
  {
    var z := pre + x + post;
    if At(x, k) { assert z[|pre| + k] == x[k]; }
    if At(x, k + 1) { assert z[|pre| + k + 1] == x[k + 1]; }
    if h > 0 && IsOp(x, k, IJmp) && OffAt(x, k + 1) {
      ChainShift(pre, x, post, k + x[k + 1].offset, h - 1);
    }
  }

  lemma ReachRetShift(pre: seq<Slot>, x: seq<Slot>, post: seq<Slot>, k: int)
    requires ReachRet(x, k)
    ensures ReachRet(pre + x + post, |pre| + k)
  {
    var h: nat :| IsOp(x, FinalTarget(x, k, h), IRet);
    ChainShift(pre, x, post, k, h);
  }

  lemma TailSame(x: seq<Slot>)
    ensures TailRel(x, x)
  {
  }

  lemma TailAdd(x: seq<Slot>, y: seq<Slot>, x': seq<Slot>, y': seq<Slot>)
    requires TailRel(x, y) && TailRel(x', y')
    ensures TailRel(x + x', y + y')
  {
    var p, q := x + x', y + y';
    forall j | 0 <= j < |p| ensures TailAt(p, q, j) {
      if j < |x| {
        assert TailAt(x, y, j);
        if x[j] != y[j] {
          ReachRetShift([], y, y', j + 2);
          assert [] + y + y' == q;
        }
      } else {
        assert TailAt(x', y', j - |x|);
        if x'[j - |x|] != y'[j - |x|] {
          ReachRetShift(y, y', [], j - |x| + 2);
          assert y + y' + [] == q;
        }
      }
    }
  }

  lemma TailTrans(x: seq<Slot>, y: seq<Slot>, z: seq<Slot>)
    requires TailRel(x, y) && TailRel(y, z)
    ensures TailRel(x, z)
  {
    assert Keeps(y, z) by {
      forall j | 0 <= j < |y| ensures KeepsAt(y, z, j) { assert TailAt(y, z, j); }
    }
    forall j | 0 <= j < |x| ensures TailAt(x, z, j) {
      assert TailAt(x, y, j) && TailAt(y, z, j);
      if x[j] != y[j] { ReachRetKept(y, z, j + 2); }
    }
  }

  lemma ResolveKeeps(x: seq<Slot>, pos: seq<nat>)
    ensures Keeps(x, ResolveCalls(x, pos))
  {
    var z := ResolveCalls(x, pos);
    forall j | 0 <= j < |x| ensures KeepsAt(x, z, j) { assert z[j] == ResolvedSlot(x, pos, j); }
  }

  lemma TailResolve(x: seq<Slot>, y: seq<Slot>, pos: seq<nat>)
    requires TailRel(x, y)
    ensures TailRel(ResolveCalls(x, pos), ResolveCalls(y, pos))
  {
    var p, q := ResolveCalls(x, pos), ResolveCalls(y, pos);
    ResolveKeeps(y, pos);
    forall j | 0 <= j < |p| ensures TailAt(p, q, j) {
      assert TailAt(x, y, j) && (j > 0 ==> TailAt(x, y, j - 1));
      assert p[j] == ResolvedSlot(x, pos, j) && q[j] == ResolvedSlot(y, pos, j);
      if x[j] != y[j] { ReachRetKept(y, q, j + 2); }
    }
  }

  /** One call corrected. */
  lemma TailCorrectOne(code: seq<Slot>, pos: seq<nat>, k: nat)
    requires Tidy(code, |pos|) && IsOp(code, k, IOpenCall) && k + 1 < |code| && code[k].key < |pos|
    ensures TailRel(ResolveCalls(code, pos), ResolveCalls(CorrectOne(code, pos, k), pos))
  {
    var code' := CorrectOne(code, pos, k);
    var p, q := ResolveCalls(code, pos), ResolveCalls(code', pos);
    assert TidyAt(code, k, 0, |code|, |pos|);
    forall j | 0 <= j < |p| ensures TailAt(p, q, j) {
      assert p[j] == ResolvedSlot(code, pos, j) && q[j] == ResolvedSlot(code', pos, j);
      if p[j] != q[j] {
        assert j == k && IsOp(code', k, IJmp);
        CorrectOneReaches(code, pos, k);
      }
    }
  }

  lemma CorrectOneReaches(code: seq<Slot>, pos: seq<nat>, k: nat)
    requires Tidy(code, |pos|) && IsOp(code, k, IOpenCall) && k + 1 < |code| && code[k].key < |pos|
    requires IsOp(CorrectOne(code, pos, k), k, IJmp)
    ensures ReachRet(ResolveCalls(CorrectOne(code, pos, k), pos), k + 2)
  {
    var code' := CorrectOne(code, pos, k);
    assert TidyAt(code, k, 0, |code|, |pos|);
    assert ReachRet(code, k + 2);
    assert Keeps(code, code');
    ReachRetKept(code, code', k + 2);
    ResolveKeeps(code', pos);
    ReachRetKept(code', ResolveCalls(code', pos), k + 2);
  }

  lemma {:induction false} TailCorrect(code: seq<Slot>, pos: seq<nat>, k: nat)
    requires Tidy(code, |pos|)
    requires forall j :: 0 <= j < |pos| ==> pos[j] <= |code|
    requires forall j :: 0 <= j < k && j < |code| ==> !IsOp(code, j, IOpenCall)
    ensures TailRel(ResolveCalls(code, pos), CorrectCalls(code, pos, k))
    decreases |code| - k
  {
    if k >= |code| {
      assert ResolveCalls(code, pos) == code;
      TailSame(code);
    } else if IsOp(code, k, IOpenCall) {
      TidyCorrectOne(code, pos, k);
      var code' := CorrectOne(code, pos, k);
      forall j | 0 <= j < k + 2 && j < |code'| ensures !IsOp(code', j, IOpenCall) {
        if j < k { assert !IsOp(code, j, IOpenCall) && code'[j] == code[j]; }
      }
      TailCorrectOne(code, pos, k);
      TailCorrect(code', pos, k + 2);
      TailTrans(ResolveCalls(code, pos), ResolveCalls(code', pos), CorrectCalls(code', pos, k + 2));
    } else {
      assert TidyAt(code, k, 0, |code|, |pos|);
      var size := if code[k].I? then SizeOf(code[k].op) else 1;
      forall j | 0 <= j < k + size && j < |code| ensures !IsOp(code, j, IOpenCall) {
        if k < j { assert !code[j].I?; }
      }
      TailCorrect(code, pos, k + size);
    }
  }

  // ----- all of the generated code -----

  lemma TailMid(pre: seq<Slot>, x: seq<Slot>, y: seq<Slot>, post: seq<Slot>)
    requires TailRel(x, y)
    ensures TailRel(pre + x + post, pre + y + post)
  {
    hide TailRel;
    TailSame(pre);
    TailSame(post);
    TailAdd(pre, pre, x, y);
    TailAdd(pre + x, pre + y, post, post);
  }

  lemma TailChoiceTested(cs: Charset, x1: seq<Slot>, y1: seq<Slot>, x2: seq<Slot>, y2: seq<Slot>, empty: bool)
    requires TailRel(x1, y1) && TailRel(x2, y2)
    ensures TailRel(ChoiceTested(cs, x1, x2, empty), ChoiceTested(cs, y1, y2, empty))
  {
    hide TailAt, TestCode, TestSize;
    var jmp := if empty then [] else [Op(IJmp), Off(2 + |x2|)];
    var test := TestCode(cs, TestSize(cs) + |x1| + |jmp|);
    TailMid(test, x1, y1, jmp);
    TailAdd(test + x1 + jmp, test + y1 + jmp, x2, y2);
  }

  lemma TailChoiceFull(f: First, x1: seq<Slot>, y1: seq<Slot>, x2: seq<Slot>, y2: seq<Slot>)
    requires TailRel(x1, y1) && TailRel(x2, y2)
    ensures TailRel(ChoiceFull(f, x1, x2), ChoiceFull(f, y1, y2))
  {
    hide TailAt, MaybeTest, MaybeSize;
    var head := MaybeTest(f, MaybeSize(f) + 4 + |x1|) + [Op(IChoice), Off(4 + |x1|)];
    var commit := [Op(ICommit), Off(2 + |x2|)];
    TailMid(head, x1, y1, commit);
    TailAdd(head + x1 + commit, head + y1 + commit, x2, y2);
  }

  lemma TailRepTested(cs: Charset, x: seq<Slot>, y: seq<Slot>)
    requires TailRel(x, y)
    ensures TailRel(RepTested(cs, x), RepTested(cs, y))
  {
    hide TailAt, TestCode, TestSize;
    TailMid(TestCode(cs, TestSize(cs) + |x| + 2), x, y, [Op(IJmp), Off(-(TestSize(cs) + |x|))]);
  }

  lemma TailRepChoice(f: First, opt: bool, x: seq<Slot>, y: seq<Slot>)
    requires TailRel(x, y)
    ensures TailRel(RepChoice(f, opt, x), RepChoice(f, opt, y))
  {
    hide TailAt, MaybeTest, MaybeSize;
    var enter := [Op(if opt then IPartialCommit else IChoice), Off(if opt then 2 else 4 + |x|)];
    TailMid(MaybeTest(f, MaybeSize(f) + 4 + |x|) + enter, x, y, [Op(IPartialCommit), Off(-|x|)]);
  }

  lemma TailNotChoice(f: First, x: seq<Slot>, y: seq<Slot>)
    requires TailRel(x, y)
    ensures TailRel(NotChoice(f, x), NotChoice(f, y))
  {
    hide TailAt, MaybeTest, MaybeSize;
    TailMid(MaybeTest(f, MaybeSize(f) + 3 + |x|) + [Op(IChoice), Off(3 + |x|)], x, y, [Op(IFailTwice)]);
  }

  lemma {:induction false} GenTail(g: seq<Tree>, t: Tree, opt: bool, tt: Test, fl: Charset)
    requires Wf(g, t)
    ensures TailRel(Gen(g, t, opt, tt, fl, false), Gen(g, t, opt, tt, fl, true))
    decreases t, 0
  {
    hide TailRel, GetFirst, HeadFail, CheckAux, FixedLenX, HasCaptures, NotChoice, NotHead, MaybeTest, ResolveCalls;
    hide CorrectCalls;
    match t
    case TChoice(p1, p2) => GenTailChoice(g, t, opt, tt, fl);
    case TRep(p) => GenTailRep(g, t, opt, tt, fl);
    case TSeq(p1, p2) =>
      var fl1, tt2 := SeqFollow(g, p1, p2, fl), SeqTest(g, p1, tt);
      GenTail(g, p1, false, tt, fl1);
      GenTail(g, p2, opt, tt2, fl);
      TailAdd(Gen(g, p1, false, tt, fl1, false), Gen(g, p1, false, tt, fl1, true),
              Gen(g, p2, opt, tt2, fl, false), Gen(g, p2, opt, tt2, fl, true));
    case TBehind(n, p) =>
      GenTail(g, p, false, NoTest, FULL);
      TailSame(BehindIf(n));
      TailAdd(BehindIf(n), BehindIf(n), Gen(g, p, false, NoTest, FULL, false), Gen(g, p, false, NoTest, FULL, true));
    case TNot(p) =>
      var f := GetFirst(g, p, FULL, DEPTH);
      GenTail(g, p, false, NoTest, FULL);
      TailSame(NotHead(f));
      TailNotChoice(f, Gen(g, p, false, NoTest, FULL, false), Gen(g, p, false, NoTest, FULL, true));
    case TAnd(p) => GenTailAnd(g, t, opt, tt, fl);
    case TCapture(kind, key, p) => GenTailCapture(g, t, opt, tt, fl);
    case TGrammar(rules) => GenTailGrammar(g, rules, opt, tt, fl);
    case _ => TailSame(Gen(g, t, opt, tt, fl, false));
  }

  lemma {:induction false} GenTailAnd(g: seq<Tree>, t: Tree, opt: bool, tt: Test, fl: Charset)
    requires Wf(g, t) && t.TAnd?
    ensures TailRel(Gen(g, t, opt, tt, fl, false), Gen(g, t, opt, tt, fl, true))
    decreases t, 0, 0
  {
    hide TailAt, GetFirst, HeadFail, CheckAux, FixedLenX, HasCaptures;
    var p := t.p;
    var x, y := Gen(g, p, false, tt, FULL, false), Gen(g, p, false, tt, FULL, true);
    GenTail(g, p, false, tt, FULL);
    if AndByBehind(g, p) {
      var last := BehindIf(FixedLen(g, p));
      TailSame(last);
      TailAdd(x, y, last, last);
    } else {
      TailMid([Op(IChoice), Off(4 + |x|)], x, y, [Op(IBackCommit), Off(3), Op(IFail)]);
    }
  }

  lemma {:induction false} GenTailCapture(g: seq<Tree>, t: Tree, opt: bool, tt: Test, fl: Charset)
    requires Wf(g, t) && t.TCapture?
    ensures TailRel(Gen(g, t, opt, tt, fl, false), Gen(g, t, opt, tt, fl, true))
    decreases t, 0, 0
  {
    hide TailAt, GetFirst, HeadFail, CheckAux, FixedLenX, HasCaptures;
    var TCapture(kind, key, p) := t;
    var x, y := Gen(g, p, false, tt, fl, false), Gen(g, p, false, tt, fl, true);
    GenTail(g, p, false, tt, fl);
    if CaptureByLen(g, p) {
      var last := [I(IFullCapture, JoinKindOff(kind, FixedLen(g, p)), key)];
      TailSame(last);
      TailAdd(x, y, last, last);
    } else {
      TailMid([I(IOpenCapture, JoinKindOff(kind, 0), key)], x, y, [I(ICloseCapture, JoinKindOff(CCLOSE, 0), 0)]);
    }
  }

  lemma {:induction false} GenTailChoice(g: seq<Tree>, t: Tree, opt: bool, tt: Test, fl: Charset)
    requires Wf(g, t) && t.TChoice?
    ensures TailRel(Gen(g, t, opt, tt, fl, false), Gen(g, t, opt, tt, fl, true))
    decreases t, 0, 0
  {
    hide TailRel, GetFirst, HeadFail, CheckAux, FixedLenX, HasCaptures, ChoiceTested, ChoiceFull;
    var TChoice(p1, p2) := t;
    var f1 := GetFirst(g, p1, FULL, DEPTH);
    GenTail(g, p2, opt, NoTest, fl);
    var x2, y2 := Gen(g, p2, opt, NoTest, fl, false), Gen(g, p2, opt, NoTest, fl, true);
    if ChoiceByTest(g, p1, p2, fl) {
      var tt1 := TestInfo(f1.cs);
      GenTail(g, p1, false, tt1, fl);
      TailChoiceTested(f1.cs, Gen(g, p1, false, tt1, fl, false), Gen(g, p1, false, tt1, fl, true), x2, y2, p2.TTrue?);
    } else if opt && p2.TTrue? {
      GenTail(g, p1, true, NoTest, FULL);
      TailSame([Op(IPartialCommit), Off(2)]);
      TailAdd([Op(IPartialCommit), Off(2)], [Op(IPartialCommit), Off(2)],
              Gen(g, p1, true, NoTest, FULL, false), Gen(g, p1, true, NoTest, FULL, true));
    } else {
      var o1, tt1 := p2.TTrue?, MaybeInfo(f1);
      GenTail(g, p1, o1, tt1, FULL);
      TailChoiceFull(f1, Gen(g, p1, o1, tt1, FULL, false), Gen(g, p1, o1, tt1, FULL, true), x2, y2);
    }
  }

  lemma {:induction false} GenTailRep(g: seq<Tree>, t: Tree, opt: bool, tt: Test, fl: Charset)
    requires Wf(g, t) && t.TRep?
    ensures TailRel(Gen(g, t, opt, tt, fl, false), Gen(g, t, opt, tt, fl, true))
    decreases t, 0, 0
  {
    hide TailRel, GetFirst, HeadFail, CheckAux, FixedLenX, HasCaptures, RepTested, RepChoice;
    var p := t.p;
    var f := GetFirst(g, p, FULL, DEPTH);
    if IsCharset(p) {
      TailSame(RepSpan(ToCharset(p)));
    } else if RepByTest(g, p, fl) {
      var tt1 := TestInfo(f.cs);
      GenTail(g, p, opt, tt1, FULL);
      TailRepTested(f.cs, Gen(g, p, opt, tt1, FULL, false), Gen(g, p, opt, tt1, FULL, true));
    } else {
      GenTail(g, p, false, NoTest, FULL);
      TailRepChoice(f, opt, Gen(g, p, false, NoTest, FULL, false), Gen(g, p, false, NoTest, FULL, true));
    }
  }

  lemma {:induction false} RulesTail(g: seq<Tree>, rs: seq<Tree>, from: nat)
    requires forall k :: 0 <= k < |rs| ==> Wf(g, rs[k])
    ensures TailRel(RulesCode(g, rs, false), RulesCode(g, rs, true))
    ensures Positions(g, rs, from, false) == Positions(g, rs, from, true)
    decreases rs, 0
  {
    hide Gen, TailAt;
    if rs != [] {
      GenTail(g, rs[0], false, NoTest, FULL);
      TailSame([Op(IRet)]);
      TailAdd(Gen(g, rs[0], false, NoTest, FULL, false), Gen(g, rs[0], false, NoTest, FULL, true), [Op(IRet)],
              [Op(IRet)]);
      RulesTail(g, rs[1..], from + |RuleCode(g, rs[0], false)|);
      TailAdd(RuleCode(g, rs[0], false), RuleCode(g, rs[0], true), RulesCode(g, rs[1..], false),
              RulesCode(g, rs[1..], true));
    }
  }

  lemma {:induction false} GenTailGrammar(g: seq<Tree>, rules: seq<Tree>, opt: bool, tt: Test, fl: Charset)
    requires Wf(g, TGrammar(rules))
    ensures TailRel(Gen(g, TGrammar(rules), opt, tt, fl, false), Gen(g, TGrammar(rules), opt, tt, fl, true))
    decreases TGrammar(rules), 0, 0
  {
    hide TailAt, Wf;
    assert forall k :: 0 <= k < |rules| ==> Wf(rules, rules[k]) by { WfRules(g, rules); }
    RulesTail(rules, rules, 0);
    RulesTidy(rules, rules, true);
    var x, y := RulesCode(rules, rules, false), RulesCode(rules, rules, true);
    var pos := Positions(rules, rules, 0, true);
    PositionsInside(rules, rules, 0, true);
    TailResolve(x, y, pos);
    TailCorrect(y, pos, 0);
    TailTrans(ResolveCalls(x, pos), ResolveCalls(y, pos), CorrectCalls(y, pos, 0));
    var head := [Op(ICall), Off(4), Op(IJmp), Off(2 + |x|)];
    TailSame(head);
    TailAdd(head, head, ResolveCalls(x, pos), CorrectCalls(y, pos, 0));
  }

  lemma WfRules(g: seq<Tree>, rules: seq<Tree>)
    requires Wf(g, TGrammar(rules))
    ensures forall k :: 0 <= k < |rules| ==> Wf(rules, rules[k])
  {
  }

  /** The program with tail calls answers whatever the program without them does. */
  lemma TailProgram(t: Tree, s: seq<Byte>, i: nat, r: Answer)
    requires Wf([], t) && Answers(Program(t, false), s, i, r)
    ensures Answers(Program(t, true), s, i, r)
  {
    GenTail([], t, false, NoTest, FULL);
    TailSame([Op(IEnd)]);
    TailAdd(Gen([], t, false, NoTest, FULL, false), Gen([], t, false, NoTest, FULL, true), [Op(IEnd)], [Op(IEnd)]);
    TailAnswers(Program(t, false), Program(t, true), s, i, r);
  }
}
