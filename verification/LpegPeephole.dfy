/** The peephole pass: threading jumps does not change what the machine answers. */
module Peephole {
  import opened Common
  import opened PegTree
  import opened Peg
  import opened Vm
  import opened Layout
  import opened Code

  // ----- the pass -----

  predicate IsFinal(op: Opcode) { op in {IRet, IFail, IFailTwice, IEnd} }
  predicate IsCommit(op: Opcode) { op in {ICommit, IPartialCommit, IBackCommit} }

  /** The instruction at k gets the final destination of its label. */
  function Relabel(code: seq<Slot>, k: nat): (code': seq<Slot>)
    requires OffAt(code, k + 1)
    ensures |code'| == |code|
  {
    code[k + 1 := Off(FinalTarget(code, k + code[k + 1].offset, |code|) - k)]
  }

  /** One iteration of 'peephole', at the instruction in slot k. */
  function PeepAt(code: seq<Slot>, k: nat): (code': seq<Slot>)
    requires At(code, k)
    ensures |code'| == |code|
  {
    if !code[k].I? || !HasOffset(code[k].op) || code[k].op == IOpenCall || !OffAt(code, k + 1) then code
    else if code[k].op != IJmp then Relabel(code, k)
    else
      var ft := FinalTarget(code, k, |code|);
      if At(code, ft) && code[ft].I? && IsFinal(code[ft].op) then
        code[k := code[ft]][k + 1 := Op(IAny)]
      else if At(code, ft) && code[ft].I? && IsCommit(code[ft].op) && OffAt(code, ft + 1) then
        var fft := FinalTarget(code, ft + code[ft + 1].offset, |code|);
        Relabel(code[k := code[ft]][k + 1 := Off(fft - k)], k)
      else code[k + 1 := Off(ft - k)]
  }

  /** 'peephole' from slot k on. */
  function PeepFrom(code: seq<Slot>, k: nat): (code': seq<Slot>)
    ensures |code'| == |code|
    decreases |code| - k
  {
    if k >= |code| then code
    else
      var code' := PeepAt(code, k);
      PeepFrom(code', k + if code'[k].I? then SizeOf(code'[k].op) else 1)
  }

  // ----- one improved instruction -----

  /** Some jumps of p lead from x to y. */
  ghost predicate Chain(p: seq<Slot>, x: int, y: int) {
    exists h: nat :: FinalTarget(p, x, h) == y
  }

  ghost predicate Threaded(p: seq<Slot>, q: seq<Slot>, k: nat)
    requires OffAt(p, k + 1) && |q| == |p|
  {
    q[k] == p[k] && q[k + 1].Off? && Chain(p, k + p[k + 1].offset, k + q[k + 1].offset)
  }

  /** The jump at k, whose chain ends at ft, became the instruction at ft. */
  ghost predicate Copied(p: seq<Slot>, q: seq<Slot>, k: nat, ft: int)
    requires OffAt(p, k + 1) && |q| == |p|
  {
    && p[k].I? && p[k].op == IJmp && Chain(p, k + p[k + 1].offset, ft)
    && At(p, ft) && p[ft].I? && q[k] == p[ft]
    && (IsCommit(p[ft].op) ==>
          && OffAt(p, ft + 1) && q[k + 1].Off?
          && Chain(p, ft + p[ft + 1].offset, k + q[k + 1].offset))
    && (IsFinal(p[ft].op) || IsCommit(p[ft].op))
  }

  /** q is p, except that the instruction at k was improved. */
  ghost predicate Improved(p: seq<Slot>, q: seq<Slot>, k: nat, ft: int) {
    && |p| == |q| && OffAt(p, k + 1) && p[k].I? && HasOffset(p[k].op)
    && (forall j :: 0 <= j < |p| && j != k && j != k + 1 ==> q[j] == p[j])
    && (Threaded(p, q, k) || Copied(p, q, k, ft))
  }

  // ----- running both programs -----

  ghost predicate StackRel(p: seq<Slot>, st: Stack, st': Stack) {
    match st
    case Empty => st' == Empty
    case Push(e, rest) => st'.Push? && EntryRel(p, e, st'.top) && StackRel(p, rest, st'.rest)
  }

  ghost predicate EntryRel(p: seq<Slot>, e: Entry, e': Entry) {
    match e
    case Return(r) => e' == e
    case Choice(x, s, l) => e'.Choice? && e'.s == s && e'.caplevel == l && Chain(p, x, e'.p)
  }

  /** Jumps of p lead from x to where q is, or q is at the copy of the instruction they lead to. */
  ghost predicate PcRel(p: seq<Slot>, q: seq<Slot>, k: nat, ft: int, x: int, x': int, h: nat) {
    var y := FinalTarget(p, x, h);
    y == x' || (x' == k && y == ft && OffAt(p, k + 1) && |q| == |p| && Copied(p, q, k, ft))
  }

  ghost predicate Rel(p: seq<Slot>, q: seq<Slot>, k: nat, ft: int, a: State, a': State) {
    match a
    case Run(x, i, caps, st) =>
      && a'.Run? && a'.i == i && a'.caps == caps && StackRel(p, st, a'.st)
      && exists h: nat :: PcRel(p, q, k, ft, x, a'.pc, h)
    case _ => a == a'
  }

  lemma ChainRel(p: seq<Slot>, q: seq<Slot>, k: nat, ft: int, x: int, x': int)
    requires Chain(p, x, x')
    ensures exists h: nat :: PcRel(p, q, k, ft, x, x', h)
  {
    var h: nat :| FinalTarget(p, x, h) == x';
    assert PcRel(p, q, k, ft, x, x', h);
  }

  lemma ChainSame(p: seq<Slot>, x: int)
    ensures Chain(p, x, x)
  {
    assert FinalTarget(p, x, 0) == x;
  }

  lemma {:induction false} BacktrackRel(p: seq<Slot>, q: seq<Slot>, k: nat, ft: int, st: Stack, st': Stack,
                                        caps: seq<Cap>)
    requires StackRel(p, st, st') && Backtrack(st, caps).Run?
    ensures Rel(p, q, k, ft, Backtrack(st, caps), Backtrack(st', caps))
    decreases st
  {
    match st
    case Push(Return(r), rest) => BacktrackRel(p, q, k, ft, rest, st'.rest, caps);
    case Push(Choice(x, _, _), rest) => ChainRel(p, q, k, ft, x, st'.top.p);
  }

  /** The same instruction, in both programs, with labels that a chain connects. */
  lemma ExecJumpRel(p: seq<Slot>, q: seq<Slot>, k: nat, ft: int, s: seq<Byte>, x: int, x': int, l: int, l': int,
                    i: nat, caps: seq<Cap>, st: Stack, st': Stack)
    requires StackRel(p, st, st') && i <= |s|
    requires At(p, x) && At(q, x') && p[x].I? && q[x'] == p[x] && HasOffset(p[x].op)
    requires x == x' || IsCommit(p[x].op)
    requires Chain(p, l, l')
    requires p[x].op == ITestSet && BufAt(p, x + 2) ==> At(q, x' + 2) && q[x' + 2] == p[x + 2]
    requires ExecJump(p, s, p[x].op, p[x].aux, x, l, i, caps, st) != Stuck
    ensures Rel(p, q, k, ft, ExecJump(p, s, p[x].op, p[x].aux, x, l, i, caps, st),
                ExecJump(q, s, p[x].op, p[x].aux, x', l', i, caps, st'))
  {
    var b := ExecJump(p, s, p[x].op, p[x].aux, x, l, i, caps, st);
    ChainRel(p, q, k, ft, l, l');
    ChainSame(p, b.pc);
    ChainRel(p, q, k, ft, b.pc, b.pc);
  }

  /** The same instruction without a label. */
  lemma ExecPlainRel(p: seq<Slot>, q: seq<Slot>, k: nat, ft: int, s: seq<Byte>, x: int, x': int,
                     i: nat, caps: seq<Cap>, st: Stack, st': Stack)
    requires StackRel(p, st, st') && i <= |s|
    requires At(p, x) && At(q, x') && p[x].I? && q[x'] == p[x] && !HasOffset(p[x].op)
    requires x == x' || IsFinal(p[x].op)
    requires p[x].op == ISet || p[x].op == ISpan ==> At(q, x' + 1) && At(p, x + 1) && q[x' + 1] == p[x + 1]
    requires Exec(p, s, x, i, caps, st) != Stuck
    ensures Rel(p, q, k, ft, Exec(p, s, x, i, caps, st), Exec(q, s, x', i, caps, st'))
  {
    var b := Exec(p, s, x, i, caps, st);
    if b == Backtrack(st, caps) { BacktrackRel(p, q, k, ft, st, st', caps); }
    if p[x].op == IFailTwice { BacktrackRel(p, q, k, ft, st.rest, st'.rest, caps); }
    if b.Run? {
      ChainSame(p, b.pc);
      ChainRel(p, q, k, ft, b.pc, b.pc);
    }
  }

  lemma ExecRel(p: seq<Slot>, q: seq<Slot>, k: nat, ft: int, s: seq<Byte>, x: int, x': int,
                i: nat, caps: seq<Cap>, st: Stack, st': Stack)
    requires StackRel(p, st, st') && i <= |s|
    requires At(p, x) && At(q, x') && p[x].I? && q[x'] == p[x]
    requires x == x' || IsFinal(p[x].op) || IsCommit(p[x].op)
    requires HasOffset(p[x].op) && OffAt(p, x + 1) ==>
      OffAt(q, x' + 1) && Chain(p, x + p[x + 1].offset, x' + q[x' + 1].offset)
    requires p[x].op == ISet || p[x].op == ISpan ==> At(q, x' + 1) && At(p, x + 1) && q[x' + 1] == p[x + 1]
    requires p[x].op == ITestSet && BufAt(p, x + 2) ==> At(q, x' + 2) && q[x' + 2] == p[x + 2]
    requires Exec(p, s, x, i, caps, st) != Stuck
    ensures Rel(p, q, k, ft, Exec(p, s, x, i, caps, st), Exec(q, s, x', i, caps, st'))
  {
    hide ExecJump, Rel, StackRel, Chain;
    if HasOffset(p[x].op) {
      ExecJumpRel(p, q, k, ft, s, x, x', x + p[x + 1].offset, x' + q[x' + 1].offset, i, caps, st, st');
    } else {
      ExecPlainRel(p, q, k, ft, s, x, x', i, caps, st, st');
    }
  }

  /** Each step of p is matched by at most one step of q. */
  lemma StepRel(p: seq<Slot>, q: seq<Slot>, k: nat, ft: int, s: seq<Byte>, a: State, a': State) returns (d: nat)
    requires Improved(p, q, k, ft) && Rel(p, q, k, ft, a, a') && Step(p, s, a) != Stuck
    ensures d <= 1 && Rel(p, q, k, ft, Step(p, s, a), if d == 0 then a' else Step(q, s, a'))
  {
    hide Improved, StackRel, Exec, Copied;
    d := 1;
    if a.Run? {
      var h: nat :| PcRel(p, q, k, ft, a.pc, a'.pc, h);
      if a.pc == GIVEUP {
        GiveUpRel(p, q, k, ft, a, a', h);
      } else if h > 0 && IsOp(p, a.pc, IJmp) && OffAt(p, a.pc + 1) {
        JumpRel(p, q, k, ft, s, a, a', h);
        d := 0;
      } else if a.pc != a'.pc {
        StepCopy(p, q, k, ft, s, a, a');
      } else if a.pc == k {
        d := StepAtK(p, q, k, ft, s, a, a');
      } else {
        StepSame(p, q, k, ft, s, a, a');
      }
    }
  }

  lemma GiveUpRel(p: seq<Slot>, q: seq<Slot>, k: nat, ft: int, a: State, a': State, h: nat)
    requires Rel(p, q, k, ft, a, a') && a.Run? && a.pc == GIVEUP && a.st == Empty && PcRel(p, q, k, ft, a.pc, a'.pc, h)
    ensures a'.pc == GIVEUP && a'.st == Empty
  {
  }

  /** While p follows its jumps, q waits. */
  lemma JumpRel(p: seq<Slot>, q: seq<Slot>, k: nat, ft: int, s: seq<Byte>, a: State, a': State, h: nat)
    requires Rel(p, q, k, ft, a, a') && Step(p, s, a) != Stuck
    requires a.Run? && a.pc != GIVEUP && h > 0 && PcRel(p, q, k, ft, a.pc, a'.pc, h)
    requires IsOp(p, a.pc, IJmp) && OffAt(p, a.pc + 1)
    ensures Rel(p, q, k, ft, Step(p, s, a), a')
  {
    assert PcRel(p, q, k, ft, a.pc + p[a.pc + 1].offset, a'.pc, h - 1);
  }

  /** p has arrived at the instruction whose copy q executes. */
  lemma StepCopy(p: seq<Slot>, q: seq<Slot>, k: nat, ft: int, s: seq<Byte>, a: State, a': State)
    requires Improved(p, q, k, ft) && Rel(p, q, k, ft, a, a') && Step(p, s, a) != Stuck
    requires a.Run? && a.pc != a'.pc && a.pc != GIVEUP && PcRel(p, q, k, ft, a.pc, a'.pc, 0)
    ensures Rel(p, q, k, ft, Step(p, s, a), Step(q, s, a'))
  {
    ExecRel(p, q, k, ft, s, a.pc, a'.pc, a.i, a.caps, a.st, a'.st);
  }

  lemma StepAtK(p: seq<Slot>, q: seq<Slot>, k: nat, ft: int, s: seq<Byte>, a: State, a': State) returns (d: nat)
    requires Improved(p, q, k, ft) && Rel(p, q, k, ft, a, a') && Step(p, s, a) != Stuck
    requires a.Run? && a.pc == a'.pc == k
    ensures d <= 1 && Rel(p, q, k, ft, Step(p, s, a), if d == 0 then a' else Step(q, s, a'))
  {
    if Threaded(p, q, k) {
      ExecRel(p, q, k, ft, s, k, k, a.i, a.caps, a.st, a'.st);
      d := 1;
    } else {
      var h: nat :| FinalTarget(p, k + p[k + 1].offset, h) == ft;
      assert PcRel(p, q, k, ft, k + p[k + 1].offset, k, h);
      d := 0;
    }
  }

  lemma StepSame(p: seq<Slot>, q: seq<Slot>, k: nat, ft: int, s: seq<Byte>, a: State, a': State)
    requires Improved(p, q, k, ft) && Rel(p, q, k, ft, a, a') && Step(p, s, a) != Stuck
    requires a.Run? && a.pc == a'.pc && a.pc != GIVEUP && a.pc != k
    ensures Rel(p, q, k, ft, Step(p, s, a), Step(q, s, a'))
  {
    var x := a.pc;
    if OffAt(p, x + 1) { ChainSame(p, x + p[x + 1].offset); }
    ExecRel(p, q, k, ft, s, x, x, a.i, a.caps, a.st, a'.st);
  }

  lemma {:induction false} HaltsRel(p: seq<Slot>, q: seq<Slot>, k: nat, ft: int, s: seq<Byte>, a: State, a': State,
                                    n: nat)
    requires Improved(p, q, k, ft) && Rel(p, q, k, ft, a, a') && Iter(p, s, a, n).Halt?
    ensures Reaches(q, s, a', Iter(p, s, a, n))
    decreases n
  {
    hide Improved, Rel;
    if !a.Run? {
      RelHalt(p, q, k, ft, a, a');
      IterFixed(p, s, a, n);
      Reach0(q, s, a');
    } else {
      var b := Step(p, s, a);
      if b == Stuck { IterFixed(p, s, b, n - 1); }
      var d := StepRel(p, q, k, ft, s, a, a');
      var b' := if d == 0 then a' else Step(q, s, a');
      HaltsRel(p, q, k, ft, s, b, b', n - 1);
      if d == 0 { Reach0(q, s, a'); } else { Reach1(q, s, a'); }
      ReachTrans(q, s, a', b', Iter(p, s, a, n));
    }
  }

  lemma RelHalt(p: seq<Slot>, q: seq<Slot>, k: nat, ft: int, a: State, a': State)
    requires Rel(p, q, k, ft, a, a') && !a.Run?
    ensures a == a'
  {
  }

  lemma ImprovedAnswers(p: seq<Slot>, q: seq<Slot>, k: nat, ft: int, s: seq<Byte>, i: nat, r: Answer)
    requires Improved(p, q, k, ft) && Answers(p, s, i, r)
    ensures Answers(q, s, i, r)
  {
    var n: nat :| Iter(p, s, Start(i), n) == Halt(r);
    ChainSame(p, 0);
    ChainRel(p, q, k, ft, 0, 0);
    ChainSame(p, GIVEUP);
    assert StackRel(p, Empty, Empty);
    HaltsRel(p, q, k, ft, s, Start(i), Start(i), n);
  }

  // ----- the whole pass -----

  lemma ChainNext(p: seq<Slot>, x: int, h: nat)
    requires h > 0 && IsOp(p, x, IJmp) && OffAt(p, x + 1)
    ensures Chain(p, x + p[x + 1].offset, FinalTarget(p, x, h))
  {
    assert FinalTarget(p, x + p[x + 1].offset, h - 1) == FinalTarget(p, x, h);
  }

  lemma RelabelAnswers(code: seq<Slot>, k: nat, s: seq<Byte>, i: nat, r: Answer)
    requires OffAt(code, k + 1) && code[k].I? && HasOffset(code[k].op) && Answers(code, s, i, r)
    ensures Answers(Relabel(code, k), s, i, r)
  {
    hide Answers;
    assert Chain(code, k + code[k + 1].offset, FinalTarget(code, k + code[k + 1].offset, |code|));
    ImprovedAnswers(code, Relabel(code, k), k, 0, s, i, r);
  }

  /** One iteration of the pass keeps every answer. */
  lemma PeepAtAnswers(code: seq<Slot>, k: nat, s: seq<Byte>, i: nat, r: Answer)
    requires At(code, k) && Answers(code, s, i, r)
    ensures Answers(PeepAt(code, k), s, i, r)
  {
    hide Answers, FinalTarget;
    if code[k].I? && HasOffset(code[k].op) && code[k].op != IOpenCall && OffAt(code, k + 1) {
      if code[k].op != IJmp {
        RelabelAnswers(code, k, s, i, r);
      } else {
        var ft := FinalTarget(code, k, |code|);
        ChainNext(code, k, |code|);
        if At(code, ft) && code[ft].I? && IsFinal(code[ft].op) {
          ImprovedAnswers(code, PeepAt(code, k), k, ft, s, i, r);
        } else if At(code, ft) && code[ft].I? && IsCommit(code[ft].op) && OffAt(code, ft + 1) {
          var fft := FinalTarget(code, ft + code[ft + 1].offset, |code|);
          assert Chain(code, ft + code[ft + 1].offset, fft);
          var code1 := code[k := code[ft]][k + 1 := Off(fft - k)];
          ImprovedAnswers(code, code1, k, ft, s, i, r);
          RelabelAnswers(code1, k, s, i, r);
        } else {
          ImprovedAnswers(code, PeepAt(code, k), k, ft, s, i, r);
        }
      }
    }
  }

  /** The whole pass keeps every answer, for every program. */
  lemma {:induction false} PeepAnswers(code: seq<Slot>, k: nat, s: seq<Byte>, i: nat, r: Answer)
    requires Answers(code, s, i, r)
    ensures Answers(PeepFrom(code, k), s, i, r)
    decreases |code| - k
  {
    hide Answers, PeepAt;
    if k < |code| {
      PeepAtAnswers(code, k, s, i, r);
      var code' := PeepAt(code, k);
      PeepAnswers(code', k + if code'[k].I? then SizeOf(code'[k].op) else 1, s, i, r);
    }
  }
}
