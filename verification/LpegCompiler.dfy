/** The code generator of lpcode.c as it works: instructions are appended to the code, and offsets are patched
    once their targets are known. Each method is proved to emit exactly the code of module Code. */
module Compiler {
  import opened Common
  import opened PegTree
  import opened Analysis
  import opened Vm
  import opened Layout
  import opened Code
  import opened Tidiness
  import opened Peephole
  import opened GrammarCheck
  import opened Jumps

  const NOINST: int := -1

  /** What the code generator can see of the test instruction at tt. */
  function TestAt(code: seq<Slot>, tt: int): Test {
    if tt < 0 then NoTest
    else if IsOp(code, tt, ITestChar) && code[tt].aux < 256 then TestChar(code[tt].aux)
    else if IsOp(code, tt, ITestSet) && BufAt(code, tt + 2) then TestSet(code[tt + 2].cs)
    else OtherTest
  }

  /** Code that follows the test does not change what is seen of it. */
  lemma TestAtKept(code: seq<Slot>, more: seq<Slot>, tt: int)
    requires tt < |code| && (IsOp(code, tt, ITestSet) ==> tt + 2 < |code|)
    ensures TestAt(code + more, tt) == TestAt(code, tt)
  {
  }

  lemma TestAtEnd(code: seq<Slot>, cs: Charset)
    ensures TestAt(code + ([TestInstr(cs), Hole] + TestTail(cs)), |code|) == TestInfo(cs)
  {
    var z := code + ([TestInstr(cs), Hole] + TestTail(cs));
    assert z[|code|] == TestInstr(cs);
    if CharsetType(cs) == OtherSet { assert z[|code| + 2] == TestTail(cs)[0]; }
  }

  /** Patching the offset of an instruction emitted earlier. */
  lemma Patch(pre: seq<Slot>, o: Slot, post: seq<Slot>, off: int)
    ensures (pre + [o, Hole] + post)[|pre| + 1 := Off(off)] == pre + [o, Off(off)] + post
  {
  }

  /** Patching a test. */
  lemma PatchTest(pre: seq<Slot>, cs: Charset, post: seq<Slot>, off: int)
    ensures (pre + ([TestInstr(cs), Hole] + TestTail(cs)) + post)[|pre| + 1 := Off(off)]
        == pre + TestCode(cs, off) + post
  {
    hide TestInstr, TestTail;
    Patch(pre, TestInstr(cs), TestTail(cs) + post, off);
    assert pre + ([TestInstr(cs), Hole] + TestTail(cs)) + post == pre + [TestInstr(cs), Hole] + (TestTail(cs) + post);
    assert pre + ([TestInstr(cs), Off(off)] + TestTail(cs)) + post
        == pre + [TestInstr(cs), Off(off)] + (TestTail(cs) + post);
  }

  /** The slots of a test (or of none) before its offset is known. */
  function OpenTest(f: First): (x: seq<Slot>)
    ensures |x| == MaybeSize(f)
  {
    if f.e then [] else [TestInstr(f.cs), Hole] + TestTail(f.cs)
  }

  lemma PatchMaybe(pre: seq<Slot>, f: First, post: seq<Slot>, off: int)
    ensures (if f.e then pre + OpenTest(f) + post else (pre + OpenTest(f) + post)[|pre| + 1 := Off(off)])
         == pre + MaybeTest(f, off) + post
  {
    hide TestInstr, TestTail;
    if !f.e { PatchTest(pre, f.cs, post, off); }
  }

  lemma TestSizes(cs: Charset)
    ensures TestSize(cs) == 2 + |TestTail(cs)| && MaybeInfo(First(cs, false)) == TestInfo(cs)
    ensures OpenTest(First(cs, false)) == [TestInstr(cs), Hole] + TestTail(cs)
  {
  }

  lemma TrueCode(g: seq<Tree>, p: Tree, opt: bool, fl: Charset)
    requires p.TTrue?
    ensures Gen(g, p, opt, NoTest, fl, true) == []
  {
  }

  lemma ChoiceUnfolds(g: seq<Tree>, p1: Tree, p2: Tree, opt: bool, fl: Charset)
    ensures var f1 := GetFirst(g, p1, FULL, DEPTH);
      Gen(g, TChoice(p1, p2), opt, NoTest, fl, true) ==
      if ChoiceByTest(g, p1, p2, fl) then
        ChoiceTested(f1.cs, Gen(g, p1, false, TestInfo(f1.cs), fl, true), Gen(g, p2, opt, NoTest, fl, true), p2.TTrue?)
      else if opt && p2.TTrue? then ChoicePartial(Gen(g, p1, true, NoTest, FULL, true))
      else ChoiceFull(f1, Gen(g, p1, p2.TTrue?, MaybeInfo(f1), FULL, true), Gen(g, p2, opt, NoTest, fl, true))
  {
    hide GetFirst, HeadFail, ChoiceByTest, ChoiceTested, ChoicePartial, ChoiceFull, TestInfo, MaybeInfo;
  }

  lemma NotUnfolds(g: seq<Tree>, p: Tree)
    ensures var f := GetFirst(g, p, FULL, DEPTH);
      Gen(g, TNot(p), false, NoTest, FULL, true) ==
      if HeadFail(g, p, DEPTH) then NotHead(f) else NotChoice(f, Gen(g, p, false, NoTest, FULL, true))
  {
    hide GetFirst, HeadFail, NotHead, NotChoice;
  }

  /** A test can be seen at tt. */
  ghost predicate TestOk(code: seq<Slot>, tt: int) {
    tt < |code| && (IsOp(code, tt, ITestSet) ==> tt + 2 < |code|)
  }

  // ----- emitting and patching gives the layouts -----

  lemma EmitTested(pre: seq<Slot>, cs: Charset, x1: seq<Slot>, x2: seq<Slot>, empty: bool)
    requires empty ==> x2 == []
    ensures var c2 := pre + OpenTest(First(cs, false)) + x1;
            var c3 := if empty then c2 else c2 + [Op(IJmp), Hole];
            var c4 := c3[|pre| + 1 := Off(|c3| - |pre|)] + x2;
            (if empty then c4 else c4[|c2| + 1 := Off(|c4| - |c2|)]) == pre + ChoiceTested(cs, x1, x2, empty)
  {
    hide TestCode, TestInstr, TestTail, TestSize, MaybeSize;
    TestSizes(cs);
    var t0 := OpenTest(First(cs, false));
    if empty {
      PatchTest(pre, cs, x1, TestSize(cs) + |x1|);
      assert pre + TestCode(cs, TestSize(cs) + |x1|) + x1 + []
          == pre + (TestCode(cs, TestSize(cs) + |x1|) + x1 + [] + []);
    } else {
      var off := TestSize(cs) + |x1| + 2;
      assert pre + t0 + x1 + [Op(IJmp), Hole] == pre + t0 + (x1 + [Op(IJmp), Hole]);
      PatchTest(pre, cs, x1 + [Op(IJmp), Hole], off);
      EmitFullEnd(pre, TestCode(cs, off), [], x1, x2, IJmp);
      assert [] + x1 + [Op(IJmp), Hole] == x1 + [Op(IJmp), Hole];
      assert TestCode(cs, off) + [] == TestCode(cs, off);
    }
  }

  /** The code of a choice up to its second alternative, with the offset of the commit open. */
  function FullHead(f: First, x1: seq<Slot>): seq<Slot> {
    MaybeTest(f, MaybeSize(f) + 4 + |x1|) + ([Op(IChoice), Off(4 + |x1|)] + x1 + [Op(ICommit), Hole])
  }

  lemma EmitFull(pre: seq<Slot>, f: First, x1: seq<Slot>, x2: seq<Slot>)
    ensures var c := pre + FullHead(f, x1) + x2; var q := |pre + FullHead(f, x1)| - 2;
            0 <= q && c[q + 1 := Off(|c| - q)] == pre + ChoiceFull(f, x1, x2)
  {
    hide MaybeTest, MaybeSize;
    var test := MaybeTest(f, MaybeSize(f) + 4 + |x1|);
    var rest := [Op(IChoice), Off(4 + |x1|)] + x1 + [Op(ICommit), Hole];
    assert pre + (test + rest) == pre + test + rest;
    EmitFullEnd(pre, test, [Op(IChoice), Off(4 + |x1|)], x1, x2, ICommit);
  }

  lemma EmitFullHead(pre: seq<Slot>, f: First, x1: seq<Slot>)
    ensures var m := |pre| + MaybeSize(f);
            var c := pre + OpenTest(f) + [Op(IChoice), Hole] + x1 + [Op(ICommit), Hole];
            var c1 := c[m + 1 := Off(|c| - m)];
            (if f.e then c1 else c1[|pre| + 1 := Off(|c| - |pre|)]) == pre + FullHead(f, x1)
  {
    hide MaybeTest, MaybeSize, OpenTest, FullHead;
    EmitFullChoice(pre + OpenTest(f), x1);
    PatchMaybe(pre, f, [Op(IChoice), Off(4 + |x1|)] + x1 + [Op(ICommit), Hole], MaybeSize(f) + 4 + |x1|);
    FullHeadJoined(pre, f, x1);
  }

  lemma FullHeadJoined(pre: seq<Slot>, f: First, x1: seq<Slot>)
    ensures pre + FullHead(f, x1) ==
      pre + MaybeTest(f, MaybeSize(f) + 4 + |x1|) + ([Op(IChoice), Off(4 + |x1|)] + x1 + [Op(ICommit), Hole])
  {
    hide MaybeTest, MaybeSize;
  }

  lemma EmitFullChoice(front: seq<Slot>, x1: seq<Slot>)
    ensures (front + [Op(IChoice), Hole] + x1 + [Op(ICommit), Hole])[|front| + 1 := Off(4 + |x1|)]
         == front + ([Op(IChoice), Off(4 + |x1|)] + x1 + [Op(ICommit), Hole])
  {
    var commit := [Op(ICommit), Hole];
    assert front + [Op(IChoice), Hole] + x1 + commit == front + [Op(IChoice), Hole] + (x1 + commit);
    Patch(front, Op(IChoice), x1 + commit, 4 + |x1|);
  }

  lemma EmitFullEnd(pre: seq<Slot>, test: seq<Slot>, choice: seq<Slot>, x1: seq<Slot>, x2: seq<Slot>, op: Opcode)
    ensures var c := pre + test + (choice + x1 + [Op(op), Hole]) + x2;
            var q := |pre| + |test| + |choice| + |x1|;
            c[q + 1 := Off(2 + |x2|)] == pre + (test + choice + x1 + [Op(op), Off(2 + |x2|)] + x2)
  {
    var front := pre + test + choice + x1;
    assert pre + test + (choice + x1 + [Op(op), Hole]) + x2 == front + [Op(op), Hole] + x2;
    Patch(front, Op(op), x2, 2 + |x2|);
  }

  lemma EmitAnd(pre: seq<Slot>, y: seq<Slot>)
    ensures var c := pre + [Op(IChoice), Hole] + y + [Op(IBackCommit), Hole];
            var c1 := c[|pre| + 1 := Off(|c| - |pre|)] + [Op(IFail)];
            c1[|c| - 1 := Off(3)] == pre + AndChoice(y)
  {
    var back := [Op(IBackCommit), Hole];
    assert pre + [Op(IChoice), Hole] + y + back == pre + [Op(IChoice), Hole] + (y + back);
    Patch(pre, Op(IChoice), y + back, 4 + |y|);
    var front := pre + [Op(IChoice), Off(4 + |y|)] + y;
    assert pre + [Op(IChoice), Off(4 + |y|)] + (y + back) + [Op(IFail)] == front + back + [Op(IFail)];
    Patch(front, Op(IBackCommit), [Op(IFail)], 3);
  }

  lemma EmitRepTested(pre: seq<Slot>, cs: Charset, y: seq<Slot>)
    ensures var c := pre + OpenTest(First(cs, false)) + y;
            var c1 := c + [Op(IJmp), Hole];
            c1[|pre| + 1 := Off(|c1| - |pre|)][|c| + 1 := Off(|pre| - |c|)] == pre + RepTested(cs, y)
  {
    hide TestCode, TestInstr, TestTail, TestSize, MaybeSize;
    TestSizes(cs);
    var off, j0 := TestSize(cs) + |y| + 2, [Op(IJmp), Hole];
    assert pre + OpenTest(First(cs, false)) + y + j0 == pre + OpenTest(First(cs, false)) + (y + j0);
    PatchTest(pre, cs, y + j0, off);
    var front := pre + TestCode(cs, off) + y;
    assert pre + TestCode(cs, off) + (y + j0) == front + j0 + [];
    Patch(front, Op(IJmp), [], -(TestSize(cs) + |y|));
  }

  lemma EmitRepChoice(pre: seq<Slot>, f: First, opt: bool, y: seq<Slot>)
    ensures var m := |pre| + MaybeSize(f);
            var c0 := pre + OpenTest(f) + [Op(if opt then IPartialCommit else IChoice), if opt then Off(2) else Hole];
            var c1 := c0 + y;
            var c2 := (c1 + [Op(IPartialCommit), Hole])[|c1| + 1 := Off(|c0| - |c1|)];
            var c3 := if opt then c2 else c2[m + 1 := Off(|c2| - m)];
            (if f.e then c3 else c3[|pre| + 1 := Off(|c3| - |pre|)]) == pre + RepChoice(f, opt, y)
  {
    hide MaybeTest, MaybeSize, OpenTest, RepChoice;
    var front, again := pre + OpenTest(f), [Op(IPartialCommit), Off(-|y|)];
    EmitLoop(front, Op(if opt then IPartialCommit else IChoice), if opt then Off(2) else Hole, y);
    if !opt { Patch(front, Op(IChoice), y + again, 4 + |y|); }
    EmitRepTest(pre, f, opt, y);
  }

  lemma EmitRepTest(pre: seq<Slot>, f: First, opt: bool, y: seq<Slot>)
    ensures var enter := [Op(if opt then IPartialCommit else IChoice), Off(if opt then 2 else 4 + |y|)];
            var c := pre + OpenTest(f) + enter + (y + [Op(IPartialCommit), Off(-|y|)]);
            (if f.e then c else c[|pre| + 1 := Off(|c| - |pre|)]) == pre + RepChoice(f, opt, y)
  {
    hide MaybeTest, MaybeSize, OpenTest;
    var enter := [Op(if opt then IPartialCommit else IChoice), Off(if opt then 2 else 4 + |y|)];
    var again := [Op(IPartialCommit), Off(-|y|)];
    assert pre + OpenTest(f) + enter + (y + again) == pre + OpenTest(f) + (enter + (y + again));
    PatchMaybe(pre, f, enter + (y + again), MaybeSize(f) + 4 + |y|);
    var test := MaybeTest(f, MaybeSize(f) + 4 + |y|);
    assert pre + test + (enter + (y + again)) == pre + (test + enter + y + again);
  }

  lemma EmitLoop(front: seq<Slot>, o: Slot, d: Slot, y: seq<Slot>)
    ensures var c1 := front + [o, d] + y;
            (c1 + [Op(IPartialCommit), Hole])[|c1| + 1 := Off(-|y|)]
            == front + [o, d] + (y + [Op(IPartialCommit), Off(-|y|)])
  {
    Patch(front + [o, d] + y, Op(IPartialCommit), [], -|y|);
  }

  lemma EmitNotHead(pre: seq<Slot>, f: First)
    ensures var c := pre + OpenTest(f) + [Op(IFail)];
            (if f.e then c else c[|pre| + 1 := Off(|c| - |pre|)]) == pre + NotHead(f)
  {
    hide MaybeTest, MaybeSize, OpenTest;
    PatchMaybe(pre, f, [Op(IFail)], MaybeSize(f) + 1);
  }

  lemma EmitNot(pre: seq<Slot>, f: First, y: seq<Slot>)
    ensures var c := pre + OpenTest(f) + ([Op(IChoice), Off(3 + |y|)] + y + [Op(IFailTwice)]);
            (if f.e then c else c[|pre| + 1 := Off(|c| - |pre|)]) == pre + NotChoice(f, y)
  {
    hide MaybeTest, MaybeSize, OpenTest;
    PatchMaybe(pre, f, [Op(IChoice), Off(3 + |y|)] + y + [Op(IFailTwice)], MaybeSize(f) + 3 + |y|);
  }

  lemma EmitNotBody(pre: seq<Slot>, y: seq<Slot>)
    ensures var c := pre + [Op(IChoice), Hole] + y + [Op(IFailTwice)];
            c[|pre| + 1 := Off(|c| - |pre|)] == pre + ([Op(IChoice), Off(3 + |y|)] + y + [Op(IFailTwice)])
  {
    var last := [Op(IFailTwice)];
    assert pre + [Op(IChoice), Hole] + y + last == pre + [Op(IChoice), Hole] + (y + last);
    Patch(pre, Op(IChoice), y + last, 3 + |y|);
  }

  lemma NoTestAt(code: seq<Slot>)
    ensures TestAt(code, NOINST) == NoTest && TestOk(code, NOINST)
  {
  }

  /** What the code generator asks of a tree: it is one the library builds, and the searches for captures end. */
  ghost predicate Compilable(g: seq<Tree>, t: Tree) {
    Wf(g, t) && Fit(t) && SearchesEnd(g, t)
  }

  /** 'hascaptures', called where it returns. */
  method AskCaptures(g: seq<Tree>, t: Tree) returns (found: bool)
    requires Visit(g, t, {}) != Endless
    ensures found <==> HasCaptures(g, t)
  {
    ghost var d := VisitEnds(g, t, {});
    found := FindCaptures(g, t, d);
  }

  class CompileState {
    var code: seq<Slot>

    constructor ()
      ensures code == []
    {
      code := [];
    }

    method AddInstruction(op: Opcode, aux: nat, key: nat) returns (i: nat)
      modifies this
      ensures i == |old(code)| && code == old(code) + [I(op, aux, key)]
    {
      i := |code|;
      code := code + [I(op, aux, key)];
    }

    /** An instruction followed by room for its offset. */
    method AddOffsetInst(op: Opcode) returns (i: nat)
      modifies this
      ensures i == |old(code)| && code == old(code) + [Op(op), Hole]
    {
      i := |code|;
      code := code + [Op(op), Hole];
    }

    /** 'jumptothere': the instruction (if there is one) jumps to 'target'. */
    method JumpToThere(instruction: int, target: int)
      requires instruction + 1 < |code|
      modifies this
      ensures code == if instruction >= 0 then old(code)[instruction + 1 := Off(target - instruction)] else old(code)
    {
      if instruction >= 0 {
        code := code[instruction + 1 := Off(target - instruction)];
      }
    }

    method JumpToHere(instruction: int)
      requires instruction + 1 < |code| || instruction < 0
      modifies this
      ensures code ==
        if instruction >= 0 then old(code)[instruction + 1 := Off(|old(code)| - instruction)] else old(code)
    {
      if instruction >= 0 {
        JumpToThere(instruction, |code|);
      }
    }

    method CodeChar(c: Byte, tt: int)
      requires TestOk(code, tt)
      modifies this
      ensures code == old(code) + CharCode(c, TestAt(old(code), tt))
    {
      if tt >= 0 && IsOp(code, tt, ITestChar) && code[tt].aux == c {
        var _ := AddInstruction(IAny, 0, 0);
      } else {
        var _ := AddInstruction(IChar, c, 0);
      }
    }

    method AddCharset(cs: Charset)
      modifies this
      ensures code == old(code) + SetBuf(cs)
    {
      code := code + SetBuf(cs);
    }

    method CodeCharset(cs: Charset, tt: int)
      requires TestOk(code, tt)
      modifies this
      ensures code == old(code) + CharsetCode(cs, TestAt(old(code), tt))
    {
      match CharsetType(cs)
      case Singleton(c) => CodeChar(c, tt);
      case OtherSet =>
        if tt >= 0 && IsOp(code, tt, ITestSet) && code[tt + 2] == Buf(cs) {
          var _ := AddInstruction(IAny, 0, 0);
        } else {
          var _ := AddInstruction(ISet, 0, 0);
          AddCharset(cs);
        }
      case EmptySet => var _ := AddInstruction(IFail, 0, 0);
      case FullSet => var _ := AddInstruction(IAny, 0, 0);
    }

    /** A test of the set, with its offset still open; no test when the empty subject is accepted. */
    method CodeTestSet(cs: Charset, e: bool) returns (tt: int)
      modifies this
      ensures code == old(code) + OpenTest(First(cs, e))
      ensures tt == if e then NOINST else |old(code)|
      ensures TestOk(code, tt) && TestAt(code, tt) == MaybeInfo(First(cs, e))
    {
      ghost var pre := code;
      if e {
        tt := NOINST;
      } else {
        match CharsetType(cs) {
          case EmptySet => tt := AddOffsetInst(IJmp);
          case FullSet => tt := AddOffsetInst(ITestAny);
          case Singleton(c) =>
            tt := AddOffsetInst(ITestChar);
            code := code[tt := I(ITestChar, c, 0)];
          case OtherSet =>
            tt := AddOffsetInst(ITestSet);
            AddCharset(cs);
        }
        TestAtEnd(pre, cs);
      }
    }

    // ----- code generation proper -----

    method CodeGen(g: seq<Tree>, t: Tree, opt: bool, tt: int, fl: Charset)
      requires Compilable(g, t) && TestOk(code, tt)
      modifies this
      ensures code == old(code) + Gen(g, t, opt, TestAt(old(code), tt), fl, true)
      decreases t, 3
    {
      hide GetFirst, HeadFail, CheckAux, FixedLenX, HasCaptures, TestAt, ChoiceByTest, ChoiceTested, ChoicePartial;
      hide ChoiceFull;
      hide RepByTest, RepTested, RepChoice, RepSpan, NotHead, NotChoice, AndByBehind, AndChoice, CaptureByLen;
      hide CaptureFull;
      hide CaptureOpen, SeqFollow, SeqTest, TestInfo, MaybeInfo, CorrectCalls, Positions, RulesCode;
      match t
      case TChar(c) => CodeChar(c, tt);
      case TAny => var _ := AddInstruction(IAny, 0, 0);
      case TSet(cs) => CodeCharset(cs, tt);
      case TTrue =>
      case TFalse => var _ := AddInstruction(IFail, 0, 0);
      case TChoice(p1, p2) => CodeChoice(g, p1, p2, opt, fl);
      case TRep(p) => CodeRep(g, p, opt, fl);
      case TBehind(n, p) => CodeBehind(g, n, p);
      case TNot(p) => CodeNot(g, p);
      case TAnd(p) => CodeAnd(g, p, tt);
      case TCapture(kind, key, p) => CodeCapture(g, kind, key, p, tt, fl);
      case TGrammar(rules) => CodeGrammar(rules);
      case TCall(k) => CodeCall(k);
      case TSeq(p1, p2) =>
        var tt2 := CodeSeq1(g, p1, p2, tt, fl);
        CodeGen(g, p2, opt, tt2, fl);
    }

    /** The call of a rule, to be corrected once the rules have their places. */
    method CodeCall(k: nat)
      modifies this
      ensures code == old(code) + [I(IOpenCall, 0, k % RULENUMBERS), Hole]
    {
      var c := AddOffsetInst(IOpenCall);
      code := code[c := I(IOpenCall, 0, k % RULENUMBERS)];
    }

    /** First child of a sequence; the result is the test that still protects the second one. */
    method CodeSeq1(g: seq<Tree>, p1: Tree, p2: Tree, tt: int, fl: Charset) returns (tt2: int)
      requires Compilable(g, p1) && TestOk(code, tt)
      modifies this
      ensures code == old(code) + Gen(g, p1, false, TestAt(old(code), tt), SeqFollow(g, p1, p2, fl), true)
      ensures TestOk(code, tt2) && TestAt(code, tt2) == SeqTest(g, p1, TestAt(old(code), tt))
      decreases p1, 5
    {
      hide Gen, GetFirst, FixedLenX;
      ghost var pre := code;
      var fl1 := if NeedFollow(p1) then GetFirst(g, p2, fl, DEPTH).cs else FULL;
      CodeGen(g, p1, false, tt, fl1);
      TestAtKept(pre, Gen(g, p1, false, TestAt(pre, tt), fl1, true), tt);
      tt2 := if FixedLen(g, p1) != 0 then NOINST else tt;
    }

    method CodeBehind(g: seq<Tree>, n: nat, p: Tree)
      requires Compilable(g, p)
      modifies this
      ensures code == old(code) + (BehindIf(n) + Gen(g, p, false, NoTest, FULL, true))
      decreases p, 5
    {
      hide Gen;
      if n > 0 {
        var _ := AddInstruction(IBehind, n, 0);
      }
      CodeGen(g, p, false, NOINST, FULL);
    }

    method CodeChoice(g: seq<Tree>, p1: Tree, p2: Tree, opt: bool, fl: Charset)
      requires Compilable(g, p1) && Compilable(g, p2)
      modifies this
      ensures code == old(code) + Gen(g, TChoice(p1, p2), opt, NoTest, fl, true)
      decreases TChoice(p1, p2), 2
    {
      hide Gen, Compilable, GetFirst, HeadFail, TestInfo, MaybeInfo, ChoiceByTest, ChoiceTested, ChoiceFull;
      hide ChoicePartial;
      ChoiceUnfolds(g, p1, p2, opt, fl);
      var f1 := GetFirst(g, p1, FULL, DEPTH);
      if ChoiceByTest(g, p1, p2, fl) {
        CodeChoiceTested(g, p1, p2, opt, fl, f1);
      } else if opt && p2.TTrue? {
        CodeChoicePartial(g, p1);
      } else {
        CodeChoiceFull(g, p1, p2, opt, fl, f1);
      }
    }

    method CodeChoiceTested(g: seq<Tree>, p1: Tree, p2: Tree, opt: bool, fl: Charset, f1: First)
      requires Compilable(g, p1) && Compilable(g, p2)
      modifies this
      ensures code == old(code) + ChoiceTested(f1.cs, Gen(g, p1, false, TestInfo(f1.cs), fl, true),
                                               Gen(g, p2, opt, NoTest, fl, true), p2.TTrue?)
      decreases TChoice(p1, p2), 1
    {
      hide Gen, TestInfo, ChoiceTested, OpenTest, TestAt, MaybeSize, Compilable;
      ghost var pre := code;
      TestSizes(f1.cs);
      var test := CodeTestSet(f1.cs, false);
      CodeGen(g, p1, false, test, fl);
      var jmp := NOINST;
      if !p2.TTrue? {
        jmp := AddOffsetInst(IJmp);
      }
      JumpToHere(test);
      NoTestAt(code);
      CodeGen(g, p2, opt, NOINST, fl);
      JumpToHere(jmp);
      if p2.TTrue? { TrueCode(g, p2, opt, fl); }
      EmitTested(pre, f1.cs, Gen(g, p1, false, TestInfo(f1.cs), fl, true), Gen(g, p2, opt, NoTest, fl, true),
                 p2.TTrue?);
    }

    method CodeChoicePartial(g: seq<Tree>, p1: Tree)
      requires Compilable(g, p1)
      modifies this
      ensures code == old(code) + ChoicePartial(Gen(g, p1, true, NoTest, FULL, true))
      decreases p1, 5
    {
      hide Gen;
      ghost var pre := code;
      var i := AddOffsetInst(IPartialCommit);
      JumpToHere(i);
      Patch(pre, Op(IPartialCommit), [], 2);
      CodeGen(g, p1, true, NOINST, FULL);
    }

    method CodeChoiceFull(g: seq<Tree>, p1: Tree, p2: Tree, opt: bool, fl: Charset, f1: First)
      requires Compilable(g, p1) && Compilable(g, p2)
      modifies this
      ensures code == old(code) + ChoiceFull(f1, Gen(g, p1, p2.TTrue?, MaybeInfo(f1), FULL, true),
                                             Gen(g, p2, opt, NoTest, fl, true))
      decreases TChoice(p1, p2), 1
    {
      hide Gen, MaybeInfo, MaybeTest, ChoiceFull, TestAt, MaybeSize, Compilable;
      ghost var pre := code;
      var pcommit := CodeChoiceHead(g, p1, p2.TTrue?, f1);
      NoTestAt(code);
      CodeGen(g, p2, opt, NOINST, fl);
      JumpToHere(pcommit);
      EmitFull(pre, f1, Gen(g, p1, p2.TTrue?, MaybeInfo(f1), FULL, true), Gen(g, p2, opt, NoTest, fl, true));
    }

    /** Everything up to the second alternative, with the offset of the commit open. */
    method CodeChoiceHead(g: seq<Tree>, p1: Tree, opt: bool, f1: First) returns (pcommit: nat)
      requires Compilable(g, p1)
      modifies this
      ensures var x1 := Gen(g, p1, opt, MaybeInfo(f1), FULL, true);
        && code == old(code) + FullHead(f1, x1) && pcommit == |code| - 2
      decreases p1, 6
    {
      hide Gen, MaybeInfo, OpenTest, FullHead, MaybeSize, Compilable;
      ghost var pre := code;
      var test, pchoice;
      test, pchoice, pcommit := CodeChoiceFirst(g, p1, opt, f1);
      JumpToHere(pchoice);
      JumpToHere(test);
      EmitFullHead(pre, f1, Gen(g, p1, opt, MaybeInfo(f1), FULL, true));
    }

    /** The test, the choice, the first alternative and its commit, with all offsets open. */
    method CodeChoiceFirst(g: seq<Tree>, p1: Tree, opt: bool, f1: First) returns (test: int, pchoice: nat, pcommit: nat)
      requires Compilable(g, p1)
      modifies this
      ensures code == old(code) + OpenTest(f1) + [Op(IChoice), Hole] + Gen(g, p1, opt, MaybeInfo(f1), FULL, true)
                    + [Op(ICommit), Hole]
      ensures test == if f1.e then NOINST else |old(code)|
      ensures pchoice == |old(code)| + MaybeSize(f1) && pcommit == |code| - 2
      decreases p1, 5
    {
      hide Gen, MaybeInfo, OpenTest, TestAt, MaybeSize, Compilable;
      test := CodeTestSet(f1.cs, f1.e);
      TestAtKept(code, [Op(IChoice), Hole], test);
      pchoice := AddOffsetInst(IChoice);
      CodeGen(g, p1, opt, test, FULL);
      pcommit := AddOffsetInst(ICommit);
    }

    method CodeAnd(g: seq<Tree>, p: Tree, tt: int)
      requires Compilable(g, p) && TestOk(code, tt)
      requires 0 <= FixedLen(g, p) <= MAXBEHIND ==> Visit(g, p, {}) != Endless
      modifies this
      ensures code == old(code) + Gen(g, TAnd(p), false, TestAt(old(code), tt), FULL, true)
      decreases p, 5
    {
      hide FixedLenX, HasCaptures, TestAt, AndChoice;
      var n := FixedLen(g, p);
      var plain := false;
      if 0 <= n <= MAXBEHIND {
        var found := AskCaptures(g, p);
        plain := !found;
      }
      if plain {
        CodeGen(g, p, false, tt, FULL);
        if n > 0 {
          var _ := AddInstruction(IBehind, n, 0);
        }
      } else {
        CodeAndChoice(g, p, tt);
      }
    }

    method CodeAndChoice(g: seq<Tree>, p: Tree, tt: int)
      requires Compilable(g, p) && TestOk(code, tt)
      modifies this
      ensures code == old(code) + AndChoice(Gen(g, p, false, TestAt(old(code), tt), FULL, true))
      decreases p, 4
    {
      hide Gen, TestAt, AndChoice;
      ghost var pre, tt0 := code, TestAt(code, tt);
      TestAtKept(pre, [Op(IChoice), Hole], tt);
      var pchoice := AddOffsetInst(IChoice);
      CodeGen(g, p, false, tt, FULL);
      var pcommit := AddOffsetInst(IBackCommit);
      JumpToHere(pchoice);
      var _ := AddInstruction(IFail, 0, 0);
      JumpToHere(pcommit);
      EmitAnd(pre, Gen(g, p, false, tt0, FULL, true));
    }

    method CodeCapture(g: seq<Tree>, kind: nat, key: nat, p: Tree, tt: int, fl: Charset)
      requires Compilable(g, p) && TestOk(code, tt)
      requires 0 <= FixedLen(g, p) <= MAXOFF ==> Visit(g, p, {}) != Endless
      modifies this
      ensures code == old(code) + Gen(g, TCapture(kind, key, p), false, TestAt(old(code), tt), fl, true)
      decreases p, 5
    {
      hide FixedLenX, HasCaptures, TestAt;
      var len := FixedLen(g, p);
      var plain := false;
      if 0 <= len <= MAXOFF {
        var found := AskCaptures(g, p);
        plain := !found;
      }
      if plain {
        CodeGen(g, p, false, tt, fl);
        var _ := AddInstruction(IFullCapture, JoinKindOff(kind, len), key);
      } else {
        CodeCaptureOpen(g, kind, key, p, tt, fl);
      }
    }

    method CodeCaptureOpen(g: seq<Tree>, kind: nat, key: nat, p: Tree, tt: int, fl: Charset)
      requires Compilable(g, p) && TestOk(code, tt)
      modifies this
      ensures code == old(code) + CaptureOpen(kind, key, Gen(g, p, false, TestAt(old(code), tt), fl, true))
      decreases p, 4
    {
      hide Gen, TestAt;
      ghost var pre := code;
      var _ := AddInstruction(IOpenCapture, JoinKindOff(kind, 0), key);
      TestAtKept(pre, [I(IOpenCapture, JoinKindOff(kind, 0), key)], tt);
      CodeGen(g, p, false, tt, fl);
      var _ := AddInstruction(ICloseCapture, JoinKindOff(CCLOSE, 0), 0);
    }

    method CodeRep(g: seq<Tree>, p: Tree, opt: bool, fl: Charset)
      requires Compilable(g, p)
      modifies this
      ensures code == old(code) + Gen(g, TRep(p), opt, NoTest, fl, true)
      decreases TRep(p), 2
    {
      hide GetFirst, HeadFail, RepTested, RepChoice;
      if IsCharset(p) {
        var _ := AddInstruction(ISpan, 0, 0);
        AddCharset(ToCharset(p));
      } else {
        var f := GetFirst(g, p, FULL, DEPTH);
        if HeadFail(g, p, DEPTH) || (!f.e && f.cs !! fl) {
          CodeRepTested(g, p, opt, f);
        } else {
          CodeRepChoice(g, p, opt, f);
        }
      }
    }

    method CodeRepTested(g: seq<Tree>, p: Tree, opt: bool, f: First)
      requires Compilable(g, p)
      modifies this
      ensures code == old(code) + RepTested(f.cs, Gen(g, p, opt, TestInfo(f.cs), FULL, true))
      decreases p, 5
    {
      hide Gen, TestInfo, OpenTest, RepTested;
      ghost var pre := code;
      TestSizes(f.cs);
      var test := CodeTestSet(f.cs, false);
      CodeGen(g, p, opt, test, FULL);
      var jmp := AddOffsetInst(IJmp);
      JumpToHere(test);
      JumpToThere(jmp, test);
      EmitRepTested(pre, f.cs, Gen(g, p, opt, TestInfo(f.cs), FULL, true));
    }

    /** The start of a loop: renews the enclosing choice or makes one, to be completed later. */
    method CodeRepEnter(opt: bool) returns (pchoice: int)
      modifies this
      ensures code == old(code) + [Op(if opt then IPartialCommit else IChoice), if opt then Off(2) else Hole]
      ensures pchoice == if opt then NOINST else |old(code)|
    {
      pchoice := NOINST;
      if opt {
        var i := AddOffsetInst(IPartialCommit);
        JumpToHere(i);
      } else {
        pchoice := AddOffsetInst(IChoice);
      }
    }

    method CodeRepChoice(g: seq<Tree>, p: Tree, opt: bool, f: First)
      requires Compilable(g, p)
      modifies this
      ensures code == old(code) + RepChoice(f, opt, Gen(g, p, false, NoTest, FULL, true))
      decreases p, 5
    {
      hide Gen, MaybeInfo, OpenTest, RepChoice, MaybeSize, Compilable, TestAt, TestOk;
      ghost var pre := code;
      var test := CodeTestSet(f.cs, f.e);
      var pchoice := CodeRepEnter(opt);
      var l2 := |code|;
      NoTestAt(code);
      CodeGen(g, p, false, NOINST, FULL);
      var commit := AddOffsetInst(IPartialCommit);
      JumpToThere(commit, l2);
      JumpToHere(pchoice);
      JumpToHere(test);
      EmitRepChoice(pre, f, opt, Gen(g, p, false, NoTest, FULL, true));
    }

    method CodeNot(g: seq<Tree>, p: Tree)
      requires Compilable(g, p)
      modifies this
      ensures code == old(code) + Gen(g, TNot(p), false, NoTest, FULL, true)
      decreases p, 5
    {
      hide Gen, Compilable, TestAt, GetFirst, HeadFail, OpenTest, NotHead, NotChoice, MaybeSize;
      NotUnfolds(g, p);
      ghost var pre := code;
      var f := GetFirst(g, p, FULL, DEPTH);
      var test := CodeTestSet(f.cs, f.e);
      if HeadFail(g, p, DEPTH) {
        var _ := AddInstruction(IFail, 0, 0);
        JumpToHere(test);
        EmitNotHead(pre, f);
      } else {
        CodeNotBody(g, p);
        JumpToHere(test);
        EmitNot(pre, f, Gen(g, p, false, NoTest, FULL, true));
      }
    }

    method CodeNotBody(g: seq<Tree>, p: Tree)
      requires Compilable(g, p)
      modifies this
      ensures var y := Gen(g, p, false, NoTest, FULL, true);
              code == old(code) + ([Op(IChoice), Off(3 + |y|)] + y + [Op(IFailTwice)])
      decreases p, 4
    {
      hide Gen;
      ghost var pre, y := code, Gen(g, p, false, NoTest, FULL, true);
      var pchoice := AddOffsetInst(IChoice);
      CodeGen(g, p, false, NOINST, FULL);
      var _ := AddInstruction(IFailTwice, 0, 0);
      JumpToHere(pchoice);
      EmitNotBody(pre, y);
    }

    /** 'codegrammar': call L1; jmp L2; L1: rule 1; ret; rule 2; ret; ...; L2: */
    method CodeGrammar(rules: seq<Tree>)
      requires Accepted(rules) && forall k :: 0 <= k < |rules| ==> Compilable(rules, rules[k])
      modifies this
      ensures code == old(code) + Gen([], TGrammar(rules), false, NoTest, FULL, true)
      decreases TGrammar(rules), 2
    {
      hide Compilable, Accepted, Tidy, Gen, RulesCode, Positions, CorrectCalls, NoCircle;
      ghost var pre := code;
      var firstcall := AddOffsetInst(ICall);
      var jumptoend := AddOffsetInst(IJmp);
      var start := |code|;
      assert code == pre + [Op(ICall), Hole] + [Op(IJmp), Hole];
      Patch(pre, Op(ICall), [Op(IJmp), Hole], 4);
      JumpToHere(firstcall);
      var positions := CodeRules(rules);
      ghost var body := RulesCode(rules, rules, true);
      Patch(pre + [Op(ICall), Off(4)], Op(IJmp), body, 2 + |body|);
      JumpToHere(jumptoend);
      GrammarLinks(rules, pre, start, code, positions);
      GrammarCircles(rules);
      FixCalls(positions, start);
      GrammarCode(rules, pre);
    }

    /** The loop of 'codegrammar': the code of all rules, and where each one starts. */
    method CodeRules(rules: seq<Tree>) returns (positions: seq<nat>)
      requires forall k :: 0 <= k < |rules| ==> Compilable(rules, rules[k])
      modifies this
      ensures code == old(code) + RulesCode(rules, rules, true)
      ensures positions == Positions(rules, rules, |old(code)|, true)
      decreases TGrammar(rules), 1
    {
      hide Compilable, Gen;
      ghost var pre := code;
      positions := [];
      var k := 0;
      assert rules[..0] == [];
      while k < |rules|
        invariant k <= |rules|
        invariant code == pre + RulesCode(rules, rules[..k], true)
        invariant positions == Positions(rules, rules[..k], |pre|, true)
      {
        RulesSnoc(rules, rules[..k], rules[k], |pre|);
        assert rules[..k] + [rules[k]] == rules[..k + 1];
        positions := positions + [|code|];
        CodeRule(rules, k);
        k := k + 1;
      }
      assert rules[..k] == rules;
    }

    method CodeRule(rules: seq<Tree>, k: nat)
      requires k < |rules| && Compilable(rules, rules[k])
      modifies this
      ensures code == old(code) + RuleCode(rules, rules[k], true)
      decreases rules[k], 5
    {
      hide Gen, Compilable;
      CodeGen(rules, rules[k], false, NOINST, FULL);
      var _ := AddInstruction(IRet, 0, 0);
    }

    /** 'correctcalls' on the code from 'from' on; 'positions' holds the addresses of the rules. */
    method FixCalls(positions: seq<nat>, from: nat)
      requires from <= |code| && Tidy(code[from..], |positions|)
      requires forall j :: 0 <= j < |positions| ==> from <= positions[j] <= |code|
      requires NoCircle(CorrectCalls(code[from..], Relative(positions, from), 0))
      modifies this
      ensures code == old(code)[..from] + CorrectCalls(old(code)[from..], Relative(positions, from), 0)
    {
      hide Tidy, CorrectOne, NoCircle;
      ghost var pre, body, pos := code[..from], code[from..], Relative(positions, from);
      var i := from;
      while i < |code|
        invariant from <= i && |code| == |old(code)| && code[..from] == pre
        invariant Tidy(code[from..], |positions|)
        invariant CorrectCalls(code[from..], pos, i - from) == CorrectCalls(body, pos, 0)
      {
        assert code[i] == code[from..][i - from];
        if IsOp(code, i, IOpenCall) {
          TidyCorrectOne(code[from..], pos, i - from);
          CorrectingNoCircle(code[from..], pos, i - from);
          FixCall(i, positions, from);
          i := i + 2;
        } else {
          i := i + if code[i].I? then SizeOf(code[i].op) else 1;
        }
      }
      assert code == code[..from] + code[from..];
    }

    /** One open call becomes a call, or a jump if what follows it only returns. */
    method FixCall(i: nat, positions: seq<nat>, from: nat)
      requires from <= i && IsOp(code, i, IOpenCall) && Tidy(code[from..], |positions|)
      requires forall j :: 0 <= j < |positions| ==> from <= positions[j] <= |code|
      requires i + 1 < |code| && code[i].key < |positions| && NoCircle(code[from..])
      modifies this
      ensures |code| == |old(code)| && code[..from] == old(code)[..from]
      ensures code[from..] == CorrectOne(old(code)[from..], Relative(positions, from), i - from)
    {
      hide Tidy, CorrectOne, FinalTarget, NoCircle, Circles;
      FixCallEffect(code, i, positions, from);
      var ft := FindTarget(code, i + 2);
      var op := if IsOp(code, ft, IRet) then IJmp else ICall;
      var rule := positions[code[i].key];
      code := code[i := code[i].(op := op)];
      JumpToThere(i, rule);
    }

    /** 'peephole'. */
    method ThreadJumps()
      requires NoCircle(code)
      modifies this
      ensures code == PeepFrom(old(code), 0)
    {
      hide NoCircle;
      var i := 0;
      while i < |code|
        invariant |code| == |old(code)| && NoCircle(code)
        invariant PeepFrom(code, i) == PeepFrom(old(code), 0)
        decreases |code| - i
      {
        PeepNoCircle(code, i);
        PeepInstruction(i);
        i := i + if code[i].I? then SizeOf(code[i].op) else 1;
      }
    }

    method PeepInstruction(i: nat)
      requires i < |code| && NoCircle(code)
      modifies this
      ensures code == PeepAt(old(code), i)
    {
      hide FinalTarget, Circles;
      if code[i].I? && HasOffset(code[i].op) && code[i].op != IOpenCall && OffAt(code, i + 1) {
        if code[i].op != IJmp {
          var l := FindTarget(code, i + code[i + 1].offset);
          JumpToThere(i, l);
        } else {
          var ft := FindTarget(code, i);
          if At(code, ft) && code[ft].I? && IsFinal(code[ft].op) {
            code := code[i := code[ft]];
            code := code[i + 1 := Op(IAny)];
          } else if At(code, ft) && code[ft].I? && IsCommit(code[ft].op) && OffAt(code, ft + 1) {
            CopyNoCircle(code, i);
            var fft := FindTarget(code, ft + code[ft + 1].offset);
            code := code[i := code[ft]];
            JumpToThere(i, fft);
            var l := FindTarget(code, i + code[i + 1].offset);
            JumpToThere(i, l);
          } else {
            JumpToThere(i, ft);
          }
        }
      }
    }
  }

  /** Addresses relative to 'from'. */
  function Relative(positions: seq<nat>, from: nat): (pos: seq<nat>)
    requires forall j :: 0 <= j < |positions| ==> from <= positions[j]
    ensures |pos| == |positions| && forall j :: 0 <= j < |pos| ==> pos[j] == positions[j] - from
  {
    seq(|positions|, j requires 0 <= j < |positions| => positions[j] - from)
  }

  /** In tidy code at the end of the program, jumps stay where they are. */
  lemma {:induction false} TargetShift(pre: seq<Slot>, cur: seq<Slot>, k: int, h: nat, m: nat)
    requires Tidy(cur, m) && 0 <= k
    ensures FinalTarget(pre + cur, |pre| + k, h) == |pre| + FinalTarget(cur, k, h)
    ensures 0 <= FinalTarget(cur, k, h)
    decreases h
  {
    var z := pre + cur;
    if At(cur, k) { assert TidyAt(cur, k, 0, |cur|, m) && z[|pre| + k] == cur[k]; }
    if At(cur, k + 1) { assert z[|pre| + k + 1] == cur[k + 1]; }
    if h > 0 && IsOp(cur, k, IJmp) && OffAt(cur, k + 1) {
      TargetShift(pre, cur, k + cur[k + 1].offset, h - 1, m);
    }
  }

  lemma TailTest(pre: seq<Slot>, cur: seq<Slot>, k: int)
    requires 0 <= k
    ensures IsOp(pre + cur, |pre| + k, IRet) == IsOp(cur, k, IRet)
  {
    if At(cur, k) { assert (pre + cur)[|pre| + k] == cur[k]; }
  }

  /** Where the search ends in the last part of the code, it ends in all of it. */
  lemma TargetAbove(pre: seq<Slot>, cur: seq<Slot>, k: nat)
    requires NoCircle(cur) && FinalTarget(pre + cur, |pre| + k, |cur|) == |pre| + FinalTarget(cur, k, |cur|)
    requires 0 <= FinalTarget(cur, k, |cur|)
    ensures !Circles(pre + cur, |pre| + k)
    ensures FinalTarget(pre + cur, |pre| + k, |pre + cur|) == FinalTarget(pre + cur, |pre| + k, |cur|)
  {
    hide Circles, FinalTarget;
    TargetIsFinal(cur, k, |cur|);
    NoJumpAbove(pre, cur, FinalTarget(cur, k, |cur|));
    if Circles(pre + cur, |pre| + k) { CircleNeverStops(pre + cur, |pre| + k, |cur|); }
    MoreHops(pre + cur, |pre| + k, |cur|, |pre + cur|);
  }

  lemma NoJumpAbove(pre: seq<Slot>, cur: seq<Slot>, k: nat)
    requires !IsJump(cur, k)
    ensures !IsJump(pre + cur, |pre| + k)
  {
    if At(cur, k) { assert (pre + cur)[|pre| + k] == cur[k]; }
    if At(cur, k + 1) { assert (pre + cur)[|pre| + k + 1] == cur[k + 1]; }
  }

  lemma GrammarCircles(rules: seq<Tree>)
    requires Accepted(rules) && forall k :: 0 <= k < |rules| ==> Compilable(rules, rules[k])
    ensures NoCircle(CorrectCalls(RulesCode(rules, rules, true), Positions(rules, rules, 0, true), 0))
  {
    hide Accepted, Wf, Fit, SearchesEnd, NoLoop, CorrectCalls, RulesCode, Positions;
    RulesCorrected(rules);
    NoLoopNoCircle(CorrectCalls(RulesCode(rules, rules, true), Positions(rules, rules, 0, true), 0));
  }

  /** The search for the return behind a call gives the same answer in all of the code as in its last part. */
  lemma SameReturn(pre: seq<Slot>, cur: seq<Slot>, k: nat, m: nat)
    requires Tidy(cur, m) && NoCircle(cur)
    ensures !Circles(pre + cur, |pre| + k)
    ensures IsOp(pre + cur, FinalTarget(pre + cur, |pre| + k, |pre + cur|), IRet)
         == IsOp(cur, FinalTarget(cur, k, |cur|), IRet)
  {
    hide Tidy, FinalTarget, Circles, NoCircle, IsOp;
    TargetShift(pre, cur, k, |cur|, m);
    TailTest(pre, cur, FinalTarget(cur, k, |cur|));
    TargetAbove(pre, cur, k);
  }

  lemma FixCallEffect(code: seq<Slot>, i: nat, positions: seq<nat>, from: nat)
    requires from <= i && IsOp(code, i, IOpenCall) && Tidy(code[from..], |positions|)
    requires forall j :: 0 <= j < |positions| ==> from <= positions[j] <= |code|
    requires i + 1 < |code| && code[i].key < |positions| && NoCircle(code[from..])
    ensures !Circles(code, i + 2)
    ensures var op := if IsOp(code, FinalTarget(code, i + 2, |code|), IRet) then IJmp else ICall;
            var code' := code[i := code[i].(op := op)][i + 1 := Off(positions[code[i].key] - i)];
            && code'[..from] == code[..from]
            && code'[from..] == CorrectOne(code[from..], Relative(positions, from), i - from)
  {
    hide Tidy, CorrectOne, FinalTarget, Circles, NoCircle, Relative;
    var pre, cur := code[..from], code[from..];
    assert code == pre + cur && cur[i - from] == code[i];
    SameReturn(pre, cur, i - from + 2, |positions|);
    PatchedCall(pre, cur, positions, i - from);
  }

  /** The call as it is patched in the whole code. */
  lemma PatchedCall(pre: seq<Slot>, cur: seq<Slot>, positions: seq<nat>, k: nat)
    requires IsOp(cur, k, IOpenCall) && k + 1 < |cur| && cur[k].key < |positions|
    requires forall j :: 0 <= j < |positions| ==> |pre| <= positions[j]
    ensures var op := if IsOp(cur, FinalTarget(cur, k + 2, |cur|), IRet) then IJmp else ICall;
            var z, i := pre + cur, |pre| + k;
            var z' := z[i := z[i].(op := op)][i + 1 := Off(positions[cur[k].key] - i)];
            z'[..|pre|] == pre && z'[|pre|..] == CorrectOne(cur, Relative(positions, |pre|), k)
  {
    hide CorrectOne, FinalTarget;
    var op := if IsOp(cur, FinalTarget(cur, k + 2, |cur|), IRet) then IJmp else ICall;
    CorrectShift(pre, cur, Relative(positions, |pre|), k, op);
    SplitBack(pre, CorrectOne(cur, Relative(positions, |pre|), k));
  }

  lemma SplitBack(pre: seq<Slot>, x: seq<Slot>)
    ensures (pre + x)[..|pre|] == pre && (pre + x)[|pre|..] == x
  {
  }

  lemma CorrectShift(pre: seq<Slot>, cur: seq<Slot>, pos: seq<nat>, k: nat, op: Opcode)
    requires IsOp(cur, k, IOpenCall) && k + 1 < |cur| && cur[k].key < |pos|
    requires op == if IsOp(cur, FinalTarget(cur, k + 2, |cur|), IRet) then IJmp else ICall
    ensures var z := pre + cur;
            z[|pre| + k := z[|pre| + k].(op := op)][|pre| + k + 1 := Off(|pre| + pos[cur[k].key] - (|pre| + k))]
            == pre + CorrectOne(cur, pos, k)
  {
    var z := pre + cur;
    assert z[|pre| + k] == cur[k];
  }

  lemma {:induction false} RulesSnoc(g: seq<Tree>, rs: seq<Tree>, r: Tree, from: nat)
    ensures RulesCode(g, rs + [r], true) == RulesCode(g, rs, true) + RuleCode(g, r, true)
    ensures Positions(g, rs + [r], from, true) == Positions(g, rs, from, true) + [from + |RulesCode(g, rs, true)|]
    decreases rs
  {
    hide Gen;
    if rs == [] {
      assert [] + [r] == [r];
      assert [r][1..] == [];
    } else {
      RulesSnoc(g, rs[1..], r, from + |RuleCode(g, rs[0], true)|);
      assert (rs + [r])[1..] == rs[1..] + [r];
    }
  }

  lemma {:induction false} PositionsShift(g: seq<Tree>, rs: seq<Tree>, from: nat, start: nat)
    ensures forall j :: 0 <= j < |rs| ==>
      Positions(g, rs, start + from, true)[j] == Positions(g, rs, from, true)[j] + start
    decreases rs
  {
    hide Gen;
    if rs != [] {
      var size := |RuleCode(g, rs[0], true)|;
      PositionsShift(g, rs[1..], from + size, start);
      assert start + from + size == start + (from + size);
    }
  }

  /** The code of the rules is ready for 'correctcalls'. */
  lemma GrammarLinks(rules: seq<Tree>, pre: seq<Slot>, start: nat, code: seq<Slot>, positions: seq<nat>)
    requires forall k :: 0 <= k < |rules| ==> Compilable(rules, rules[k])
    requires start == |pre| + 4
    requires var body := RulesCode(rules, rules, true);
             code == pre + [Op(ICall), Off(4)] + [Op(IJmp), Off(2 + |body|)] + body
    requires positions == Positions(rules, rules, start, true)
    ensures start <= |code| && Tidy(code[start..], |positions|) && code[start..] == RulesCode(rules, rules, true)
    ensures forall j :: 0 <= j < |positions| ==> start <= positions[j] <= |code|
    ensures Relative(positions, start) == Positions(rules, rules, 0, true)
    ensures code[..start] == pre + [Op(ICall), Off(4), Op(IJmp), Off(2 + |RulesCode(rules, rules, true)|)]
  {
    hide Wf, Tidy, RulesCode;
    RulesTidy(rules, rules, true);
    PositionsInside(rules, rules, start, true);
    PositionsShift(rules, rules, 0, start);
  }

  lemma GrammarCode(rules: seq<Tree>, pre: seq<Slot>)
    ensures var body, pos := RulesCode(rules, rules, true), Positions(rules, rules, 0, true);
            pre + [Op(ICall), Off(4), Op(IJmp), Off(2 + |body|)] + CorrectCalls(body, pos, 0)
            == pre + Gen([], TGrammar(rules), false, NoTest, FULL, true)
  {
    hide CorrectCalls, RulesCode, Positions;
  }

  /** The code 'compile' leaves in a pattern. */
  function Compiled(t: Tree): seq<Slot> {
    PeepFrom(Program(t, true), 0)
  }

  /** 'compile'. */
  method Compile(t: Tree) returns (p: seq<Slot>)
    requires Compilable([], t)
    ensures p == Compiled(t)
  {
    hide Gen, PeepFrom, Wf, Fit, SearchesEnd, NoCircle;
    ProgramNoCircle(t);
    var state := new CompileState();
    state.CodeGen([], t, false, NOINST, FULL);
    var _ := state.AddInstruction(IEnd, 0, 0);
    assert [] + Gen([], t, false, NoTest, FULL, true) + [Op(IEnd)] == Program(t, true);
    state.ThreadJumps();
    p := state.code;
  }
}
