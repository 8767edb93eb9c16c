/** Structure of generated code: instructions are followed by their operands, and every offset stays
    inside the code of its pattern. */
module Tidiness {
  import opened PegTree
  import opened Analysis
  import opened Vm
  import opened Layout
  import opened Code

  /** The instruction at j (if any) has its operands, and its label lies in lo..hi; m rules can be called. */
  ghost predicate TidyAt(x: seq<Slot>, j: nat, lo: int, hi: int, m: nat)
    requires j < |x|
  {
    x[j].I? ==>
      var op := x[j].op;
      && j + SizeOf(op) <= |x|
      && (forall k :: j < k < j + SizeOf(op) ==> !x[k].I?)
      && (op == IOpenCall ==> x[j + 1] == Hole && x[j].key < m && x[j].aux == 0)
      && (HasOffset(op) && op != IOpenCall ==> x[j + 1].Off? && lo <= j + x[j + 1].offset <= hi)
      && (op == ISet || op == ISpan ==> x[j + 1].Buf?)
      && (op == ITestSet ==> x[j + 2].Buf?)
  }

  ghost predicate TidyIn(x: seq<Slot>, lo: int, hi: int, m: nat) {
    forall j :: 0 <= j < |x| ==> TidyAt(x, j, lo, hi, m)
  }

  ghost predicate Tidy(x: seq<Slot>, m: nat) {
    TidyIn(x, 0, |x|, m)
  }

  lemma TidyAdd(x: seq<Slot>, y: seq<Slot>, lo: int, hi: int, m: nat)
    requires TidyIn(x, lo, hi, m) && TidyIn(y, lo - |x|, hi - |x|, m)
    ensures TidyIn(x + y, lo, hi, m)
  {
    var z := x + y;
    forall j | 0 <= j < |z| ensures TidyAt(z, j, lo, hi, m) {
      if j < |x| { assert TidyAt(x, j, lo, hi, m); TidyLeft(x, y, j, lo, hi, m); }
      else { assert TidyAt(y, j - |x|, lo - |x|, hi - |x|, m); TidyRight(x, y, j - |x|, lo, hi, m); }
    }
  }

  lemma TidyLeft(x: seq<Slot>, y: seq<Slot>, j: nat, lo: int, hi: int, m: nat)
    requires j < |x| && TidyAt(x, j, lo, hi, m)
    ensures TidyAt(x + y, j, lo, hi, m)
  {
    var z := x + y;
    assert forall k :: 0 <= k < |x| ==> z[k] == x[k];
  }

  lemma TidyRight(x: seq<Slot>, y: seq<Slot>, j: nat, lo: int, hi: int, m: nat)
    requires j < |y| && TidyAt(y, j, lo - |x|, hi - |x|, m)
    ensures TidyAt(x + y, |x| + j, lo, hi, m)
  {
    var z := x + y;
    assert forall k :: |x| <= k < |z| ==> z[k] == y[k - |x|];
  }

  /** A block between two others. */
  lemma TidyMid(x: seq<Slot>, y: seq<Slot>, z: seq<Slot>, lo: int, hi: int, m: nat)
    requires TidyIn(x, lo, hi, m) && Tidy(y, m) && TidyIn(z, lo - |x| - |y|, hi - |x| - |y|, m)
    requires lo <= |x| && |x| + |y| <= hi
    ensures TidyIn(x + y + z, lo, hi, m)
  {
    hide TidyAt;
    TidyWiden(y, lo - |x|, hi - |x|, m);
    TidyAdd(x, y, lo, hi, m);
    TidyAdd(x + y, z, lo, hi, m);
  }

  lemma TidyWiden(x: seq<Slot>, lo: int, hi: int, m: nat)
    requires Tidy(x, m) && lo <= 0 && |x| <= hi
    ensures TidyIn(x, lo, hi, m)
  {
    forall j | 0 <= j < |x| ensures TidyAt(x, j, lo, hi, m) { assert TidyAt(x, j, 0, |x|, m); }
  }

  lemma TidyNone(lo: int, hi: int, m: nat)
    ensures TidyIn([], lo, hi, m)
  {
  }

  lemma Tidy1(o: Slot, lo: int, hi: int, m: nat)
    requires o.I? ==> SizeOf(o.op) == 1
    ensures TidyIn([o], lo, hi, m)
  {
  }

  lemma Tidy2(o: Slot, off: int, lo: int, hi: int, m: nat)
    requires o.I? && HasOffset(o.op) && o.op != ITestSet && o.op != IOpenCall && lo <= off <= hi
    ensures TidyIn([o, Off(off)], lo, hi, m)
  {
  }

  lemma TidyTest(cs: Charset, off: int, lo: int, hi: int, m: nat)
    requires lo <= off <= hi
    ensures TidyIn(TestCode(cs, off), lo, hi, m)
  {
    var x := TestCode(cs, off);
    forall j | 0 <= j < |x| ensures TidyAt(x, j, lo, hi, m) {
      if j > 0 { assert !x[j].I?; }
    }
  }

  lemma TidyMaybe(f: First, off: int, lo: int, hi: int, m: nat)
    requires lo <= off <= hi
    ensures TidyIn(MaybeTest(f, off), lo, hi, m)
  {
    if !f.e { TidyTest(f.cs, off, lo, hi, m); }
  }

  // ----- layouts -----

  lemma TidyChoiceTested(cs: Charset, x1: seq<Slot>, x2: seq<Slot>, empty: bool, m: nat)
    requires Tidy(x1, m) && Tidy(x2, m)
    ensures Tidy(ChoiceTested(cs, x1, x2, empty), m)
  {
    hide TidyIn, MaybeTest, TestCode, TestSize, MaybeSize;
    var jmp := if empty then [] else [Op(IJmp), Off(2 + |x2|)];
    var test := TestCode(cs, TestSize(cs) + |x1| + |jmp|);
    var n := |test| + |x1| + |jmp| + |x2|;
    TidyTest(cs, TestSize(cs) + |x1| + |jmp|, 0, n, m);
    TidyNone(0 - |test| - |x1|, n - |test| - |x1|, m);
    if !empty { Tidy2(Op(IJmp), 2 + |x2|, 0 - |test| - |x1|, n - |test| - |x1|, m); }
    TidyMid(test, x1, jmp, 0, n, m);
    TidyWiden(x2, 0 - (n - |x2|), |x2|, m);
    TidyAdd(test + x1 + jmp, x2, 0, n, m);
  }

  lemma TidyChoicePartial(x1: seq<Slot>, m: nat)
    requires Tidy(x1, m)
    ensures Tidy(ChoicePartial(x1), m)
  {
    hide TidyIn, MaybeTest, TestCode, TestSize, MaybeSize;
    var n := 2 + |x1|;
    Tidy2(Op(IPartialCommit), 2, 0, n, m);
    TidyWiden(x1, -2, n - 2, m);
    TidyAdd([Op(IPartialCommit), Off(2)], x1, 0, n, m);
  }

  lemma TidyChoiceFull(f: First, x1: seq<Slot>, x2: seq<Slot>, m: nat)
    requires Tidy(x1, m) && Tidy(x2, m)
    ensures Tidy(ChoiceFull(f, x1, x2), m)
  {
    hide TidyIn, MaybeTest, TestCode, TestSize, MaybeSize;
    var test := MaybeTest(f, MaybeSize(f) + 4 + |x1|);
    var choice, commit := [Op(IChoice), Off(4 + |x1|)], [Op(ICommit), Off(2 + |x2|)];
    var n := |test| + 4 + |x1| + |x2|;
    TidyMaybe(f, MaybeSize(f) + 4 + |x1|, 0, n, m);
    Tidy2(Op(IChoice), 4 + |x1|, 0 - |test|, n - |test|, m);
    TidyAdd(test, choice, 0, n, m);
    Tidy2(Op(ICommit), 2 + |x2|, 0 - |test| - 2 - |x1|, n - |test| - 2 - |x1|, m);
    TidyMid(test + choice, x1, commit, 0, n, m);
    TidyWiden(x2, 0 - (n - |x2|), |x2|, m);
    TidyAdd(test + choice + x1 + commit, x2, 0, n, m);
  }

  lemma TidyRepTested(cs: Charset, y: seq<Slot>, m: nat)
    requires Tidy(y, m)
    ensures Tidy(RepTested(cs, y), m)
  {
    hide TidyIn, MaybeTest, TestCode, TestSize, MaybeSize;
    var test := TestCode(cs, TestSize(cs) + |y| + 2);
    var n := |test| + |y| + 2;
    TidyTest(cs, TestSize(cs) + |y| + 2, 0, n, m);
    Tidy2(Op(IJmp), -(TestSize(cs) + |y|), 0 - |test| - |y|, n - |test| - |y|, m);
    TidyMid(test, y, [Op(IJmp), Off(-(TestSize(cs) + |y|))], 0, n, m);
  }

  lemma TidyRepChoice(f: First, opt: bool, y: seq<Slot>, m: nat)
    requires Tidy(y, m)
    ensures Tidy(RepChoice(f, opt, y), m)
  {
    hide TidyIn, MaybeTest, TestCode, TestSize, MaybeSize;
    var test := MaybeTest(f, MaybeSize(f) + 4 + |y|);
    var enter, off := if opt then IPartialCommit else IChoice, if opt then 2 else 4 + |y|;
    var n := |test| + 4 + |y|;
    TidyMaybe(f, MaybeSize(f) + 4 + |y|, 0, n, m);
    Tidy2(Op(enter), off, 0 - |test|, n - |test|, m);
    TidyAdd(test, [Op(enter), Off(off)], 0, n, m);
    Tidy2(Op(IPartialCommit), -|y|, 0 - |test| - 2 - |y|, n - |test| - 2 - |y|, m);
    TidyMid(test + [Op(enter), Off(off)], y, [Op(IPartialCommit), Off(-|y|)], 0, n, m);
  }

  lemma TidyRepSpan(cs: Charset, m: nat)
    ensures Tidy(RepSpan(cs), m)
  {
    var x := RepSpan(cs);
    forall j | 0 <= j < |x| ensures TidyAt(x, j, 0, |x|, m) {
      if j > 0 { assert !x[j].I?; }
    }
  }

  lemma TidyNot(f: First, y: seq<Slot>, m: nat)
    requires Tidy(y, m)
    ensures Tidy(NotHead(f), m) && Tidy(NotChoice(f, y), m)
  {
    hide TidyIn, MaybeTest, TestCode, TestSize, MaybeSize;
    var n := MaybeSize(f) + 1;
    TidyMaybe(f, n, 0, n, m);
    Tidy1(Op(IFail), 0 - MaybeSize(f), 1, m);
    TidyAdd(MaybeTest(f, n), [Op(IFail)], 0, n, m);
    TidyNotChoice(f, y, m);
  }

  lemma TidyNotChoice(f: First, y: seq<Slot>, m: nat)
    requires Tidy(y, m)
    ensures Tidy(NotChoice(f, y), m)
  {
    hide TidyIn, MaybeTest, TestCode, TestSize, MaybeSize;
    var n := MaybeSize(f) + 3 + |y|;
    var test, choice := MaybeTest(f, n), [Op(IChoice), Off(3 + |y|)];
    TidyMaybe(f, n, 0, n, m);
    Tidy2(Op(IChoice), 3 + |y|, 0 - |test|, n - |test|, m);
    TidyAdd(test, choice, 0, n, m);
    Tidy1(Op(IFailTwice), 0 - |test| - 2 - |y|, n - |test| - 2 - |y|, m);
    TidyMid(test + choice, y, [Op(IFailTwice)], 0, n, m);
  }

  lemma TidyAndChoice(y: seq<Slot>, m: nat)
    requires Tidy(y, m)
    ensures Tidy(AndChoice(y), m)
  {
    hide TidyIn, MaybeTest, TestCode, TestSize, MaybeSize;
    var n := 5 + |y|;
    var last := [Op(IBackCommit), Off(3)] + [Op(IFail)];
    assert last == [Op(IBackCommit), Off(3), Op(IFail)];
    Tidy2(Op(IChoice), 4 + |y|, 0, n, m);
    Tidy2(Op(IBackCommit), 3, 0 - 2 - |y|, n - 2 - |y|, m);
    Tidy1(Op(IFail), 0 - 4 - |y|, n - 4 - |y|, m);
    TidyAdd([Op(IBackCommit), Off(3)], [Op(IFail)], 0 - 2 - |y|, n - 2 - |y|, m);
    TidyMid([Op(IChoice), Off(4 + |y|)], y, last, 0, n, m);
  }

  /** A block followed or preceded by one simple instruction. */
  lemma TidyThen(y: seq<Slot>, o: Slot, m: nat)
    requires Tidy(y, m) && o.I? && SizeOf(o.op) == 1
    ensures Tidy(y + [o], m) && Tidy([o] + y, m)
  {
    hide TidyIn;
    var n := |y| + 1;
    Tidy1(o, 0 - |y|, 1, m);
    TidyWiden(y, 0, n, m);
    TidyAdd(y, [o], 0, n, m);
    Tidy1(o, 0, n, m);
    TidyWiden(y, -1, n - 1, m);
    TidyAdd([o], y, 0, n, m);
  }

  lemma TidySeq(x: seq<Slot>, y: seq<Slot>, m: nat)
    requires Tidy(x, m) && Tidy(y, m)
    ensures Tidy(x + y, m)
  {
    hide TidyIn;
    TidyWiden(x, 0, |x| + |y|, m);
    TidyWiden(y, 0 - |x|, |y|, m);
    TidyAdd(x, y, 0, |x| + |y|, m);
  }

  lemma TidyLeaf(g: seq<Tree>, t: Tree, opt: bool, tt: Test, fl: Charset, tail: bool)
    requires IsCharset(t) || t.TTrue? || t.TFalse? || (t.TCall? && t.rule < |g|)
    ensures Tidy(Gen(g, t, opt, tt, fl, tail), |g|)
  {
    var x := Gen(g, t, opt, tt, fl, tail);
    forall j | 0 <= j < |x| ensures TidyAt(x, j, 0, |x|, |g|) {
      if j > 0 { assert !x[j].I?; }
    }
  }

  // ----- grammars -----

  /** No open call is left. */
  ghost predicate Closed(x: seq<Slot>) {
    forall j :: 0 <= j < |x| ==> !IsOp(x, j, IOpenCall)
  }

  lemma ClosedAdd(x: seq<Slot>, y: seq<Slot>)
    requires Closed(x) && Closed(y)
    ensures Closed(x + y)
  {
    var z := x + y;
    forall j | 0 <= j < |z| ensures !IsOp(z, j, IOpenCall) {
      if j < |x| { assert !IsOp(x, j, IOpenCall); } else { assert !IsOp(y, j - |x|, IOpenCall); }
    }
  }

  lemma TidyClosed(x: seq<Slot>, lo: int, hi: int, m: nat, m': nat)
    requires TidyIn(x, lo, hi, m) && Closed(x)
    ensures TidyIn(x, lo, hi, m')
  {
    forall j | 0 <= j < |x| ensures TidyAt(x, j, lo, hi, m') {
      assert TidyAt(x, j, lo, hi, m) && !IsOp(x, j, IOpenCall);
    }
  }

  lemma TidyResolve(body: seq<Slot>, pos: seq<nat>, m: nat)
    requires Tidy(body, |pos|)
    requires forall k :: 0 <= k < |pos| ==> pos[k] <= |body|
    ensures Tidy(ResolveCalls(body, pos), m) && Closed(ResolveCalls(body, pos))
  {
    var z := ResolveCalls(body, pos);
    forall j | 0 <= j < |z| ensures TidyAt(z, j, 0, |z|, m) && !IsOp(z, j, IOpenCall) {
      assert TidyAt(body, j, 0, |body|, |pos|);
      assert forall k :: 0 <= k < |z| ==> z[k] == ResolvedSlot(body, pos, k);
    }
  }

  lemma TidyCorrectOne(code: seq<Slot>, pos: seq<nat>, k: nat)
    requires Tidy(code, |pos|) && IsOp(code, k, IOpenCall)
    requires forall j :: 0 <= j < |pos| ==> pos[j] <= |code|
    ensures k + 1 < |code| && code[k].key < |pos|
    ensures Tidy(CorrectOne(code, pos, k), |pos|)
  {
    assert TidyAt(code, k, 0, |code|, |pos|);
    var z := CorrectOne(code, pos, k);
    forall j | 0 <= j < |z| ensures TidyAt(z, j, 0, |z|, |pos|) {
      assert TidyAt(code, j, 0, |code|, |pos|);
    }
  }

  lemma {:induction false} TidyCorrect(code: seq<Slot>, pos: seq<nat>, k: nat, m: nat)
    requires Tidy(code, |pos|)
    requires forall j :: 0 <= j < |pos| ==> pos[j] <= |code|
    requires forall j :: 0 <= j < k && j < |code| ==> !IsOp(code, j, IOpenCall)
    ensures Tidy(CorrectCalls(code, pos, k), m) && Closed(CorrectCalls(code, pos, k))
    decreases |code| - k
  {
    if k >= |code| {
      TidyClosed(code, 0, |code|, |pos|, m);
    } else if IsOp(code, k, IOpenCall) {
      TidyCorrectOne(code, pos, k);
      var code' := CorrectOne(code, pos, k);
      forall j | 0 <= j < k + 2 && j < |code'| ensures !IsOp(code', j, IOpenCall) {
        if j < k { assert !IsOp(code, j, IOpenCall) && code'[j] == code[j]; }
      }
      TidyCorrect(code', pos, k + 2, m);
    } else {
      assert TidyAt(code, k, 0, |code|, |pos|);
      var size := if code[k].I? then SizeOf(code[k].op) else 1;
      forall j | 0 <= j < k + size && j < |code| ensures !IsOp(code, j, IOpenCall) {
        if k < j { assert !code[j].I?; }
      }
      TidyCorrect(code, pos, k + size, m);
    }
  }

  lemma {:induction false} PositionsInside(g: seq<Tree>, rs: seq<Tree>, from: nat, tail: bool)
    ensures forall k :: 0 <= k < |rs| ==> from <= Positions(g, rs, from, tail)[k] < from + |RulesCode(g, rs, tail)|
    decreases rs
  {
    if rs != [] { PositionsInside(g, rs[1..], from + |RuleCode(g, rs[0], tail)|, tail); }
  }

  lemma TidyGrammar(rules: seq<Tree>, tail: bool, m: nat)
    requires Tidy(RulesCode(rules, rules, tail), |rules|)
    ensures Tidy(Gen([], TGrammar(rules), false, NoTest, FULL, tail), m)
    ensures Closed(Gen([], TGrammar(rules), false, NoTest, FULL, tail))
  {
    hide Gen, RulesCode, Positions, Tidy, CorrectCalls, Closed;
    var body, pos := RulesCode(rules, rules, tail), Positions(rules, rules, 0, tail);
    PositionsInside(rules, rules, 0, tail);
    TidyResolve(body, pos, m);
    TidyCorrect(body, pos, 0, m);
    TidyHead(if tail then CorrectCalls(body, pos, 0) else ResolveCalls(body, pos), |body|, m);
    GrammarLayout(rules, tail);
  }

  lemma GrammarLayout(rules: seq<Tree>, tail: bool)
    ensures var body, pos := RulesCode(rules, rules, tail), Positions(rules, rules, 0, tail);
      Gen([], TGrammar(rules), false, NoTest, FULL, tail) ==
        [Op(ICall), Off(4), Op(IJmp), Off(2 + |body|)]
        + (if tail then CorrectCalls(body, pos, 0) else ResolveCalls(body, pos))
  {
  }

  /** The call of the first rule and the jump over all of them. */
  lemma TidyHead(z: seq<Slot>, size: nat, m: nat)
    requires Tidy(z, m) && Closed(z) && |z| == size
    ensures var head := [Op(ICall), Off(4), Op(IJmp), Off(2 + size)]; Tidy(head + z, m) && Closed(head + z)
  {
    hide TidyIn;
    var n := 4 + size;
    Tidy2(Op(ICall), 4, 0, n, m);
    Tidy2(Op(IJmp), 2 + size, -2, n - 2, m);
    TidyAdd([Op(ICall), Off(4)], [Op(IJmp), Off(2 + size)], 0, n, m);
    var head := [Op(ICall), Off(4), Op(IJmp), Off(2 + size)];
    assert head == [Op(ICall), Off(4)] + [Op(IJmp), Off(2 + size)];
    TidyWiden(z, -4, n - 4, m);
    TidyAdd(head, z, 0, n, m);
    ClosedAdd(head, z);
  }

  // ----- all of it -----

  lemma {:induction false} GenTidy(g: seq<Tree>, t: Tree, opt: bool, tt: Test, fl: Charset, tail: bool)
    requires Wf(g, t)
    ensures Tidy(Gen(g, t, opt, tt, fl, tail), |g|)
    decreases t, 0
  {
    hide TidyIn, GetFirst, HeadFail, CheckAux, FixedLenX, HasCaptures, ChoiceTested, ChoiceFull, RepTested, RepChoice;
    hide NotChoice, NotHead;
    match t
    case TChoice(p1, p2) => GenTidyChoice(g, t, opt, tt, fl, tail);
    case TRep(p) => GenTidyRep(g, t, opt, tt, fl, tail);
    case TSeq(p1, p2) =>
      var fl1, tt2 := SeqFollow(g, p1, p2, fl), SeqTest(g, p1, tt);
      GenTidy(g, p1, false, tt, fl1, tail);
      GenTidy(g, p2, opt, tt2, fl, tail);
      TidySeq(Gen(g, p1, false, tt, fl1, tail), Gen(g, p2, opt, tt2, fl, tail), |g|);
    case TBehind(n, p) =>
      GenTidy(g, p, false, NoTest, FULL, tail);
      var y := Gen(g, p, false, NoTest, FULL, tail);
      assert [] + y == y;
      if n > 0 { TidyThen(y, I(IBehind, n, 0), |g|); }
    case TNot(p) =>
      GenTidy(g, p, false, NoTest, FULL, tail);
      TidyNot(GetFirst(g, p, FULL, DEPTH), Gen(g, p, false, NoTest, FULL, tail), |g|);
    case TAnd(p) => GenTidyAnd(g, t, opt, tt, fl, tail);
    case TCapture(kind, key, p) => GenTidyCapture(g, t, opt, tt, fl, tail);
    case TGrammar(rules) =>
      RulesTidy(rules, rules, tail);
      TidyGrammar(rules, tail, |g|);
    case _ => TidyLeaf(g, t, opt, tt, fl, tail);
  }

  lemma {:induction false} GenTidyAnd(g: seq<Tree>, t: Tree, opt: bool, tt: Test, fl: Charset, tail: bool)
    requires Wf(g, t) && t.TAnd?
    ensures Tidy(Gen(g, t, opt, tt, fl, tail), |g|)
    decreases t, 0, 0
  {
    hide TidyIn, GetFirst, HeadFail, CheckAux, FixedLenX, HasCaptures, AndChoice;
    var p := t.p;
    var y := Gen(g, p, false, tt, FULL, tail);
    GenTidy(g, p, false, tt, FULL, tail);
    TidyAndChoice(y, |g|);
    assert y + [] == y;
    if AndByBehind(g, p) && FixedLen(g, p) > 0 { TidyThen(y, I(IBehind, FixedLen(g, p), 0), |g|); }
  }

  lemma {:induction false} GenTidyCapture(g: seq<Tree>, t: Tree, opt: bool, tt: Test, fl: Charset, tail: bool)
    requires Wf(g, t) && t.TCapture?
    ensures Tidy(Gen(g, t, opt, tt, fl, tail), |g|)
    decreases t, 0, 0
  {
    hide TidyIn, GetFirst, HeadFail, CheckAux, FixedLenX, HasCaptures;
    var TCapture(kind, key, p) := t;
    var y := Gen(g, p, false, tt, fl, tail);
    GenTidy(g, p, false, tt, fl, tail);
    if CaptureByLen(g, p) {
      TidyThen(y, I(IFullCapture, JoinKindOff(kind, FixedLen(g, p)), key), |g|);
    } else {
      var open := I(IOpenCapture, JoinKindOff(kind, 0), key);
      TidyThen(y, open, |g|);
      TidyThen([open] + y, I(ICloseCapture, JoinKindOff(CCLOSE, 0), 0), |g|);
    }
  }

  lemma {:induction false} GenTidyChoice(g: seq<Tree>, t: Tree, opt: bool, tt: Test, fl: Charset, tail: bool)
    requires Wf(g, t) && t.TChoice?
    ensures Tidy(Gen(g, t, opt, tt, fl, tail), |g|)
    decreases t, 0, 0
  {
    hide TidyIn, GetFirst, HeadFail, CheckAux, FixedLenX, HasCaptures, ChoiceTested, ChoiceFull, ChoicePartial;
    var TChoice(p1, p2) := t;
    var f1 := GetFirst(g, p1, FULL, DEPTH);
    GenTidy(g, p2, opt, NoTest, fl, tail);
    var x2 := Gen(g, p2, opt, NoTest, fl, tail);
    if ChoiceByTest(g, p1, p2, fl) {
      GenTidy(g, p1, false, TestInfo(f1.cs), fl, tail);
      TidyChoiceTested(f1.cs, Gen(g, p1, false, TestInfo(f1.cs), fl, tail), x2, p2.TTrue?, |g|);
    } else if opt && p2.TTrue? {
      GenTidy(g, p1, true, NoTest, FULL, tail);
      TidyChoicePartial(Gen(g, p1, true, NoTest, FULL, tail), |g|);
    } else {
      GenTidy(g, p1, p2.TTrue?, MaybeInfo(f1), FULL, tail);
      TidyChoiceFull(f1, Gen(g, p1, p2.TTrue?, MaybeInfo(f1), FULL, tail), x2, |g|);
    }
  }

  lemma {:induction false} GenTidyRep(g: seq<Tree>, t: Tree, opt: bool, tt: Test, fl: Charset, tail: bool)
    requires Wf(g, t) && t.TRep?
    ensures Tidy(Gen(g, t, opt, tt, fl, tail), |g|)
    decreases t, 0, 0
  {
    hide TidyIn, GetFirst, HeadFail, CheckAux, FixedLenX, HasCaptures, RepTested, RepChoice, RepSpan;
    var p := t.p;
    var f := GetFirst(g, p, FULL, DEPTH);
    if IsCharset(p) {
      TidyRepSpan(ToCharset(p), |g|);
    } else if RepByTest(g, p, fl) {
      GenTidy(g, p, opt, TestInfo(f.cs), FULL, tail);
      TidyRepTested(f.cs, Gen(g, p, opt, TestInfo(f.cs), FULL, tail), |g|);
    } else {
      GenTidy(g, p, false, NoTest, FULL, tail);
      TidyRepChoice(f, opt, Gen(g, p, false, NoTest, FULL, tail), |g|);
    }
  }

  lemma {:induction false} RulesTidy(g: seq<Tree>, rs: seq<Tree>, tail: bool)
    requires forall k :: 0 <= k < |rs| ==> Wf(g, rs[k])
    ensures Tidy(RulesCode(g, rs, tail), |g|)
    decreases rs, 0
  {
    hide TidyIn, Gen;
    TidyNone(0, 0, |g|);
    if rs != [] {
      GenTidy(g, rs[0], false, NoTest, FULL, tail);
      TidyThen(Gen(g, rs[0], false, NoTest, FULL, tail), Op(IRet), |g|);
      RulesTidy(g, rs[1..], tail);
      TidySeq(RuleCode(g, rs[0], tail), RulesCode(g, rs[1..], tail), |g|);
    }
  }
}
