/** Correctness of code generation: the machine, running the code of a tree, does what the tree means. */
module Simulation {
  import opened Common
  import opened PegTree
  import opened Peg
  import opened Analysis
  import opened Vm
  import opened Captures
  import opened Layout
  import opened Code
  import opened Blocks
  import opened Tidiness

  /** Whether code generated for t under a choice ('opt') commits that choice partially. */
  predicate UsesOpt(g: seq<Tree>, t: Tree) {
    match t
    case TSeq(_, p2) => UsesOpt(g, p2)
    case TChoice(p1, p2) => (p2.TTrue? && !ChoiceByTest(g, p1, p2, FULL)) || UsesOpt(g, p2)
    case TRep(p) => !IsCharset(p) && (RepByTest(g, p, FULL) ==> UsesOpt(g, p))
    case _ => false
  }

  /** No repetition left by a plain test is compiled under a choice that its body commits partially. */
  predicate OptSafe(g: seq<Tree>, t: Tree, opt: bool, fl: Charset)
    decreases t
  {
    match t
    case TSeq(p1, p2) => OptSafe(g, p1, false, SeqFollow(g, p1, p2, fl)) && OptSafe(g, p2, opt, fl)
    case TChoice(p1, p2) =>
      if ChoiceByTest(g, p1, p2, fl) then OptSafe(g, p1, false, fl) && OptSafe(g, p2, opt, fl)
      else if opt && p2.TTrue? then OptSafe(g, p1, true, FULL)
      else OptSafe(g, p1, p2.TTrue?, FULL) && OptSafe(g, p2, opt, fl)
    case TRep(p) => OptSafe(g, p, false, FULL) && (opt && !IsCharset(p) && RepByTest(g, p, fl) ==> !UsesOpt(g, p))
    case TNot(p) => OptSafe(g, p, false, FULL)
    case TAnd(p) => OptSafe(g, p, false, FULL)
    case TBehind(_, p) => OptSafe(g, p, false, FULL)
    case TCapture(_, _, p) => OptSafe(g, p, false, fl)
    case TGrammar(rules) => forall k :: 0 <= k < |rules| ==> OptSafe(rules, rules[k], false, FULL)
    case _ => true
  }

  /** Code that does not use the enclosing choice is the same with and without it. */
  lemma {:induction false} UnusedOpt(g: seq<Tree>, t: Tree, tt: Test, tail: bool)
    requires !UsesOpt(g, t)
    ensures Gen(g, t, true, tt, FULL, tail) == Gen(g, t, false, tt, FULL, tail)
  {
    hide GetFirst, HeadFail, CheckAux, FixedLenX, HasCaptures;
    match t
    case TSeq(p1, p2) => UnusedOpt(g, p2, SeqTest(g, p1, tt), tail);
    case TChoice(p1, p2) => UnusedOpt(g, p2, NoTest, tail);
    case TRep(p) => if !IsCharset(p) { UnusedOpt(g, p, TestInfo(GetFirst(g, p, FULL, DEPTH).cs), tail); }
    case _ =>
  }

  // ----- starting points -----

  /** The code of every rule of g is at its address. */
  ghost predicate Env(c: Ctx, g: seq<Tree>) {
    && |c.at| == |g|
    && forall k :: 0 <= k < |g| ==> RuleOk(c, g, k)
  }

  ghost predicate RuleOk(c: Ctx, g: seq<Tree>, k: nat)
    requires |c.at| == |g| && k < |g|
  {
    && Wf(g, g[k]) && OptSafe(g, g[k], false, FULL)
    && Linked(c.code, c.at[k], RuleCode(g, g[k], false), c.at)
  }

  lemma EnvWf(c: Ctx, g: seq<Tree>)
    requires Env(c, g)
    ensures forall k :: 0 <= k < |g| ==> Wf(g, g[k])
  {
    hide Wf, OptSafe, Linked;
    forall k | 0 <= k < |g| ensures Wf(g, g[k]) {
      assert RuleOk(c, g, k);
    }
  }

  ghost predicate Protected(tt: Test, s: seq<Byte>, i: nat) {
    match tt
    case TestChar(ch) => i < |s| && s[i] == ch
    case TestSet(cs) => i < |s| && s[i] in cs
    case _ => true
  }

  lemma TestProtects(cs: Charset, s: seq<Byte>, i: nat)
    requires In(cs, s, i)
    ensures Protected(TestInfo(cs), s, i)
  {
    CharsetTypeMeans(cs);
  }

  /** Everything the code of t needs at its start. */
  ghost predicate Ready(c: Ctx, g: seq<Tree>, t: Tree, opt: bool, tt: Test, fl: Charset, a: int, i: nat, caps: seq<Cap>,
                        st: Stack) {
    && Env(c, g)
    && Wf(g, t) && OptSafe(g, t, opt, fl)
    && Linked(c.code, a, Gen(g, t, opt, tt, fl, false), c.at)
    && Protected(tt, c.s, i)
    && Ok(c, i, caps, opt, st, fl)
  }

  ghost function End(g: seq<Tree>, t: Tree, opt: bool, tt: Test, fl: Charset, a: int): int {
    a + |Gen(g, t, opt, tt, fl, false)|
  }

  /** A pattern whose test fails does not match. */
  lemma TestedOut(g: seq<Tree>, p: Tree, s: seq<Byte>, i: nat, n: nat)
    requires i <= |s|
    requires !Enters(GetFirst(g, p, FULL, DEPTH), s, i)
    ensures !Eval(g, p, s, i, n).Yes?
  {
    FirstSound(g, p, FULL, DEPTH, s, i, n);
  }

  /** A repeated character set is a span. */
  lemma {:induction false} SpanEval(g: seq<Tree>, t: Tree, s: seq<Byte>, i: nat, n: nat)
    requires i <= |s| && t.TRep? && IsCharset(t.p)
    ensures Eval(g, t, s, i, n) == Yes(SpanEnd(s, i, ToCharset(t.p)), [])
    decreases |s| - i
  {
    if i < |s| && s[i] in ToCharset(t.p) { SpanEval(g, t, s, i + 1, n); }
  }

  lemma RepNeverFails(g: seq<Tree>, t: Tree, s: seq<Byte>, i: nat, n: nat)
    requires i <= |s| && t.TRep?
    ensures !Eval(g, t, s, i, n).No?
  {
    CheckAuxSound(g, t, 0, s, i, n);
  }

  // ----- definitions, one construction at a time -----

  lemma EvalRep(g: seq<Tree>, t: Tree, s: seq<Byte>, i: nat, n: nat)
    requires t.TRep? && i <= |s|
    ensures var r1 := Eval(g, t.p, s, i, n);
      Eval(g, t, s, i, n) == RepRes(r1, if r1.Yes? then Eval(g, t, s, r1.j, n) else Out, i)
  {
  }

  lemma EvalNot(g: seq<Tree>, t: Tree, s: seq<Byte>, i: nat, n: nat)
    requires t.TNot? && i <= |s|
    ensures Eval(g, t, s, i, n) == NotRes(Eval(g, t.p, s, i, n), i)
  {
  }

  lemma EvalAnd(g: seq<Tree>, t: Tree, s: seq<Byte>, i: nat, n: nat)
    requires t.TAnd? && i <= |s|
    ensures Eval(g, t, s, i, n) == AndRes(Eval(g, t.p, s, i, n), i)
  {
  }

  lemma EvalBehind(g: seq<Tree>, t: Tree, s: seq<Byte>, i: nat, n: nat)
    requires t.TBehind? && i <= |s|
    ensures Eval(g, t, s, i, n) == if i < t.n then No else
      var r1 := Eval(g, t.p, s, i - t.n, n); if r1.Yes? && r1.j != i then No else AndRes(r1, i)
  {
  }

  lemma EvalCapture(g: seq<Tree>, t: Tree, s: seq<Byte>, i: nat, n: nat)
    requires t.TCapture? && i <= |s|
    ensures Eval(g, t, s, i, n) == CaptureRes(t.kind, t.key, i, Eval(g, t.p, s, i, n))
  {
  }

  lemma EvalTrue(g: seq<Tree>, t: Tree, s: seq<Byte>, i: nat, n: nat)
    requires t.TTrue? && i <= |s|
    ensures Eval(g, t, s, i, n) == Yes(i, [])
  {
  }

  lemma SeqParts(g: seq<Tree>, t: Tree, opt: bool, tt: Test, fl: Charset)
    requires t.TSeq? && Wf(g, t) && OptSafe(g, t, opt, fl)
    ensures Wf(g, t.p1) && Wf(g, t.p2) && OptSafe(g, t.p1, false, SeqFollow(g, t.p1, t.p2, fl))
    ensures OptSafe(g, t.p2, opt, fl)
    ensures Gen(g, t, opt, tt, fl, false)
         == Gen(g, t.p1, false, tt, SeqFollow(g, t.p1, t.p2, fl), false) + Gen(g, t.p2, opt, SeqTest(g, t.p1, tt), fl,
             false)
  {
    hide GetFirst, HeadFail, CheckAux, FixedLenX, HasCaptures;
  }

  lemma ChoiceParts(g: seq<Tree>, t: Tree, opt: bool, tt: Test, fl: Charset)
    requires t.TChoice? && Wf(g, t) && OptSafe(g, t, opt, fl)
    ensures Wf(g, t.p1) && Wf(g, t.p2) && (t.p2.TTrue? ==> Gen(g, t.p2, opt, NoTest, fl, false) == [])
    ensures var f1 := GetFirst(g, t.p1, FULL, DEPTH); var empty := t.p2.TTrue?;
      if ChoiceByTest(g, t.p1, t.p2, fl) then
        && OptSafe(g, t.p1, false, fl) && OptSafe(g, t.p2, opt, fl)
        && Gen(g, t, opt, tt, fl, false)
             == ChoiceTested(f1.cs, Gen(g, t.p1, false, TestInfo(f1.cs), fl, false),
                             Gen(g, t.p2, opt, NoTest, fl, false), empty)
      else if opt && empty then
        && OptSafe(g, t.p1, true, FULL)
        && Gen(g, t, opt, tt, fl, false) == ChoicePartial(Gen(g, t.p1, true, NoTest, FULL, false))
      else
        && OptSafe(g, t.p1, empty, FULL) && OptSafe(g, t.p2, opt, fl)
        && Gen(g, t, opt, tt, fl, false)
             == ChoiceFull(f1, Gen(g, t.p1, empty, MaybeInfo(f1), FULL, false), Gen(g, t.p2, opt, NoTest, fl, false))
  {
    hide GetFirst, HeadFail, CheckAux, FixedLenX, HasCaptures, ChoiceTested, ChoiceFull, ChoicePartial;
  }

  lemma RepParts(g: seq<Tree>, t: Tree, opt: bool, tt: Test, fl: Charset)
    requires t.TRep? && !IsCharset(t.p) && Wf(g, t) && OptSafe(g, t, opt, fl)
    ensures Wf(g, t.p) && OptSafe(g, t.p, false, FULL) && OptSafe(g, t, opt, fl)
    ensures opt && RepByTest(g, t.p, fl) ==> !UsesOpt(g, t.p)
    ensures var f := GetFirst(g, t.p, FULL, DEPTH);
      Gen(g, t, opt, tt, fl, false) ==
        if RepByTest(g, t.p, fl) then RepTested(f.cs, Gen(g, t.p, opt, TestInfo(f.cs), FULL, false))
        else RepChoice(f, opt, Gen(g, t.p, false, NoTest, FULL, false))
  {
    hide GetFirst, HeadFail, CheckAux, FixedLenX, HasCaptures, RepTested, RepChoice;
  }

  lemma NotParts(g: seq<Tree>, t: Tree, opt: bool, tt: Test, fl: Charset)
    requires t.TNot? && Wf(g, t) && OptSafe(g, t, opt, fl)
    ensures Wf(g, t.p) && OptSafe(g, t.p, false, FULL)
    ensures var f := GetFirst(g, t.p, FULL, DEPTH);
      Gen(g, t, opt, tt, fl, false) ==
        if HeadFail(g, t.p, DEPTH) then NotHead(f) else NotChoice(f, Gen(g, t.p, false, NoTest, FULL, false))
  {
    hide GetFirst, HeadFail, CheckAux, FixedLenX, HasCaptures, NotHead, NotChoice;
  }

  lemma AndParts(g: seq<Tree>, t: Tree, opt: bool, tt: Test, fl: Charset)
    requires t.TAnd? && Wf(g, t) && OptSafe(g, t, opt, fl)
    ensures Wf(g, t.p) && OptSafe(g, t.p, false, FULL)
    ensures var y := Gen(g, t.p, false, tt, FULL, false);
      Gen(g, t, opt, tt, fl, false) == if AndByBehind(g, t.p) then y + BehindIf(FixedLen(g, t.p)) else AndChoice(y)
  {
    hide GetFirst, HeadFail, CheckAux, FixedLenX, HasCaptures, AndChoice, BehindIf;
  }

  lemma BehindParts(g: seq<Tree>, t: Tree, opt: bool, tt: Test, fl: Charset)
    requires t.TBehind? && Wf(g, t) && OptSafe(g, t, opt, fl)
    ensures Wf(g, t.p) && OptSafe(g, t.p, false, FULL) && FixedLen(g, t.p) == t.n && !HasCaptures(g, t.p)
    ensures Gen(g, t, opt, tt, fl, false) == BehindIf(t.n) + Gen(g, t.p, false, NoTest, FULL, false)
  {
    hide GetFirst, HeadFail, CheckAux, FixedLenX, HasCaptures, BehindIf;
  }

  lemma CaptureParts(g: seq<Tree>, t: Tree, opt: bool, tt: Test, fl: Charset)
    requires t.TCapture? && Wf(g, t) && OptSafe(g, t, opt, fl)
    ensures Wf(g, t.p) && OptSafe(g, t.p, false, fl) && t.kind < 16 && t.kind != CCLOSE
    ensures var y := Gen(g, t.p, false, tt, fl, false);
      Gen(g, t, opt, tt, fl, false) ==
        if CaptureByLen(g, t.p) then CaptureFull(t.kind, t.key, FixedLen(g, t.p), y) else CaptureOpen(t.kind, t.key, y)
  {
    hide GetFirst, HeadFail, CheckAux, FixedLenX, HasCaptures, CaptureFull, CaptureOpen;
  }

  // ----- one lemma for each construction -----

  lemma SimLeaf(c: Ctx, g: seq<Tree>, t: Tree, opt: bool, tt: Test, fl: Charset, a: int, i: nat, caps: seq<Cap>,
                st: Stack, n: nat)
    requires Ready(c, g, t, opt, tt, fl, a, i, caps, st) && (IsCharset(t) || t.TTrue? || t.TFalse?)
    ensures Good(c, Run(a, i, caps, st), End(g, t, opt, tt, fl, a), caps, opt, st, fl, Eval(g, t, c.s, i, n))
    decreases n, t, |c.s| - i, 0
  {
    hide Gen, Eval, Wf, OptSafe, Env, Linked, Gets, Step, Backtrack;
    var x, b := Run(a, i, caps, st), End(g, t, opt, tt, fl, a);
    assert caps + [] == caps;
    LeafEval(g, t, opt, tt, fl, c.s, i, n);
    if t.TTrue? {
      Zero(c, x);
      Arrives(c, x, b, i, caps, [], opt, st, fl);
    } else {
      LeafStep(c, g, t, opt, tt, fl, a, i, caps, st);
      if Taken(t, c.s, i) {
        One(c, x, Run(b, i + 1, caps, st));
        Arrives(c, x, b, i + 1, caps, [], opt, st, fl);
      } else {
        One(c, x, Backtrack(st, caps));
        Fails(c, x, b, caps, opt, st, fl);
      }
    }
  }

  /** The next character is one that the pattern takes. */
  predicate Taken(t: Tree, s: seq<Byte>, i: nat) {
    i < |s| && IsCharset(t) && s[i] in ToCharset(t)
  }

  lemma LeafEval(g: seq<Tree>, t: Tree, opt: bool, tt: Test, fl: Charset, s: seq<Byte>, i: nat, n: nat)
    requires i <= |s| && (IsCharset(t) || t.TTrue? || t.TFalse?)
    ensures Eval(g, t, s, i, n) ==
      if t.TTrue? then Yes(i, []) else if Taken(t, s, i) then Yes(i + 1, []) else No
    ensures t.TTrue? ==> Gen(g, t, opt, tt, fl, false) == []
  {
  }

  /** The one instruction of a leaf. */
  lemma LeafStep(c: Ctx, g: seq<Tree>, t: Tree, opt: bool, tt: Test, fl: Charset, a: int, i: nat, caps: seq<Cap>,
                 st: Stack)
    requires Linked(c.code, a, Gen(g, t, opt, tt, fl, false), c.at) && Protected(tt, c.s, i) && i <= |c.s|
    requires IsCharset(t) || t.TFalse?
    ensures Step(c.code, c.s, Run(a, i, caps, st)) ==
      if Taken(t, c.s, i) then Run(End(g, t, opt, tt, fl, a), i + 1, caps, st) else Backtrack(st, caps)
  {
    hide Backtrack, Gen, Linked, Step;
    LeafCode(g, t, opt, tt, fl, c.s, i);
    CharStep(c, Gen(g, t, opt, tt, fl, false), a, i, caps, st);
  }

  /** Code that is one instruction and takes one character or none. */
  predicate CharSlots(x: seq<Slot>) {
    || x == [Op(IAny)] || x == [Op(IFail)] || (|x| == 1 && x[0].I? && x[0].op == IChar)
    || (|x| == CHARSETINSTSIZE && x[0] == Op(ISet) && x[1].Buf?)
  }

  predicate SlotsTake(x: seq<Slot>, s: seq<Byte>, i: nat)
    requires CharSlots(x)
  {
    i < |s| &&
      match x[0].op
      case IAny => true
      case IChar => s[i] == x[0].aux
      case ISet => |x| > 1 && x[1].Buf? && s[i] in x[1].cs
      case _ => false
  }

  lemma LeafCode(g: seq<Tree>, t: Tree, opt: bool, tt: Test, fl: Charset, s: seq<Byte>, i: nat)
    requires (IsCharset(t) || t.TFalse?) && Protected(tt, s, i)
    ensures var x := Gen(g, t, opt, tt, fl, false); CharSlots(x) && SlotsTake(x, s, i) == Taken(t, s, i)
  {
    if t.TSet? { CharsetTypeMeans(t.cs); }
  }

  lemma CharStep(c: Ctx, x: seq<Slot>, a: int, i: nat, caps: seq<Cap>, st: Stack)
    requires CharSlots(x) && Linked(c.code, a, x, c.at) && i <= |c.s|
    ensures Step(c.code, c.s, Run(a, i, caps, st)) ==
      if SlotsTake(x, c.s, i) then Run(a + |x|, i + 1, caps, st) else Backtrack(st, caps)
  {
    hide Backtrack;
    assert c.code[a] == x[0];
    if |x| > 1 { assert c.code[a + 1] == x[1]; }
  }

  lemma SimSeq(c: Ctx, g: seq<Tree>, t: Tree, opt: bool, tt: Test, fl: Charset, a: int, i: nat, caps: seq<Cap>,
               st: Stack, n: nat)
    requires Ready(c, g, t, opt, tt, fl, a, i, caps, st) && t.TSeq?
    ensures Good(c, Run(a, i, caps, st), End(g, t, opt, tt, fl, a), caps, opt, st, fl, Eval(g, t, c.s, i, n))
    decreases n, t, |c.s| - i, 0
  {
    hide Gen, Eval, Wf, OptSafe, Env, GetFirst, HeadFail, CheckAux, FixedLenX, HasCaptures, Linked, Gets;
    SeqParts(g, t, opt, tt, fl);
    SeqEval(g, t.p1, t.p2, c.s, i, n);
    var TSeq(p1, p2) := t;
    var fl1, tt2 := SeqFollow(g, p1, p2, fl), SeqTest(g, p1, tt);
    var x, b := Run(a, i, caps, st), End(g, t, opt, tt, fl, a);
    LinkedSplit(c.code, a, Gen(g, p1, false, tt, fl1, false), Gen(g, p2, opt, tt2, fl, false), c.at);
    Sim(c, g, p1, false, tt, fl1, a, i, caps, st, n);
    var m := End(g, p1, false, tt, fl1, a);
    var r1 := Eval(g, p1, c.s, i, n);
    if r1.Yes? {
      var y := Run(m, r1.j, caps + r1.caps, st);
      var r2 := Eval(g, p2, c.s, r1.j, n);
      if Gets(c, x, y) {
        if FixedLen(g, p1) == 0 { FixedLenSound(g, p1, 0, 0, c.s, i, n); }
        LevelMono(st, |caps|, |caps + r1.caps|);
        Sim(c, g, p2, opt, tt2, fl, m, r1.j, caps + r1.caps, st, n);
        GoodFrom(c, x, y, b, caps + r1.caps, opt, st, fl, r2);
        GoodShift(c, x, b, caps, r1.caps, opt, st, fl, r2);
      } else {
        FirstSound(g, p2, fl, DEPTH, c.s, r1.j, n);
        if !r2.Yes? { Fails(c, x, b, caps, opt, st, fl); }
      }
    }
  }

  lemma SimChoiceTested(c: Ctx, g: seq<Tree>, t: Tree, opt: bool, tt: Test, fl: Charset, a: int, i: nat, caps: seq<Cap>,
                        st: Stack, n: nat)
    requires Ready(c, g, t, opt, tt, fl, a, i, caps, st) && t.TChoice? && ChoiceByTest(g, t.p1, t.p2, fl)
    ensures Good(c, Run(a, i, caps, st), End(g, t, opt, tt, fl, a), caps, opt, st, fl, Eval(g, t, c.s, i, n))
    decreases n, t, |c.s| - i, 0
  {
    hide Gen, Eval, Wf, OptSafe, Env, Outcome, OutcomeOpt, GetFirst, HeadFail, CheckAux, FixedLenX, HasCaptures, Linked;
    hide Gets, ChoiceTested, TestSize;
    ChoiceParts(g, t, opt, tt, fl);
    OrEval(g, t.p1, t.p2, c.s, i, n);
    var TChoice(p1, p2) := t;
    var f1 := GetFirst(g, p1, FULL, DEPTH);
    var x1, x2 := Gen(g, p1, false, TestInfo(f1.cs), fl, false), Gen(g, p2, opt, NoTest, fl, false);
    var m := a + TestSize(f1.cs);
    ChoiceTestedLayout(c.code, a, f1.cs, x1, x2, p2.TTrue?, c.at);
    var r1, r2 := Eval(g, p1, c.s, i, n), Eval(g, p2, c.s, i, n);
    if HeadFail(g, p1, DEPTH) { HeadFailNotEmpty(g, p1, FULL, DEPTH); }
    if In(f1.cs, c.s, i) {
      TestProtects(f1.cs, c.s, i);
      Sim(c, g, p1, false, TestInfo(f1.cs), fl, m, i, caps, st, n);
      if r1.No? {
        if HeadFail(g, p1, DEPTH) { HeadFailExact(g, p1, DEPTH, c.s, i, n); }
        FirstSound(g, p2, fl, DEPTH, c.s, i, n);
      }
    } else {
      TestedOut(g, p1, c.s, i, n);
      if r1.No? { Sim(c, g, p2, opt, NoTest, fl, m + |x1| + if p2.TTrue? then 0 else 2, i, caps, st, n); }
    }
    ChoiceTestedRuns(c, a, f1.cs, x1, x2, p2.TTrue?, i, caps, opt, st, fl, r1, r2);
  }

  lemma SimChoicePartial(c: Ctx, g: seq<Tree>, t: Tree, tt: Test, a: int, i: nat, caps: seq<Cap>, st: Stack, n: nat)
    requires Ready(c, g, t, true, tt, FULL, a, i, caps, st) && t.TChoice? && t.p2.TTrue?
    requires !ChoiceByTest(g, t.p1, t.p2, FULL)
    ensures OutcomeOpt(c, Run(a, i, caps, st), End(g, t, true, tt, FULL, a), caps, st, Eval(g, t, c.s, i, n))
    decreases n, t, |c.s| - i, 0
  {
    hide Gen, Eval, Wf, OptSafe, Env, Outcome, OutcomeOpt, GetFirst, HeadFail, CheckAux, FixedLenX, HasCaptures, Linked;
    hide Gets;
    ChoiceParts(g, t, true, tt, FULL);
    OrEval(g, t.p1, t.p2, c.s, i, n);
    EvalTrue(g, t.p2, c.s, i, n);
    var x1 := Gen(g, t.p1, true, NoTest, FULL, false);
    LinkedSplit(c.code, a, [Op(IPartialCommit), Off(2)], x1, c.at);
    var st' := Push(Choice(st.top.p, i, |caps|), st.rest);
    Sim(c, g, t.p1, true, NoTest, FULL, a + 2, i, caps, st', n);
    ChoicePartialRuns(c, a, x1, i, caps, st, Eval(g, t.p1, c.s, i, n));
  }

  lemma SimChoiceFull(c: Ctx, g: seq<Tree>, t: Tree, opt: bool, tt: Test, fl: Charset, a: int, i: nat, caps: seq<Cap>,
                      st: Stack, n: nat)
    requires Ready(c, g, t, opt, tt, fl, a, i, caps, st) && t.TChoice? && !ChoiceByTest(g, t.p1, t.p2, fl)
    requires !(opt && t.p2.TTrue?)
    ensures Good(c, Run(a, i, caps, st), End(g, t, opt, tt, fl, a), caps, opt, st, fl, Eval(g, t, c.s, i, n))
    decreases n, t, |c.s| - i, 0
  {
    hide Gen, Eval, Wf, OptSafe, Env, Outcome, OutcomeOpt, GetFirst, HeadFail, CheckAux, FixedLenX, HasCaptures, Linked;
    hide Gets, ChoiceFull, MaybeSize, MaybeTest;
    ChoiceParts(g, t, opt, tt, fl);
    OrEval(g, t.p1, t.p2, c.s, i, n);
    var TChoice(p1, p2) := t;
    var f1 := GetFirst(g, p1, FULL, DEPTH);
    var x1, x2 := Gen(g, p1, p2.TTrue?, MaybeInfo(f1), FULL, false), Gen(g, p2, opt, NoTest, fl, false);
    ChoiceFullLayout(c.code, a, f1, x1, x2, c.at);
    var m := a + MaybeSize(f1);
    var l1 := m + 4 + |x1|;
    var r1, r2 := Eval(g, p1, c.s, i, n), Eval(g, p2, c.s, i, n);
    if Enters(f1, c.s, i) {
      if !f1.e { TestProtects(f1.cs, c.s, i); }
      Sim(c, g, p1, p2.TTrue?, MaybeInfo(f1), FULL, m + 2, i, caps, Push(Choice(l1, i, |caps|), st), n);
    } else {
      TestedOut(g, p1, c.s, i, n);
    }
    if r1.No? { Sim(c, g, p2, opt, NoTest, fl, l1, i, caps, st, n); }
    ChoiceFullRuns(c, a, f1, x1, x2, p2.TTrue?, i, caps, opt, st, fl, r1, r2);
  }

  lemma SimRepTested(c: Ctx, g: seq<Tree>, t: Tree, opt: bool, tt: Test, fl: Charset, a: int, i: nat, caps: seq<Cap>,
                     st: Stack, n: nat)
    requires Ready(c, g, t, opt, tt, fl, a, i, caps, st) && t.TRep? && !IsCharset(t.p) && RepByTest(g, t.p, fl)
    ensures Good(c, Run(a, i, caps, st), End(g, t, opt, tt, fl, a), caps, opt, st, fl, Eval(g, t, c.s, i, n))
    decreases n, t, |c.s| - i, 0
  {
    hide Gen, Eval, Wf, OptSafe, Env, Outcome, OutcomeOpt, GetFirst, HeadFail, CheckAux, FixedLenX, HasCaptures, Linked;
    hide Gets, RepTested, TestSize;
    RepParts(g, t, opt, tt, fl);
    RepParts(g, t, opt, NoTest, fl);
    EvalRep(g, t, c.s, i, n);
    var p := t.p;
    var f := GetFirst(g, p, FULL, DEPTH);
    if opt { UnusedOpt(g, p, TestInfo(f.cs), false); }
    var y := Gen(g, p, false, TestInfo(f.cs), FULL, false);
    RepTestedLayout(c.code, a, f.cs, y, c.at);
    var r1 := Eval(g, p, c.s, i, n);
    var r2 := if r1.Yes? then Eval(g, t, c.s, r1.j, n) else Out;
    if HeadFail(g, p, DEPTH) { HeadFailNotEmpty(g, p, FULL, DEPTH); }
    if In(f.cs, c.s, i) {
      TestProtects(f.cs, c.s, i);
      Sim(c, g, p, false, TestInfo(f.cs), FULL, a + TestSize(f.cs), i, caps, st, n);
      if r1.No? && HeadFail(g, p, DEPTH) { HeadFailExact(g, p, DEPTH, c.s, i, n); }
      if r1.Yes? && r1.j != i {
        LevelMono(st, |caps|, |caps + r1.caps|);
        Sim(c, g, t, opt, NoTest, fl, a, r1.j, caps + r1.caps, st, n);
      }
    } else {
      TestedOut(g, p, c.s, i, n);
    }
    RepTestedRuns(c, a, f.cs, y, i, caps, opt, st, fl, r1, r2);
  }

  /** The loop of a repetition under a choice that leads to 'exit'. */
  lemma SimRepLoop(c: Ctx, g: seq<Tree>, t: Tree, l: int, i: nat, caps: seq<Cap>, exit: int, st: Stack, n: nat)
    requires 0 <= l && i <= |c.s| && Env(c, g) && t.TRep? && Wf(g, t.p) && OptSafe(g, t.p, false, FULL)
    requires var y := Gen(g, t.p, false, NoTest, FULL, false);
             && Linked(c.code, l, y, c.at) && At(c.code, l + |y| + 1)
             && c.code[l + |y|] == Op(IPartialCommit) && c.code[l + |y| + 1] == Off(-|y|)
    ensures LoopExits(c, l, i, caps, exit, st, Eval(g, t, c.s, i, n))
    decreases n, t, |c.s| - i, 0
  {
    hide Gen, Eval, Wf, OptSafe, Env, Outcome, OutcomeOpt, GetFirst, HeadFail, CheckAux, FixedLenX, HasCaptures, Linked;
    hide Gets;
    EvalRep(g, t, c.s, i, n);
    var y := Gen(g, t.p, false, NoTest, FULL, false);
    Sim(c, g, t.p, false, NoTest, FULL, l, i, caps, Push(Choice(exit, i, |caps|), st), n);
    var r1 := Eval(g, t.p, c.s, i, n);
    var r2 := if r1.Yes? then Eval(g, t, c.s, r1.j, n) else Out;
    if r1.Yes? && r1.j != i {
      SimRepLoop(c, g, t, l, r1.j, caps + r1.caps, exit, st, n);
      RepNeverFails(g, t, c.s, r1.j, n);
    }
    RepLoopRuns(c, l, y, i, caps, exit, st, r1, r2);
  }

  lemma SimRepChoice(c: Ctx, g: seq<Tree>, t: Tree, opt: bool, tt: Test, fl: Charset, a: int, i: nat, caps: seq<Cap>,
                     st: Stack, n: nat)
    requires Ready(c, g, t, opt, tt, fl, a, i, caps, st) && t.TRep? && !IsCharset(t.p) && !RepByTest(g, t.p, fl)
    ensures Good(c, Run(a, i, caps, st), End(g, t, opt, tt, fl, a), caps, opt, st, fl, Eval(g, t, c.s, i, n))
    decreases n, t, |c.s| - i, 1
  {
    hide Gen, Eval, Wf, OptSafe, Env, Outcome, OutcomeOpt, GetFirst, HeadFail, CheckAux, FixedLenX, HasCaptures, Linked;
    hide Gets, RepChoice, MaybeSize, MaybeTest;
    RepParts(g, t, opt, tt, fl);
    EvalRep(g, t, c.s, i, n);
    var f := GetFirst(g, t.p, FULL, DEPTH);
    var y := Gen(g, t.p, false, NoTest, FULL, false);
    RepChoiceLayout(c.code, a, f, opt, y, c.at);
    var m := a + MaybeSize(f);
    var r := Eval(g, t, c.s, i, n);
    RepNeverFails(g, t, c.s, i, n);
    if Enters(f, c.s, i) {
      SimRepLoop(c, g, t, m + 2, i, caps, if opt then st.top.p else m + 4 + |y|, if opt then st.rest else st, n);
    } else {
      TestedOut(g, t.p, c.s, i, n);
    }
    RepChoiceRuns(c, a, f, y, i, caps, opt, st, fl, r);
  }

  lemma SimNot(c: Ctx, g: seq<Tree>, t: Tree, opt: bool, tt: Test, fl: Charset, a: int, i: nat, caps: seq<Cap>,
               st: Stack, n: nat)
    requires Ready(c, g, t, opt, tt, fl, a, i, caps, st) && t.TNot?
    ensures Good(c, Run(a, i, caps, st), End(g, t, opt, tt, fl, a), caps, opt, st, fl, Eval(g, t, c.s, i, n))
    decreases n, t, |c.s| - i, 0
  {
    hide Gen, Eval, Wf, OptSafe, Env, Outcome, OutcomeOpt, GetFirst, HeadFail, CheckAux, FixedLenX, HasCaptures, Linked;
    hide Gets, NotChoice, NotHead, MaybeSize, MaybeTest;
    NotParts(g, t, opt, tt, fl);
    EvalNot(g, t, c.s, i, n);
    var p := t.p;
    var f := GetFirst(g, p, FULL, DEPTH);
    var r1 := Eval(g, p, c.s, i, n);
    if HeadFail(g, p, DEPTH) {
      HeadFailNotEmpty(g, p, FULL, DEPTH);
      if r1 != Out { HeadFailExact(g, p, DEPTH, c.s, i, n); }
      NotHeadRuns(c, a, f, i, caps, opt, st, fl, r1);
    } else {
      var y := Gen(g, p, false, NoTest, FULL, false);
      NotChoiceLayout(c.code, a, f, y, c.at);
      var m := a + MaybeSize(f);
      if Enters(f, c.s, i) {
        Sim(c, g, p, false, NoTest, FULL, m + 2, i, caps, Push(Choice(m + 3 + |y|, i, |caps|), st), n);
      } else {
        TestedOut(g, p, c.s, i, n);
      }
      NotChoiceRuns(c, a, f, y, i, caps, opt, st, fl, r1);
    }
  }

  lemma SimAndBehind(c: Ctx, g: seq<Tree>, t: Tree, opt: bool, tt: Test, fl: Charset, a: int, i: nat, caps: seq<Cap>,
                     st: Stack, n: nat)
    requires Ready(c, g, t, opt, tt, fl, a, i, caps, st) && t.TAnd? && AndByBehind(g, t.p)
    ensures Good(c, Run(a, i, caps, st), End(g, t, opt, tt, fl, a), caps, opt, st, fl, Eval(g, t, c.s, i, n))
    decreases n, t, |c.s| - i, 0
  {
    hide Gen, Eval, Wf, OptSafe, Env, Outcome, OutcomeOpt, GetFirst, HeadFail, CheckAux, FixedLenX, HasCaptures, Linked;
    hide Gets;
    AndParts(g, t, opt, tt, fl);
    EvalAnd(g, t, c.s, i, n);
    var p := t.p;
    var y, len := Gen(g, p, false, tt, FULL, false), FixedLen(g, p);
    LinkedSplit(c.code, a, y, BehindIf(len), c.at);
    Sim(c, g, p, false, tt, FULL, a, i, caps, st, n);
    FixedLenSound(g, p, 0, 0, c.s, i, n);
    NoCapturesSound(g, p, c.s, i, n);
    AndBehindRuns(c, a, y, len, i, caps, opt, st, fl, Eval(g, p, c.s, i, n));
  }

  lemma SimAndChoice(c: Ctx, g: seq<Tree>, t: Tree, opt: bool, tt: Test, fl: Charset, a: int, i: nat, caps: seq<Cap>,
                     st: Stack, n: nat)
    requires Ready(c, g, t, opt, tt, fl, a, i, caps, st) && t.TAnd? && !AndByBehind(g, t.p)
    ensures Good(c, Run(a, i, caps, st), End(g, t, opt, tt, fl, a), caps, opt, st, fl, Eval(g, t, c.s, i, n))
    decreases n, t, |c.s| - i, 0
  {
    hide Gen, Eval, Wf, OptSafe, Env, Outcome, OutcomeOpt, GetFirst, HeadFail, CheckAux, FixedLenX, HasCaptures, Linked;
    hide Gets, AndChoice;
    AndParts(g, t, opt, tt, fl);
    EvalAnd(g, t, c.s, i, n);
    var p := t.p;
    var y := Gen(g, p, false, tt, FULL, false);
    AndChoiceLayout(c.code, a, y, c.at);
    Sim(c, g, p, false, tt, FULL, a + 2, i, caps, Push(Choice(a + 4 + |y|, i, |caps|), st), n);
    AndChoiceRuns(c, a, y, i, caps, opt, st, fl, Eval(g, p, c.s, i, n));
  }

  lemma SimBehind(c: Ctx, g: seq<Tree>, t: Tree, opt: bool, tt: Test, fl: Charset, a: int, i: nat, caps: seq<Cap>,
                  st: Stack, n: nat)
    requires Ready(c, g, t, opt, tt, fl, a, i, caps, st) && t.TBehind?
    ensures Good(c, Run(a, i, caps, st), End(g, t, opt, tt, fl, a), caps, opt, st, fl, Eval(g, t, c.s, i, n))
    decreases n, t, |c.s| - i, 0
  {
    hide Gen, Eval, Wf, OptSafe, Env, Outcome, OutcomeOpt, GetFirst, HeadFail, CheckAux, FixedLenX, HasCaptures, Linked;
    hide Gets, BehindIf;
    BehindParts(g, t, opt, tt, fl);
    EvalBehind(g, t, c.s, i, n);
    var TBehind(len, p) := t;
    var y := Gen(g, p, false, NoTest, FULL, false);
    LinkedSplit(c.code, a, BehindIf(len), y, c.at);
    var r1 := if i < len then Out else Eval(g, p, c.s, i - len, n);
    if i >= len {
      Sim(c, g, p, false, NoTest, FULL, a + |BehindIf(len)|, i - len, caps, st, n);
      FixedLenSound(g, p, 0, 0, c.s, i - len, n);
      NoCapturesSound(g, p, c.s, i - len, n);
    }
    BehindRuns(c, a, len, y, i, caps, opt, st, fl, r1);
  }

  lemma SimCaptureFull(c: Ctx, g: seq<Tree>, t: Tree, opt: bool, tt: Test, fl: Charset, a: int, i: nat, caps: seq<Cap>,
                       st: Stack, n: nat)
    requires Ready(c, g, t, opt, tt, fl, a, i, caps, st) && t.TCapture? && CaptureByLen(g, t.p)
    ensures Good(c, Run(a, i, caps, st), End(g, t, opt, tt, fl, a), caps, opt, st, fl, Eval(g, t, c.s, i, n))
    decreases n, t, |c.s| - i, 0
  {
    hide Gen, Eval, Wf, OptSafe, Env, Outcome, OutcomeOpt, GetFirst, HeadFail, CheckAux, FixedLenX, HasCaptures, Linked;
    hide Gets;
    CaptureParts(g, t, opt, tt, fl);
    EvalCapture(g, t, c.s, i, n);
    var TCapture(kind, key, p) := t;
    var y, len := Gen(g, p, false, tt, fl, false), FixedLen(g, p);
    LinkedSplit(c.code, a, y, [I(IFullCapture, JoinKindOff(kind, len), key)], c.at);
    Sim(c, g, p, false, tt, fl, a, i, caps, st, n);
    FixedLenSound(g, p, 0, 0, c.s, i, n);
    NoCapturesSound(g, p, c.s, i, n);
    CaptureFullRuns(c, a, kind, key, len, y, i, caps, opt, st, fl, Eval(g, p, c.s, i, n));
  }

  lemma SimCaptureOpen(c: Ctx, g: seq<Tree>, t: Tree, opt: bool, tt: Test, fl: Charset, a: int, i: nat, caps: seq<Cap>,
                       st: Stack, n: nat)
    requires Ready(c, g, t, opt, tt, fl, a, i, caps, st) && t.TCapture? && !CaptureByLen(g, t.p)
    ensures Good(c, Run(a, i, caps, st), End(g, t, opt, tt, fl, a), caps, opt, st, fl, Eval(g, t, c.s, i, n))
    decreases n, t, |c.s| - i, 0
  {
    hide Gen, Eval, Wf, OptSafe, Env, Outcome, OutcomeOpt, GetFirst, HeadFail, CheckAux, FixedLenX, HasCaptures, Linked;
    hide Gets, CaptureOpen, Enclose;
    CaptureParts(g, t, opt, tt, fl);
    EvalCapture(g, t, c.s, i, n);
    var TCapture(kind, key, p) := t;
    var y := Gen(g, p, false, tt, fl, false);
    CaptureOpenLayout(c.code, a, kind, key, y, c.at);
    LevelMono(st, |caps|, |caps| + 1);
    Sim(c, g, p, false, tt, fl, a + 1, i, caps + [Cap(i, key, kind, 0)], st, n);
    EvalLastClosed(g, p, c.s, i, n);
    EnvWf(c, g);
    EvalBalanced(g, p, c.s, i, n);
    CaptureOpenRuns(c, a, kind, key, y, i, caps, opt, st, fl, Eval(g, p, c.s, i, n));
  }

  lemma SimCall(c: Ctx, g: seq<Tree>, t: Tree, opt: bool, tt: Test, fl: Charset, a: int, i: nat, caps: seq<Cap>,
                st: Stack, n: nat)
    requires Ready(c, g, t, opt, tt, fl, a, i, caps, st) && t.TCall? && n > 0
    ensures Good(c, Run(a, i, caps, st), End(g, t, opt, tt, fl, a), caps, opt, st, fl, Eval(g, t, c.s, i, n))
    decreases n, t, |c.s| - i, 0
  {
    hide GetFirst, HeadFail, CheckAux, FixedLenX, HasCaptures, Gets;
    var k := t.rule;
    var code := Gen(g, t, opt, tt, fl, false);
    assert code[0] == I(IOpenCall, 0, k);
    assert SlotOk(c.code, a + 0, code[0], c.at);
    var st' := Push(Return(a + 2), st);
    var x, b := Run(a, i, caps, st), a + 2;
    One(c, x, Run(c.at[k], i, caps, st'));
    RunRule(c, g, k, i, caps, st', n - 1);
    var r := Eval(g, g[k], c.s, i, n - 1);
    if r.Yes? {
      Then(c, x, Run(c.at[k], i, caps, st'), Run(b, r.j, caps + r.caps, st));
      Arrives(c, x, b, r.j, caps, r.caps, opt, st, fl);
    }
    if r.No? { Then(c, x, Run(c.at[k], i, caps, st'), Backtrack(st, caps)); }
  }

  /** A called rule returns to its caller or fails. */
  lemma RunRule(c: Ctx, g: seq<Tree>, k: nat, i: nat, caps: seq<Cap>, st: Stack, n: nat)
    requires i <= |c.s| && Env(c, g) && k < |g| && st.Push? && st.top.Return? && LevelOk(st, |caps|)
    ensures var r := Eval(g, g[k], c.s, i, n);
            && (r.Yes? ==> Gets(c, Run(c.at[k], i, caps, st), Run(st.top.p, r.j, caps + r.caps, st.rest)))
            && (r.No? ==> Gets(c, Run(c.at[k], i, caps, st), Backtrack(st.rest, caps)))
    decreases n, g[k], |c.s| - i, 3
  {
    hide GetFirst, HeadFail, CheckAux, FixedLenX, HasCaptures, Linked, Gets;
    assert RuleOk(c, g, k);
    var a, y := c.at[k], Gen(g, g[k], false, NoTest, FULL, false);
    LinkedSplit(c.code, a, y, [Op(IRet)], c.at);
    Linked1(c.code, a + |y|, Op(IRet), c.at);
    Sim(c, g, g[k], false, NoTest, FULL, a, i, caps, st, n);
    var r := Eval(g, g[k], c.s, i, n);
    if r.Yes? {
      var z, w := Run(a + |y|, r.j, caps + r.caps, st), Run(st.top.p, r.j, caps + r.caps, st.rest);
      One(c, z, w);
      Then(c, Run(a, i, caps, st), z, w);
    }
  }

  lemma SimGrammar(c: Ctx, g: seq<Tree>, t: Tree, opt: bool, tt: Test, fl: Charset, a: int, i: nat, caps: seq<Cap>,
                   st: Stack, n: nat)
    requires Ready(c, g, t, opt, tt, fl, a, i, caps, st) && t.TGrammar?
    ensures Good(c, Run(a, i, caps, st), End(g, t, opt, tt, fl, a), caps, opt, st, fl, Eval(g, t, c.s, i, n))
    decreases n, t, |c.s| - i, 0
  {
    hide GetFirst, HeadFail, CheckAux, FixedLenX, HasCaptures, Linked, Gen;
    var c' := GrammarEnv(c, g, t.rules, a, opt, tt, fl);
    var st' := Push(Return(a + 2), st);
    var x, b := Run(a, i, caps, st), End(g, t, opt, tt, fl, a);
    One(c, x, Run(a + 4, i, caps, st'));
    RunRule(c', t.rules, 0, i, caps, st', n);
    var r := Eval(t.rules, t.rules[0], c.s, i, n);
    if r.Yes? {
      var z, w := Run(a + 2, r.j, caps + r.caps, st), Run(b, r.j, caps + r.caps, st);
      assert Gets(c, Run(a + 4, i, caps, st'), z);
      One(c, z, w);
      Then(c, x, Run(a + 4, i, caps, st'), z);
      Then(c, x, z, w);
      Arrives(c, x, b, r.j, caps, r.caps, opt, st, fl);
    }
    if r.No? {
      assert Gets(c, Run(a + 4, i, caps, st'), Backtrack(st, caps));
      Then(c, x, Run(a + 4, i, caps, st'), Backtrack(st, caps));
    }
  }

  /** The code of a grammar provides the environment its rules run in. */
  lemma GrammarEnv(c: Ctx, g: seq<Tree>, rules: seq<Tree>, a: int, opt: bool, tt: Test, fl: Charset) returns (c': Ctx)
    requires Wf(g, TGrammar(rules)) && OptSafe(g, TGrammar(rules), opt, fl)
    requires Linked(c.code, a, Gen(g, TGrammar(rules), opt, tt, fl, false), c.at)
    ensures c'.code == c.code && c'.s == c.s && Env(c', rules) && c'.at[0] == a + 4
    ensures 0 <= a && At(c.code, a + 3)
    ensures c.code[a] == Op(ICall) && c.code[a + 1] == Off(4)
    ensures c.code[a + 2] == Op(IJmp) && c.code[a + 3] == Off(|Gen(g, TGrammar(rules), opt, tt, fl, false)| - 2)
  {
    hide Gen, Wf, OptSafe, Linked, RulesCode, ResolveCalls, Tidy;
    GrammarParts(g, rules, opt, tt, fl);
    var body, pos := RulesCode(rules, rules, false), Positions(rules, rules, 0, false);
    var head := [Op(ICall), Off(4), Op(IJmp), Off(2 + |body|)];
    LinkedSplit(c.code, a, head, ResolveCalls(body, pos), c.at);
    assert head == [Op(ICall), Off(4)] + [Op(IJmp), Off(2 + |body|)];
    LinkedSplit(c.code, a, [Op(ICall), Off(4)], [Op(IJmp), Off(2 + |body|)], c.at);
    Linked2(c.code, a, Op(ICall), Off(4), c.at);
    Linked2(c.code, a + 2, Op(IJmp), Off(2 + |body|), c.at);
    var at := seq(|pos|, k requires 0 <= k < |pos| => a + 4 + pos[k]);
    c' := Ctx(c.code, c.s, at);
    RulesTidy(rules, rules, false);
    ResolvedLinked(c.code, a + 4, body, pos, c.at, at);
    RulesLinked(c', rules, rules, 0, a + 4);
    forall k | 0 <= k < |rules| ensures RuleOk(c', rules, k) {}
  }

  lemma GrammarParts(g: seq<Tree>, rules: seq<Tree>, opt: bool, tt: Test, fl: Charset)
    requires Wf(g, TGrammar(rules)) && OptSafe(g, TGrammar(rules), opt, fl)
    ensures rules != [] && forall k :: 0 <= k < |rules| ==> Wf(rules, rules[k]) && OptSafe(rules, rules[k], false, FULL)
    ensures var body, pos := RulesCode(rules, rules, false), Positions(rules, rules, 0, false);
      && Gen(g, TGrammar(rules), opt, tt, fl, false)
         == [Op(ICall), Off(4), Op(IJmp), Off(2 + |body|)] + ResolveCalls(body, pos)
      && |ResolveCalls(body, pos)| == |body| && pos[0] == 0
  {
    hide RulesCode;
  }

  lemma ResolvedLinked(code: seq<Slot>, a: int, body: seq<Slot>, pos: seq<nat>, at: seq<int>, at': seq<int>)
    requires Linked(code, a, ResolveCalls(body, pos), at)
    requires Tidy(body, |pos|)
    requires |at'| == |pos| && forall k :: 0 <= k < |pos| ==> at'[k] == a + pos[k]
    ensures Linked(code, a, body, at')
  {
    var z := ResolveCalls(body, pos);
    forall j | 0 <= j < |body| ensures SlotOk(code, a + j, body[j], at') {
      assert SlotOk(code, a + j, z[j], at);
      assert z[j] == ResolvedSlot(body, pos, j);
      if IsOp(body, j, IOpenCall) {
        assert TidyAt(body, j, 0, |body|, |pos|);
        assert SlotOk(code, a + (j + 1), z[j + 1], at);
        assert z[j + 1] == ResolvedSlot(body, pos, j + 1);
      }
    }
  }

  /** In the code of a list of rules, each rule is at its position. */
  lemma {:induction false} RulesLinked(c: Ctx, g: seq<Tree>, rs: seq<Tree>, from: nat, a: int)
    requires Linked(c.code, a, RulesCode(g, rs, false), c.at)
    ensures forall k :: 0 <= k < |rs| ==>
                          Linked(c.code, a - from + Positions(g, rs, from, false)[k], RuleCode(g, rs[k], false), c.at)
    decreases rs
  {
    hide GetFirst, HeadFail, CheckAux, FixedLenX, HasCaptures, Linked, Gets, Gen, RuleCode;
    if rs != [] {
      var y := RuleCode(g, rs[0], false);
      LinkedSplit(c.code, a, y, RulesCode(g, rs[1..], false), c.at);
      RulesLinked(c, g, rs[1..], from + |y|, a + |y|);
      forall k | 0 <= k < |rs| ensures
          Linked(c.code, a - from + Positions(g, rs, from, false)[k], RuleCode(g, rs[k], false), c.at)
      {
        if k > 0 { assert rs[1..][k - 1] == rs[k]; }
      }
    }
  }

  /** The code of a tree does what the tree means. */
  lemma Sim(c: Ctx, g: seq<Tree>, t: Tree, opt: bool, tt: Test, fl: Charset, a: int, i: nat, caps: seq<Cap>, st: Stack,
            n: nat)
    requires Ready(c, g, t, opt, tt, fl, a, i, caps, st)
    ensures Good(c, Run(a, i, caps, st), End(g, t, opt, tt, fl, a), caps, opt, st, fl, Eval(g, t, c.s, i, n))
    decreases n, t, |c.s| - i, 2
  {
    hide GetFirst, HeadFail, CheckAux, FixedLenX, HasCaptures, Linked, Gets;
    match t
    case TSeq(_, _) => SimSeq(c, g, t, opt, tt, fl, a, i, caps, st, n);
    case TChoice(p1, p2) =>
      if ChoiceByTest(g, p1, p2, fl) { SimChoiceTested(c, g, t, opt, tt, fl, a, i, caps, st, n); }
      else if opt && p2.TTrue? { SimChoicePartial(c, g, t, tt, a, i, caps, st, n); }
      else { SimChoiceFull(c, g, t, opt, tt, fl, a, i, caps, st, n); }
    case TRep(p) =>
      if IsCharset(p) {
        SpanEval(g, t, c.s, i, n);
        RepSpanRuns(c, a, ToCharset(p), i, caps, opt, st, fl);
      }
      else if RepByTest(g, p, fl) { SimRepTested(c, g, t, opt, tt, fl, a, i, caps, st, n); }
      else { SimRepChoice(c, g, t, opt, tt, fl, a, i, caps, st, n); }
    case TNot(_) => SimNot(c, g, t, opt, tt, fl, a, i, caps, st, n);
    case TAnd(p) =>
      if AndByBehind(g, p) { SimAndBehind(c, g, t, opt, tt, fl, a, i, caps, st, n); }
      else { SimAndChoice(c, g, t, opt, tt, fl, a, i, caps, st, n); }
    case TBehind(_, _) => SimBehind(c, g, t, opt, tt, fl, a, i, caps, st, n);
    case TCapture(_, _, p) =>
      if CaptureByLen(g, p) { SimCaptureFull(c, g, t, opt, tt, fl, a, i, caps, st, n); }
      else { SimCaptureOpen(c, g, t, opt, tt, fl, a, i, caps, st, n); }
    case TCall(_) => if n > 0 { SimCall(c, g, t, opt, tt, fl, a, i, caps, st, n); }
    case TGrammar(_) => SimGrammar(c, g, t, opt, tt, fl, a, i, caps, st, n);
    case _ => SimLeaf(c, g, t, opt, tt, fl, a, i, caps, st, n);
  }

  /** The answer the matching machine should give. */
  function AnswerOf(r: Res): Answer
    requires r != Out
  {
    if r.No? then GaveUp else Matched(r.j, r.caps)
  }

  /** Whole patterns: the program answers as the semantics does, wherever the semantics has an answer. */
  lemma ProgramCorrect(t: Tree, s: seq<Byte>, i: nat, n: nat)
    requires Wf([], t) && OptSafe([], t, false, FULL) && i <= |s|
    requires Eval([], t, s, i, n) != Out
    ensures Answers(Program(t, false), s, i, AnswerOf(Eval([], t, s, i, n)))
  {
    hide GetFirst, HeadFail, CheckAux, FixedLenX, HasCaptures, Gen, Gets;
    var y := Gen([], t, false, NoTest, FULL, false);
    var c := Ctx(Program(t, false), s, []);
    GenTidy([], t, false, NoTest, FULL, false);
    forall j | 0 <= j < |y| ensures SlotOk(c.code, 0 + j, y[j], []) {
      assert TidyAt(y, j, 0, |y|, 0);
      assert c.code[j] == y[j];
    }
    var st := Start(i).st;
    Sim(c, [], t, false, NoTest, FULL, 0, i, [], st, n);
    var r := Eval([], t, s, i, n);
    var x, b := Start(i), |y|;
    if r.No? {
      var none: seq<Cap> := [];
      assert none[..0] == none;
      One(c, Run(GIVEUP, i, [], Empty), Halt(GaveUp));
      Then(c, x, Run(GIVEUP, i, [], Empty), Halt(GaveUp));
    } else {
      assert [] + r.caps == r.caps;
      One(c, Run(b, r.j, r.caps, st), Halt(Matched(r.j, r.caps)));
      Then(c, x, Run(b, r.j, r.caps, st), Halt(Matched(r.j, r.caps)));
    }
  }
}
