/** Where lpcode.c and lptree.c do not do what their comments say: inputs that show it. */
module Limits {
  import opened Common
  import opened PegTree
  import opened Peg
  import opened Analysis
  import opened Vm
  import opened Layout
  import opened Code
  import opened Simulation
  import opened Peephole
  import opened GrammarCheck
  import opened Compiler
  import opened Lpeg

  // ----- a repetition that reuses a choice its body commits partially -----

  /** (ab)? */
  function Tail(): Tree { TChoice(TSeq(TChar(97), TChar(98)), TTrue) }
  /** a (ab)? */
  function Body(): Tree { TSeq(TChar(97), Tail()) }
  /** xy (a (ab)?)* */
  function Inner(): Tree { TSeq(TChar(120), TSeq(TChar(121), TRep(Body()))) }
  /** (xy (a (ab)?)*)? */
  function Optional(): Tree { TChoice(Inner(), TTrue) }
  /** "xyaac" */
  function Subject(): seq<Byte> { [120, 121, 97, 97, 99] }

  lemma SingletonType(c: Byte)
    ensures CharsetType({c}) == Singleton(c)
  {
    CharsetTypeMeans({c});
    var d: Byte := if c == 0 then 1 else 0;
    assert d in FULL && d !in {c};
  }

  lemma TailCode()
    ensures UsesOpt([], Tail()) && UsesOpt([], Body())
    ensures Gen([], Body(), true, TestChar(97), FULL, true)
         == [Op(IAny), Op(IPartialCommit), Off(2), I(IChar, 97, 0), I(IChar, 98, 0)]
  {
    var ab := TSeq(TChar(97), TChar(98));
    assert GetFirst([], ab, FULL, DEPTH) == First({97}, false);
    assert 97 in FULL;
    assert !ChoiceByTest([], ab, TTrue, FULL);
    assert Gen([], ab, true, NoTest, FULL, true) == [I(IChar, 97, 0)] + [I(IChar, 98, 0)];
    assert FixedLen([], TChar(97)) == 1;
    assert Gen([], Tail(), true, NoTest, FULL, true) == ChoicePartial([I(IChar, 97, 0)] + [I(IChar, 98, 0)]);
    assert Gen([], Body(), true, TestChar(97), FULL, true) == [Op(IAny)] + Gen([], Tail(), true, NoTest, FULL, true);
  }

  lemma RepeatCode()
    ensures RepByTest([], Body(), FULL)
    ensures Gen([], TRep(Body()), true, NoTest, FULL, true)
         == [I(ITestChar, 97, 0), Off(9), Op(IAny), Op(IPartialCommit), Off(2), I(IChar, 97, 0), I(IChar, 98, 0),
             Op(IJmp), Off(-7)]
  {
    SingletonType(97);
    TailCode();
    assert CheckAux([], Tail(), PEnofail, DEPTH);
    assert HeadFail([], TChar(97), DEPTH);
    assert HeadFail([], Body(), DEPTH);
    assert GetFirst([], Body(), FULL, DEPTH) == First({97}, false);
  }

  lemma InnerCode()
    ensures Gen([], Inner(), true, TestChar(120), FULL, true)
         == [Op(IAny), I(IChar, 121, 0)] + Gen([], TRep(Body()), true, NoTest, FULL, true)
  {
    hide Body, RepTested, RepChoice, GetFirst, HeadFail;
    var rep := TRep(Body());
    var rest := TSeq(TChar(121), rep);
    assert Gen([], rest, true, NoTest, FULL, true) == [I(IChar, 121, 0)] + Gen([], rep, true, NoTest, FULL, true);
    assert FixedLen([], TChar(120)) == 1;
    assert Gen([], Inner(), true, TestChar(120), FULL, true) == [Op(IAny)] + Gen([], rest, true, NoTest, FULL, true);
  }

  lemma InnerFirst()
    ensures GetFirst([], Inner(), FULL, DEPTH) == First({120}, false)
    ensures !ChoiceByTest([], Inner(), TTrue, FULL)
  {
    hide Body;
    var rest := TSeq(TChar(121), TRep(Body()));
    assert !CheckAux([], rest, PEnofail, DEPTH);
    assert 120 in FULL;
  }

  /** The code of the optional pattern. */
  function BadCode(): seq<Slot> {
    [I(ITestChar, 120, 0), Off(17), Op(IChoice), Off(15), Op(IAny), I(IChar, 121, 0),
     I(ITestChar, 97, 0), Off(9), Op(IAny), Op(IPartialCommit), Off(2), I(IChar, 97, 0), I(IChar, 98, 0),
     Op(IJmp), Off(-7), Op(ICommit), Off(2), Op(IEnd)]
  }

  lemma OptionalGen()
    ensures Gen([], Optional(), false, NoTest, FULL, true)
         == ChoiceFull(First({120}, false), Gen([], Inner(), true, TestChar(120), FULL, true), [])
  {
    hide Inner, GetFirst, HeadFail, ChoiceByTest, ChoiceFull;
    SingletonType(120);
    InnerFirst();
    assert Gen([], TTrue, false, NoTest, FULL, true) == [];
  }

  lemma OptionalCode()
    ensures Program(Optional(), true) == BadCode()
  {
    hide Gen, CharsetType;
    SingletonType(120);
    RepeatCode();
    InnerCode();
    OptionalGen();
  }

  /** The machine leaves the repetition after one iteration. */
  lemma BadRun()
    ensures Answers(BadCode(), Subject(), 0, Matched(3, []))
  {
    var p, s, g := BadCode(), Subject(), Push(Choice(GIVEUP, 0, 0), Empty);
    var st, st' := Push(Choice(17, 0, 0), g), Push(Choice(17, 3, 0), g);
    var none: seq<Cap> := [];
    assert none[..0] == none;
    Follow(p, s, Run(17, 3, [], g), Halt(Matched(3, [])), Halt(Matched(3, [])));
    Follow(p, s, Run(12, 4, [], st'), Run(17, 3, [], g), Halt(Matched(3, [])));
    Follow(p, s, Run(11, 3, [], st'), Run(12, 4, [], st'), Halt(Matched(3, [])));
    Follow(p, s, Run(9, 3, [], st), Run(11, 3, [], st'), Halt(Matched(3, [])));
    Follow(p, s, Run(8, 2, [], st), Run(9, 3, [], st), Halt(Matched(3, [])));
    Follow(p, s, Run(6, 2, [], st), Run(8, 2, [], st), Halt(Matched(3, [])));
    Follow(p, s, Run(5, 1, [], st), Run(6, 2, [], st), Halt(Matched(3, [])));
    Follow(p, s, Run(4, 0, [], st), Run(5, 1, [], st), Halt(Matched(3, [])));
    Follow(p, s, Run(2, 0, [], g), Run(4, 0, [], st), Halt(Matched(3, [])));
    Follow(p, s, Start(0), Run(2, 0, [], g), Halt(Matched(3, [])));
  }

  /** One step, then the rest of a run. */
  lemma Follow(p: seq<Slot>, s: seq<Byte>, a: State, b: State, c: State)
    requires Step(p, s, a) == b && (b == c || Reaches(p, s, b, c))
    ensures Reaches(p, s, a, c)
  {
    Reach1(p, s, a);
    if b != c { ReachTrans(p, s, a, b, c); }
  }

  lemma BadMeaning()
    ensures Eval([], Optional(), Subject(), 0, 0) == Yes(4, [])
  {
    var s, rep := Subject(), TRep(Body());
    assert Eval([], Body(), s, 4, 0) == No;
    assert Eval([], rep, s, 4, 0) == Yes(4, []);
    assert Eval([], Tail(), s, 4, 0) == Yes(4, []);
    assert Eval([], Body(), s, 3, 0) == Yes(4, []);
    assert Eval([], rep, s, 3, 0) == Yes(4, []);
    assert Eval([], TSeq(TChar(97), TChar(98)), s, 3, 0) == No;
    assert Eval([], Tail(), s, 3, 0) == Yes(3, []);
    assert Eval([], Body(), s, 2, 0) == Yes(3, []);
    assert Eval([], rep, s, 2, 0) == Yes(4, []);
    assert Eval([], TSeq(TChar(121), rep), s, 1, 0) == Yes(4, []);
    assert Eval([], Inner(), s, 0, 0) == Yes(4, []);
  }

  /** A pattern the library accepts, on which compiled code and semantics differ: 'coderep' hands the enclosing choice
      to a loop body that commits it partially. OptSafe shuts out all such patterns. */
  lemma ReusedChoiceIsWrong()
    ensures Checked(Optional()) && Wf([], Optional()) && SearchesEnd([], Optional())
    ensures !OptSafe([], Optional(), false, FULL)
    ensures Eval([], Optional(), Subject(), 0, 0) == Yes(4, [])
    ensures Answers(Compiled(Optional()), Subject(), 0, Matched(3, []))
  {
    hide Answers;
    BadMeaning();
    BadRun();
    OptionalCode();
    PeepAnswers(BadCode(), 0, Subject(), 0, Matched(3, []));
    OptionalAccepted();
  }

  lemma OptionalAccepted()
    ensures Checked(Optional()) && Wf([], Optional()) && SearchesEnd([], Optional())
    ensures !OptSafe([], Optional(), false, FULL)
  {
    hide GetFirst, HeadFail, ChoiceByTest, RepByTest, UsesOpt, OptSafe;
    assert !CheckAux([], Body(), PEnullable, DEPTH);
    OptionalUnsafe();
  }

  lemma OptionalUnsafe()
    ensures !OptSafe([], Optional(), false, FULL)
  {
    hide GetFirst, HeadFail, ChoiceByTest, RepByTest, UsesOpt;
    RepeatCode();
    TailCode();
    InnerFirst();
    var rep := TRep(Body());
    assert !OptSafe([], rep, true, FULL);
    assert !OptSafe([], TSeq(TChar(121), rep), true, FULL);
    assert !OptSafe([], Inner(), true, FULL);
  }

  /** Line 762 of lpcode.c changes the code exactly when the body commits the enclosing choice partially. */
  lemma {:induction false} OptMatters(g: seq<Tree>, t: Tree, tt: Test, tail: bool)
    ensures Gen(g, t, true, tt, FULL, tail) == Gen(g, t, false, tt, FULL, tail) <==> !UsesOpt(g, t)
  {
    if !UsesOpt(g, t) {
      UnusedOpt(g, t, tt, tail);
    } else {
      UsedOpt(g, t, tt, tail);
    }
  }

  lemma {:induction false} UsedOpt(g: seq<Tree>, t: Tree, tt: Test, tail: bool)
    requires UsesOpt(g, t)
    ensures Gen(g, t, true, tt, FULL, tail) != Gen(g, t, false, tt, FULL, tail)
  {
    hide GetFirst, HeadFail, CheckAux, FixedLenX, HasCaptures, ChoiceTested, ChoiceFull, ChoicePartial, RepTested;
    hide RepChoice, MaybeTest;
    match t
    case TSeq(p1, p2) =>
      var y := Gen(g, p1, false, tt, SeqFollow(g, p1, p2, FULL), tail);
      var tt2 := SeqTest(g, p1, tt);
      UsedOpt(g, p2, tt2, tail);
      SuffixDiffers(y, Gen(g, p2, true, tt2, FULL, tail), Gen(g, p2, false, tt2, FULL, tail));
    case TChoice(p1, p2) =>
      var f1 := GetFirst(g, p1, FULL, DEPTH);
      if ChoiceByTest(g, p1, p2, FULL) {
        UsedOpt(g, p2, NoTest, tail);
        TestedDiffers(f1.cs, Gen(g, p1, false, TestInfo(f1.cs), FULL, tail), Gen(g, p2, true, NoTest, FULL, tail),
                      Gen(g, p2, false, NoTest, FULL, tail), p2.TTrue?);
      } else if p2.TTrue? {
        PartialDiffers(f1, Gen(g, p1, true, NoTest, FULL, tail), Gen(g, p1, true, MaybeInfo(f1), FULL, tail),
                       Gen(g, p2, false, NoTest, FULL, tail));
      } else {
        UsedOpt(g, p2, NoTest, tail);
        FullDiffers(f1, Gen(g, p1, false, MaybeInfo(f1), FULL, tail), Gen(g, p2, true, NoTest, FULL, tail),
                    Gen(g, p2, false, NoTest, FULL, tail));
      }
    case TRep(p) =>
      var f := GetFirst(g, p, FULL, DEPTH);
      if RepByTest(g, p, FULL) {
        UsedOpt(g, p, TestInfo(f.cs), tail);
        RepTestedDiffers(f.cs, Gen(g, p, true, TestInfo(f.cs), FULL, tail),
                         Gen(g, p, false, TestInfo(f.cs), FULL, tail));
      } else {
        RepChoiceDiffers(f, Gen(g, p, false, NoTest, FULL, tail));
      }
  }

  lemma SuffixDiffers(x: seq<Slot>, y: seq<Slot>, z: seq<Slot>)
    requires y != z
    ensures x + y != x + z
  {
    assert y == (x + y)[|x|..];
    assert z == (x + z)[|x|..];
  }

  lemma TestedDiffers(cs: Charset, x1: seq<Slot>, y: seq<Slot>, z: seq<Slot>, empty: bool)
    requires y != z
    ensures ChoiceTested(cs, x1, y, empty) != ChoiceTested(cs, x1, z, empty)
  {
    hide TestCode;
    if |y| == |z| {
      var jmp := if empty then [] else [Op(IJmp), Off(2 + |y|)];
      SuffixDiffers(TestCode(cs, TestSize(cs) + |x1| + |jmp|) + x1 + jmp, y, z);
    }
  }

  lemma FullDiffers(f: First, x1: seq<Slot>, y: seq<Slot>, z: seq<Slot>)
    requires y != z
    ensures ChoiceFull(f, x1, y) != ChoiceFull(f, x1, z)
  {
    hide MaybeTest;
    if |y| == |z| {
      var test := MaybeTest(f, MaybeSize(f) + 4 + |x1|);
      SuffixDiffers(test + [Op(IChoice), Off(4 + |x1|)] + x1 + [Op(ICommit), Off(2 + |y|)], y, z);
    }
  }

  lemma PartialDiffers(f: First, x: seq<Slot>, x1: seq<Slot>, x2: seq<Slot>)
    ensures ChoicePartial(x) != ChoiceFull(f, x1, x2)
  {
    assert ChoicePartial(x)[0] == Op(IPartialCommit);
    if f.e { assert ChoiceFull(f, x1, x2)[0] == Op(IChoice); }
    else { assert ChoiceFull(f, x1, x2)[0] == TestInstr(f.cs); }
  }

  lemma RepTestedDiffers(cs: Charset, y: seq<Slot>, z: seq<Slot>)
    requires y != z
    ensures RepTested(cs, y) != RepTested(cs, z)
  {
    hide TestCode;
    if |y| == |z| {
      var test, jmp := TestCode(cs, TestSize(cs) + |y| + 2), [Op(IJmp), Off(-(TestSize(cs) + |y|))];
      assert y == (test + y + jmp)[|test|..|test| + |y|];
      assert z == (test + z + jmp)[|test|..|test| + |z|];
    }
  }

  lemma RepChoiceDiffers(f: First, y: seq<Slot>)
    ensures RepChoice(f, true, y) != RepChoice(f, false, y)
  {
    hide MaybeTest;
    assert RepChoice(f, true, y)[MaybeSize(f)] == Op(IPartialCommit);
    assert RepChoice(f, false, y)[MaybeSize(f)] == Op(IChoice);
  }

  // ----- searching a recursive rule for captures -----

  /** S <- 'a' &S / 'b' */
  function Recursive(): seq<Tree> {
    [TChoice(TSeq(TChar(97), TAnd(TCall(0))), TChar(98))]
  }

  /** A pattern that meets all other conditions: the grammar is accepted, the tree is one the library builds, no
      choice is reused. The code generator asks 'hascaptures' about the body of the look-ahead, and that search does
      not end. */
  lemma CaptureSearchDiverges(d: nat)
    ensures var t := TGrammar(Recursive());
      Checked(t) && Wf([], t) && OptSafe([], t, false, FULL) && !SearchesEnd([], t)
    ensures 0 <= FixedLen(Recursive(), TCall(0)) <= MAXBEHIND && Search(Recursive(), TCall(0), d) == Endless
  {
    hide Search, Visit;
    RecursiveAccepted();
    RecursiveLength();
    RecursiveVisit();
    SearchEnds(Recursive(), TCall(0));
    RecursiveOther();
  }

  lemma RecursiveVisit()
    ensures Visit(Recursive(), TCall(0), {}) == Endless
  {
    var g := Recursive();
    assert VisitFrom(g, 0, {0}) == Endless;
    assert Visit(g, TAnd(TCall(0)), {0}) == Endless;
    assert Visit(g, TSeq(TChar(97), TAnd(TCall(0))), {0}) == Endless;
    assert Visit(g, g[0], {0}) == Endless;
    assert {} + {0} == {0};
  }

  lemma RecursiveLength()
    ensures FixedLen(Recursive(), TCall(0)) == 1
  {
    var g := Recursive();
    assert FixedLenX(g, TSeq(TChar(97), TAnd(TCall(0))), 1, 0) == 1;
  }

  lemma RecursiveOther()
    ensures Wf([], TGrammar(Recursive())) && OptSafe([], TGrammar(Recursive()), false, FULL)
    ensures Visit(Recursive(), TCall(0), {}) == Endless && FixedLen(Recursive(), TCall(0)) == 1 ==>
      !SearchesEnd([], TGrammar(Recursive()))
  {
    hide FixedLenX, Visit, Wf, OptSafe;
    RecursiveWf();
    RecursiveSafe();
    var g := Recursive();
    var body := TSeq(TChar(97), TAnd(TCall(0)));
    assert SearchesEnd(g, g[0]) ==> SearchesEnd(g, body) && SearchesEnd(g, TAnd(TCall(0)));
  }

  lemma RecursiveWf()
    ensures Wf([], TGrammar(Recursive()))
  {
    var g := Recursive();
    assert Wf(g, TSeq(TChar(97), TAnd(TCall(0))));
    assert Wf(g, g[0]);
  }

  lemma RecursiveSafe()
    ensures OptSafe([], TGrammar(Recursive()), false, FULL)
  {
    hide GetFirst, HeadFail, CheckAux, ChoiceByTest;
    var g := Recursive();
    assert forall fl :: OptSafe(g, TSeq(TChar(97), TAnd(TCall(0))), false, fl);
    assert OptSafe(g, g[0], false, FULL);
  }

  lemma RecursiveAccepted()
    ensures Checked(TGrammar(Recursive()))
  {
    var g := Recursive();
    var body := TSeq(TChar(97), TAnd(TCall(0)));
    assert VerifyRule(g, body, MAXRULES, false, true) == Passed(false);
    assert Calls(body) == {0};
    assert !CheckLoops(g, body) && Fit(body);
  }

  // ----- left recursion behind a nested grammar -----

  /** S <- (&'a' / G) S, with a grammar G <- 'b' nested in it. */
  function Nested(): seq<Tree> {
    [TSeq(TChoice(TAnd(TChar(97)), TGrammar([TChar(98)])), TCall(0))]
  }

  /** 'verifyrule' forgets at a nested grammar that an earlier alternative was nullable: the check passes,
      but matching the rule calls itself at the same position forever. With the flag kept the check fails. */
  lemma {:induction false} NestedGrammarLoops(n: nat)
    ensures VerifyGrammar(Nested(), false) && Loses(Nested(), Nested()[0], MAXRULES, false)
    ensures !VerifyGrammar(Nested(), true)
    ensures Eval(Nested(), Nested()[0], [97], 0, n) == Out
  {
    hide VerifyGrammar, Loses;
    NestedVerified();
    NestedLost(MAXRULES);
    NestedRejected();
    var g := Nested();
    var p1 := TChoice(TAnd(TChar(97)), TGrammar([TChar(98)]));
    assert Eval(g, TAnd(TChar(97)), [97], 0, n) == Yes(0, []);
    assert Eval(g, p1, [97], 0, n) == Yes(0, []);
    if n > 0 { NestedGrammarLoops(n - 1); }
    assert Eval(g, TCall(0), [97], 0, n) == Out;
  }

  lemma NestedVerified()
    ensures VerifyGrammar(Nested(), false)
  {
    var g := Nested();
    var p1 := TChoice(TAnd(TChar(97)), TGrammar([TChar(98)]));
    assert CheckAux([TChar(98)], TChar(98), PEnullable, DEPTH) == false;
    assert VerifyRule(g, TGrammar([TChar(98)]), MAXRULES, true, false) == Passed(false);
    assert VerifyRule(g, TAnd(TChar(97)), MAXRULES, false, false) == Passed(true);
    assert VerifyRule(g, p1, MAXRULES, false, false) == Passed(false);
  }

  /** With the flag kept the rule enters itself until no more rules may be entered. */
  lemma {:induction false} NestedLost(left: nat)
    ensures VerifyRule(Nested(), Nested()[0], left, false, true) == Rejected
    ensures Loses(Nested(), Nested()[0], left, false)
  {
    var g := Nested();
    var p1 := TChoice(TAnd(TChar(97)), TGrammar([TChar(98)]));
    assert CheckAux([TChar(98)], TChar(98), PEnullable, DEPTH) == false;
    assert VerifyRule(g, TAnd(TChar(97)), left, false, true) == Passed(true);
    assert VerifyRule(g, TAnd(TChar(97)), left, false, false) == Passed(true);
    assert VerifyRule(g, TGrammar([TChar(98)]), left, true, true) == Passed(true);
    assert VerifyRule(g, p1, left, false, true) == Passed(true);
    assert Loses(g, TGrammar([TChar(98)]), left, true);
    assert Loses(g, p1, left, false);
    if left > 0 { NestedLost(left - 1); }
  }

  lemma NestedRejected()
    ensures !VerifyGrammar(Nested(), true)
  {
    hide VerifyRule;
    NestedLost(MAXRULES);
    assert Used(Nested(), 0);
  }

  // ----- left recursion under a look-behind -----

  /** S <- B('a' &S), where B looks behind. */
  function Behind(): seq<Tree> {
    [TBehind(1, TSeq(TChar(97), TAnd(TCall(0))))]
  }

  /** Only an assertion of 'hascaptures' keeps calls out of a look-behind, and assertions are off unless LPEG_DEBUG is
      defined. So 'lp_behind' takes this body, in which the call is still open, 'verifyrule' does not look into it, and
      matching calls the rule at the same position forever. */
  lemma {:induction false} BehindCallLoops(n: nat)
    ensures var p := Behind()[0].p; Calls(p) == {0} && FixedLen([], p) == 1 && !HasCaptures([], p)
    ensures VerifyGrammar(Behind(), true)
    ensures Eval(Behind(), Behind()[0], [97], 1, n) == Out
  {
    hide VerifyGrammar;
    BehindVerified();
    BehindTaken();
    var g := Behind();
    assert Eval(g, TChar(97), [97], 0, n) == Yes(1, []);
    if n > 0 { BehindCallLoops(n - 1); }
    assert Eval(g, TCall(0), [97], 1, n) == Out;
    assert Eval(g, TAnd(TCall(0)), [97], 1, n) == Out;
    assert Eval(g, g[0].p, [97], 0, n) == Out;
  }

  lemma BehindVerified()
    ensures VerifyGrammar(Behind(), true)
  {
    var g := Behind();
    assert VerifyRule(g, g[0], MAXRULES, false, true) == Passed(true);
    assert !CheckLoops(g, g[0].p);
  }

  lemma BehindTaken()
    ensures var p := Behind()[0].p; Calls(p) == {0} && FixedLen([], p) == 1 && !HasCaptures([], p)
  {
    var p := Behind()[0].p;
    assert VisitFrom([], 0, {}) == NoCap;
    assert Visit([], TAnd(TCall(0)), {}) == NoCap;
    assert FixedLenX([], TChar(97), 0, 0) == 1;
    assert Calls(TAnd(TCall(0))) == {0};
  }

  // ----- rule numbers that do not fit in a byte -----

  /** 258 rules: the first matches an 'a' and calls rule r, rule 1 matches the empty string, the others match
      nothing. */
  function Wide(r: nat): seq<Tree> {
    seq(258, k => if k == 0 then TSeq(TChar(97), TCall(r)) else if k == 1 then TTrue else TFalse)
  }

  lemma {:induction false} SameRules(g: seq<Tree>, g': seq<Tree>, rs: seq<Tree>, rs': seq<Tree>, from: nat, tail: bool)
    requires |rs| == |rs'| && forall k :: 0 <= k < |rs| ==> RuleCode(g, rs[k], tail) == RuleCode(g', rs'[k], tail)
    ensures RulesCode(g, rs, tail) == RulesCode(g', rs', tail)
    ensures Positions(g, rs, from, tail) == Positions(g', rs', from, tail)
    decreases |rs|
  {
    hide RuleCode;
    if rs != [] { SameRules(g, g', rs[1..], rs'[1..], from + |RuleCode(g, rs[0], tail)|, tail); }
  }

  lemma WideRule(r: nat, k: nat)
    requires k < |Wide(r)|
    ensures RuleCode(Wide(r), Wide(r)[k], true) ==
      if k == 0 then [I(IChar, 97, 0), I(IOpenCall, 0, r % RULENUMBERS), Hole, Op(IRet)]
      else if k == 1 then [Op(IRet)] else [Op(IFail), Op(IRet)]
  {
    var g := Wide(r);
    if k == 0 {
      assert FixedLen(g, TChar(97)) == 1;
      assert Gen(g, TChar(97), false, NoTest, FULL, true) == [I(IChar, 97, 0)];
      assert Gen(g, g[0], false, NoTest, FULL, true) == [I(IChar, 97, 0)] + [I(IOpenCall, 0, r % RULENUMBERS), Hole];
    }
  }

  /** The code for a call of rule 257 calls rule 1: the machine matches "a", the grammar does not.
      Up to MAXRULES rules are accepted, but only calls of the first 256 are compiled as written; Wf asks for that. */
  lemma WideGrammarIsWrong()
    ensures |Wide(257)| <= MAXRULES && VerifyGrammar(Wide(257), true)
    ensures Eval([], TGrammar(Wide(257)), [97], 0, 1) == No
    ensures Answers(Compiled(TGrammar(Wide(257))), [97], 0, Matched(1, []))
  {
    hide Compiled, Answers, VerifyGrammar, Eval, Wf, OptSafe;
    WideSame();
    WideNarrow();
    WideEval(1, true);
    CompiledAnswers(TGrammar(Wide(1)), [97], 0, 1);
    WideEval(257, false);
    WideVerified();
  }

  lemma WideEval(r: nat, yes: bool)
    requires 0 < r < 258 && yes == (r == 1)
    ensures Eval([], TGrammar(Wide(r)), [97], 0, 1) == if yes then Yes(1, []) else No
  {
    var g := Wide(r);
    assert Eval(g, TChar(97), [97], 0, 1) == Yes(1, []);
    assert Eval(g, TCall(r), [97], 1, 1) == if yes then Yes(1, []) else No;
  }

  lemma WideSame()
    ensures Compiled(TGrammar(Wide(257))) == Compiled(TGrammar(Wide(1)))
  {
    hide RuleCode, Positions, RulesCode, CorrectCalls, PeepFrom, Wide;
    var g, g' := Wide(257), Wide(1);
    assert |g| == |g'| == 258 by { WideLength(257); WideLength(1); }
    forall k | 0 <= k < 258 ensures RuleCode(g, g[k], true) == RuleCode(g', g'[k], true) {
      WideRule(257, k);
      WideRule(1, k);
    }
    SameRules(g, g', g, g', 0, true);
  }

  lemma WideLength(r: nat)
    ensures |Wide(r)| == 258
  {
  }

  lemma WideNarrow()
    ensures Wf([], TGrammar(Wide(1))) && OptSafe([], TGrammar(Wide(1)), false, FULL)
  {
    var g := Wide(1);
    forall k | 0 <= k < 258 ensures Wf(g, g[k]) && OptSafe(g, g[k], false, FULL) {
    }
  }

  lemma WideVerified()
    ensures VerifyGrammar(Wide(257), true)
  {
    var g := Wide(257);
    assert CheckAux(g, TChar(97), PEnullable, DEPTH) == false;
    forall k | 0 <= k < 258 ensures VerifyRule(g, g[k], MAXRULES, false, true).Passed? && !CheckLoops(g, g[k]) {
    }
  }
}
