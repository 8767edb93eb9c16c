/** The shapes of code that lpcode.c emits, given the code of the sub-patterns.
    Offsets are relative, so the code of a pattern does not depend on where it is placed. */
module Layout {
  import opened Common
  import opened PegTree
  import opened Analysis
  import opened Vm

  /** Result of 'charsettype': IFail, IChar (with its character), IAny or ISet. */
  datatype SetKind = EmptySet | Singleton(c: Byte) | FullSet | OtherSet

  /** Classifies a set by the number of its characters, as 'charsettype' does. */
  function CharsetType(cs: Charset): SetKind {
    if |cs| == 0 then EmptySet
    else if |cs| == 1 then Singleton(OnlyMember(cs))
    else if |cs| == 256 then FullSet
    else OtherSet
  }

  function OnlyMember(cs: Charset): Byte
    requires |cs| == 1
  {
    OneMember(cs);
    var c: Byte :| c in cs;
    c
  }

  lemma OneMember(cs: Charset)
    requires |cs| == 1
    ensures exists c :: c in cs
    ensures forall c, c' :: c in cs && c' in cs ==> c == c'
  {
    var c :| c in cs;
    assert |cs - {c}| == 0;
    assert cs == (cs - {c}) + {c};
  }

  /** The classification says what the set is. */
  lemma CharsetTypeMeans(cs: Charset)
    ensures match CharsetType(cs)
            case EmptySet => cs == {}
            case Singleton(c) => cs == {c}
            case FullSet => cs == FULL
            case OtherSet => cs != {} && cs != FULL && forall c: Byte :: cs != {c}
  {
    BelowCount(256);
    assert FULL == Below(256);
    if |cs| == 1 {
      OneMember(cs);
      assert cs == {OnlyMember(cs)};
    }
    if |cs| == 256 { SubsetCard(cs, FULL); }
  }

  /** The first n characters. */
  function Below(n: nat): Charset
    requires n <= 256
  {
    if n == 0 then {} else Below(n - 1) + {n - 1}
  }

  lemma BelowCount(n: nat)
    requires n <= 256
    ensures |Below(n)| == n && forall c: Byte :: c in Below(n) <==> c < n
  {
    if n > 0 { BelowCount(n - 1); }
  }

  lemma SubsetCard(x: Charset, y: Charset)
    requires x <= y && |x| == |y|
    ensures x == y
  {
    assert y == x + (y - x);
    assert |y - x| == 0;
  }

  /** The test instruction that dominates a piece of code, as far as the code generator looks at it. */
  datatype Test = NoTest | TestChar(c: Byte) | TestSet(cs: Charset) | OtherTest

  function Op(op: Opcode): Slot { I(op, 0, 0) }

  function SetBuf(cs: Charset): (x: seq<Slot>)
    ensures |x| == CHARSETINSTSIZE - 1 && x[0] == Buf(cs)
  {
    [Buf(cs)] + seq(CHARSETINSTSIZE - 2, _ => Fill)
  }

  function CharCode(c: Byte, tt: Test): seq<Slot> {
    if tt == TestChar(c) then [Op(IAny)] else [I(IChar, c, 0)]
  }

  function CharsetCode(cs: Charset, tt: Test): seq<Slot> {
    match CharsetType(cs)
    case Singleton(c) => CharCode(c, tt)
    case OtherSet => if tt == TestSet(cs) then [Op(IAny)] else [Op(ISet)] + SetBuf(cs)
    case EmptySet => [Op(IFail)]
    case FullSet => [Op(IAny)]
  }

  function TestInstr(cs: Charset): Slot {
    match CharsetType(cs)
    case EmptySet => Op(IJmp)
    case FullSet => Op(ITestAny)
    case Singleton(c) => I(ITestChar, c, 0)
    case OtherSet => Op(ITestSet)
  }

  function TestTail(cs: Charset): seq<Slot> {
    if CharsetType(cs) == OtherSet then SetBuf(cs) else []
  }

  function TestCode(cs: Charset, off: int): (x: seq<Slot>)
    ensures |x| == TestSize(cs)
  {
    [TestInstr(cs), Off(off)] + TestTail(cs)
  }

  function TestSize(cs: Charset): nat {
    if CharsetType(cs) == OtherSet then 1 + CHARSETINSTSIZE else 2
  }

  function TestInfo(cs: Charset): Test {
    match CharsetType(cs)
    case Singleton(c) => TestChar(c)
    case OtherSet => TestSet(cs)
    case _ => OtherTest
  }

  /** 'codetestset' with its 'e' argument: no test at all when the empty subject is accepted. */
  function MaybeTest(f: First, off: int): (x: seq<Slot>)
    ensures |x| == MaybeSize(f)
  {
    if f.e then [] else TestCode(f.cs, off)
  }

  function MaybeSize(f: First): nat {
    if f.e then 0 else TestSize(f.cs)
  }

  function MaybeInfo(f: First): Test {
    if f.e then NoTest else TestInfo(f.cs)
  }

  // ----- layouts, given the code x of the sub-patterns -----

  /** test(fail(p1)) -> L1; p1; jmp L2; L1: p2; L2: */
  function ChoiceTested(cs: Charset, x1: seq<Slot>, x2: seq<Slot>, emptyp2: bool): seq<Slot> {
    var jmp := if emptyp2 then [] else [Op(IJmp), Off(2 + |x2|)];
    TestCode(cs, TestSize(cs) + |x1| + |jmp|) + x1 + jmp + x2
  }

  /** partialcommit L1; L1: p1 */
  function ChoicePartial(x1: seq<Slot>): seq<Slot> {
    [Op(IPartialCommit), Off(2)] + x1
  }

  /** test(fail(p1)) -> L1; choice L1; p1; commit L2; L1: p2; L2: */
  function ChoiceFull(f: First, x1: seq<Slot>, x2: seq<Slot>): seq<Slot> {
    MaybeTest(f, MaybeSize(f) + 4 + |x1|) + [Op(IChoice), Off(4 + |x1|)] + x1 + [Op(ICommit), Off(2 + |x2|)] + x2
  }

  function BehindIf(n: nat): seq<Slot> {
    if n > 0 then [I(IBehind, n, 0)] else []
  }

  /** choice L1; p; backcommit L2; L1: fail; L2: */
  function AndChoice(x: seq<Slot>): seq<Slot> {
    [Op(IChoice), Off(4 + |x|)] + x + [Op(IBackCommit), Off(3), Op(IFail)]
  }

  function CaptureFull(kind: nat, key: nat, len: nat, x: seq<Slot>): seq<Slot> {
    x + [I(IFullCapture, JoinKindOff(kind, len), key)]
  }

  function CaptureOpen(kind: nat, key: nat, x: seq<Slot>): seq<Slot> {
    [I(IOpenCapture, JoinKindOff(kind, 0), key)] + x + [I(ICloseCapture, JoinKindOff(CCLOSE, 0), 0)]
  }

  function RepSpan(cs: Charset): seq<Slot> {
    [Op(ISpan)] + SetBuf(cs)
  }

  /** L1: test(fail(p)) -> L2; p; jmp L1; L2: */
  function RepTested(cs: Charset, x: seq<Slot>): seq<Slot> {
    TestCode(cs, TestSize(cs) + |x| + 2) + x + [Op(IJmp), Off(-(TestSize(cs) + |x|))]
  }

  /** test(fail(p)) -> L2; choice L2; L1: p; partialcommit L1; L2: (or 'partialcommit' first, to reuse a choice) */
  function RepChoice(f: First, opt: bool, x: seq<Slot>): seq<Slot> {
    var enter := if opt then IPartialCommit else IChoice;
    MaybeTest(f, MaybeSize(f) + 4 + |x|) + [Op(enter), Off(if opt then 2 else 4 + |x|)] + x
    + [Op(IPartialCommit), Off(-|x|)]
  }

  /** test(fail(p)) -> L1; fail; L1: */
  function NotHead(f: First): seq<Slot> {
    MaybeTest(f, MaybeSize(f) + 1) + [Op(IFail)]
  }

  /** test(fail(p)) -> L1; choice L1; p; failtwice; L1: */
  function NotChoice(f: First, x: seq<Slot>): seq<Slot> {
    MaybeTest(f, MaybeSize(f) + 3 + |x|) + [Op(IChoice), Off(3 + |x|)] + x + [Op(IFailTwice)]
  }
}

/** The code that lpcode.c generates for a tree, as a function of the tree. */
module Code {
  import opened PegTree
  import opened Analysis
  import opened Vm
  import opened Layout

  // ----- decisions -----

  /** A plain test is enough to choose between p1 and p2 (condition of 'codechoice'). */
  predicate ChoiceByTest(g: seq<Tree>, p1: Tree, p2: Tree, fl: Charset) {
    var f1 := GetFirst(g, p1, FULL, DEPTH);
    HeadFail(g, p1, DEPTH) || (!f1.e && f1.cs !! GetFirst(g, p2, fl, DEPTH).cs)
  }

  /** A plain test is enough to leave the loop (condition of 'coderep'). */
  predicate RepByTest(g: seq<Tree>, p: Tree, fl: Charset) {
    var f := GetFirst(g, p, FULL, DEPTH);
    HeadFail(g, p, DEPTH) || (!f.e && f.cs !! fl)
  }

  predicate AndByBehind(g: seq<Tree>, p: Tree) {
    0 <= FixedLen(g, p) <= MAXBEHIND && !HasCaptures(g, p)
  }

  predicate CaptureByLen(g: seq<Tree>, p: Tree) {
    0 <= FixedLen(g, p) <= MAXOFF && !HasCaptures(g, p)
  }

  function SeqFollow(g: seq<Tree>, p1: Tree, p2: Tree, fl: Charset): Charset {
    if NeedFollow(p1) then GetFirst(g, p2, fl, DEPTH).cs else FULL
  }

  function SeqTest(g: seq<Tree>, p1: Tree, tt: Test): Test {
    if FixedLen(g, p1) == 0 then tt else NoTest
  }

  // ----- code generation -----

  /** Code for tree t of grammar g. 'opt': the code runs under a choice that jumps to its end.
      'tt': the test protecting it. 'fl': follow set. 'tail': calls in nested grammars are
      optimized as 'correctcalls' does; otherwise all of them stay calls. */
  function Gen(g: seq<Tree>, t: Tree, opt: bool, tt: Test, fl: Charset, tail: bool): seq<Slot>
    decreases t, 0
  {
    match t
    case TChar(c) => CharCode(c, tt)
    case TAny => [Op(IAny)]
    case TSet(cs) => CharsetCode(cs, tt)
    case TTrue => []
    case TFalse => [Op(IFail)]
    case TChoice(p1, p2) =>
      var f1 := GetFirst(g, p1, FULL, DEPTH);
      if ChoiceByTest(g, p1, p2, fl) then
        ChoiceTested(f1.cs, Gen(g, p1, false, TestInfo(f1.cs), fl, tail), Gen(g, p2, opt, NoTest, fl, tail), p2.TTrue?)
      else if opt && p2.TTrue? then
        ChoicePartial(Gen(g, p1, true, NoTest, FULL, tail))
      else
        ChoiceFull(f1, Gen(g, p1, p2.TTrue?, MaybeInfo(f1), FULL, tail), Gen(g, p2, opt, NoTest, fl, tail))
    case TRep(p) =>
      var f := GetFirst(g, p, FULL, DEPTH);
      if IsCharset(p) then RepSpan(ToCharset(p))
      else if RepByTest(g, p, fl) then RepTested(f.cs, Gen(g, p, opt, TestInfo(f.cs), FULL, tail))
      else RepChoice(f, opt, Gen(g, p, false, NoTest, FULL, tail))
    case TBehind(n, p) => BehindIf(n) + Gen(g, p, false, NoTest, FULL, tail)
    case TNot(p) =>
      var f := GetFirst(g, p, FULL, DEPTH);
      if HeadFail(g, p, DEPTH) then NotHead(f) else NotChoice(f, Gen(g, p, false, NoTest, FULL, tail))
    case TAnd(p) =>
      var x := Gen(g, p, false, tt, FULL, tail);
      if AndByBehind(g, p) then x + BehindIf(FixedLen(g, p)) else AndChoice(x)
    case TCapture(kind, key, p) =>
      var x := Gen(g, p, false, tt, fl, tail);
      if CaptureByLen(g, p) then CaptureFull(kind, key, FixedLen(g, p), x) else CaptureOpen(kind, key, x)
    case TGrammar(rules) =>
      var body := RulesCode(rules, rules, tail);
      var pos := Positions(rules, rules, 0, tail);
      [Op(ICall), Off(4), Op(IJmp), Off(2 + |body|)]
      + (if tail then CorrectCalls(body, pos, 0) else ResolveCalls(body, pos))
    case TCall(k) => [I(IOpenCall, 0, k % RULENUMBERS), Hole]
    case TSeq(p1, p2) =>
      Gen(g, p1, false, tt, SeqFollow(g, p1, p2, fl), tail) + Gen(g, p2, opt, SeqTest(g, p1, tt), fl, tail)
  }

  /** Code for a list of rules, each followed by a return. */
  function RulesCode(g: seq<Tree>, rs: seq<Tree>, tail: bool): seq<Slot>
    decreases rs, 1
  {
    if rs == [] then [] else RuleCode(g, rs[0], tail) + RulesCode(g, rs[1..], tail)
  }

  function RuleCode(g: seq<Tree>, r: Tree, tail: bool): seq<Slot>
    decreases r, 1
  {
    Gen(g, r, false, NoTest, FULL, tail) + [Op(IRet)]
  }

  /** Where each rule of the list starts, if the first one starts at 'from'. */
  function Positions(g: seq<Tree>, rs: seq<Tree>, from: nat, tail: bool): (pos: seq<nat>)
    ensures |pos| == |rs|
    decreases rs, 1
  {
    if rs == [] then [] else [from] + Positions(g, rs[1..], from + |RuleCode(g, rs[0], tail)|, tail)
  }

  /** All open calls become calls. */
  function ResolveCalls(code: seq<Slot>, pos: seq<nat>): seq<Slot> {
    seq(|code|, k requires 0 <= k < |code| => ResolvedSlot(code, pos, k))
  }

  function ResolvedSlot(code: seq<Slot>, pos: seq<nat>, k: nat): Slot
    requires k < |code|
  {
    if IsOp(code, k, IOpenCall) then I(ICall, 0, code[k].key)
    else if code[k] == Hole && IsOp(code, k - 1, IOpenCall) && code[k - 1].key < |pos| then
      Off(pos[code[k - 1].key] - (k - 1))
    else code[k]
  }

  /** Follows at most 'hops' unconditional jumps. The loop of 'finaltarget' has no bound; it ends exactly when the
      chain does. */
  function FinalTarget(code: seq<Slot>, k: int, hops: nat): int
    decreases hops
  {
    if hops > 0 && IsOp(code, k, IJmp) && OffAt(code, k + 1) then FinalTarget(code, k + code[k + 1].offset, hops - 1)
    else k
  }

  /** 'correctcalls' from slot k on: a call whose continuation only returns becomes a jump. */
  function CorrectCalls(code: seq<Slot>, pos: seq<nat>, k: nat): (code': seq<Slot>)
    ensures |code'| == |code|
    decreases |code| - k
  {
    if k >= |code| then code
    else if IsOp(code, k, IOpenCall) && k + 1 < |code| && code[k].key < |pos| then
      CorrectCalls(CorrectOne(code, pos, k), pos, k + 2)
    else CorrectCalls(code, pos, k + if code[k].I? then SizeOf(code[k].op) else 1)
  }

  function CorrectOne(code: seq<Slot>, pos: seq<nat>, k: nat): (code': seq<Slot>)
    requires IsOp(code, k, IOpenCall) && k + 1 < |code| && code[k].key < |pos|
    ensures |code'| == |code|
  {
    var op := if IsOp(code, FinalTarget(code, k + 2, |code|), IRet) then IJmp else ICall;
    code[k := code[k].(op := op)][k + 1 := Off(pos[code[k].key] - k)]
  }

  /** The whole pattern, before the peephole pass. */
  function Program(t: Tree, tail: bool): seq<Slot> {
    Gen([], t, false, NoTest, FULL, tail) + [Op(IEnd)]
  }
}
