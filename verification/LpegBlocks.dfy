/** Running pieces of generated code: what a layout achieves, given what the code of its parts achieves. */
module Blocks {
  import opened Common
  import opened PegTree
  import opened Peg
  import opened Analysis
  import opened Vm
  import opened Captures
  import opened Layout

  // ----- code in its place -----

  /** The code being run, the subject, and the addresses of the rules in scope. */
  datatype Ctx = Ctx(code: seq<Slot>, s: seq<Byte>, at: seq<int>)

  /** Slot k of the code holds what was generated as x: open calls have become calls. */
  ghost predicate SlotOk(code: seq<Slot>, k: int, x: Slot, at: seq<int>)
    requires At(code, k)
  {
    match x
    case Hole => true
    case I(IOpenCall, _, key) =>
      && code[k] == I(ICall, 0, key) && key < |at|
      && At(code, k + 1) && code[k + 1] == Off(at[key] - k)
    case _ => code[k] == x
  }

  /** The generated code x is at address a. */
  ghost predicate Linked(code: seq<Slot>, a: int, x: seq<Slot>, at: seq<int>) {
    && 0 <= a && a + |x| <= |code|
    && forall j :: 0 <= j < |x| ==> SlotOk(code, a + j, x[j], at)
  }

  lemma LinkedSplit(code: seq<Slot>, a: int, x: seq<Slot>, y: seq<Slot>, at: seq<int>)
    ensures Linked(code, a, x + y, at) <==> Linked(code, a, x, at) && Linked(code, a + |x|, y, at)
    ensures Linked(code, a, x, at) ==> 0 <= a
  {
    var z := x + y;
    if Linked(code, a, z, at) {
      forall j | 0 <= j < |x| ensures SlotOk(code, a + j, x[j], at) { assert z[j] == x[j]; }
      forall j | 0 <= j < |y| ensures SlotOk(code, a + |x| + j, y[j], at) { assert z[|x| + j] == y[j]; }
    }
    if Linked(code, a, x, at) && Linked(code, a + |x|, y, at) {
      forall j | 0 <= j < |z| ensures SlotOk(code, a + j, z[j], at) {
        if j < |x| { assert z[j] == x[j]; } else { assert z[j] == y[j - |x|]; }
      }
    }
  }

  lemma LinkedParts(code: seq<Slot>, a: int, x: seq<Slot>, y: seq<Slot>, z: seq<Slot>, w: seq<Slot>, at: seq<int>)
    requires Linked(code, a, x + y + z + w, at)
    ensures 0 <= a && Linked(code, a, x, at) && Linked(code, a + |x|, y, at)
    ensures Linked(code, a + |x| + |y|, z, at) && Linked(code, a + |x| + |y| + |z|, w, at)
  {
    hide Linked;
    LinkedSplit(code, a, x + y + z, w, at);
    LinkedSplit(code, a, x + y, z, at);
    LinkedSplit(code, a, x, y, at);
  }

  /** Two slots and what surrounds them. */
  lemma LinkedFrame(code: seq<Slot>, a: int, x: seq<Slot>, o: Slot, d: Slot, y: seq<Slot>, z: seq<Slot>, at: seq<int>)
    requires Linked(code, a, x + [o, d] + y + z, at) && o.I? && o.op != IOpenCall && d.Off?
    ensures Linked(code, a, x, at) && Linked(code, a + |x| + 2, y, at) && Linked(code, a + |x| + 2 + |y|, z, at)
    ensures 0 <= a && At(code, a + |x| + 1) && code[a + |x|] == o && code[a + |x| + 1] == d
  {
    hide Linked;
    LinkedParts(code, a, x, [o, d], y, z, at);
    Linked2(code, a + |x|, o, d, at);
  }

  lemma Linked1(code: seq<Slot>, a: int, x: Slot, at: seq<int>)
    requires Linked(code, a, [x], at) && x.I? && x.op != IOpenCall
    ensures 0 <= a && At(code, a) && code[a] == x
  {
    assert [x][0] == x;
  }

  lemma Linked2(code: seq<Slot>, a: int, x: Slot, y: Slot, at: seq<int>)
    requires Linked(code, a, [x, y], at) && x.I? && x.op != IOpenCall && (y.Off? || y.Buf?)
    ensures 0 <= a && At(code, a + 1) && code[a] == x && code[a + 1] == y
  {
    assert [x, y][0] == x && [x, y][1] == y;
  }

  // ----- what a piece of code achieves -----

  /** The choice a failure would resume was made when the capture list was no longer than n. */
  predicate LevelOk(st: Stack, n: nat) {
    match st
    case Empty => true
    case Push(Return(_), rest) => LevelOk(rest, n)
    case Push(Choice(_, _, l), _) => l <= n
  }

  lemma BacktrackSame(st: Stack, caps: seq<Cap>, caps': seq<Cap>)
    requires LevelOk(st, |caps|) && caps <= caps'
    ensures Backtrack(st, caps') == Backtrack(st, caps)
  {
  }

  lemma LevelMono(st: Stack, n: nat, m: nat)
    requires LevelOk(st, n) && n <= m
    ensures LevelOk(st, m)
  {
  }

  ghost predicate Gets(c: Ctx, x: State, y: State) {
    Reaches(c.code, c.s, x, y)
  }

  /** From state x, code that ends at b with result r: a match arrives at b; a failure backtracks; and a match
      in front of a character outside the follow set may backtrack as well. */
  ghost predicate Outcome(c: Ctx, x: State, b: int, caps: seq<Cap>, st: Stack, fl: Charset, r: Res) {
    && (r.Yes? ==>
          || Gets(c, x, Run(b, r.j, caps + r.caps, st))
          || (r.j < |c.s| && c.s[r.j] !in fl && Gets(c, x, Backtrack(st, caps))))
    && (r.No? ==> Gets(c, x, Backtrack(st, caps)))
  }

  ghost predicate UnderChoice(st: Stack) {
    st.Push? && st.top.Choice?
  }

  /** The same under a choice that jumps to the end of the optional pattern: a match arrives at b, perhaps with the
      choice committed partially, or has left through that choice already. */
  ghost predicate OutcomeOpt(c: Ctx, x: State, b: int, caps: seq<Cap>, st: Stack, r: Res)
    requires UnderChoice(st)
  {
    && (r.Yes? ==>
          || (exists e :: Renewed(st, e, |caps + r.caps|) && Gets(c, x, Run(b, r.j, caps + r.caps, Push(e, st.rest))))
          || Gets(c, x, Run(st.top.p, r.j, caps + r.caps, st.rest)))
    && (r.No? ==> Gets(c, x, Backtrack(st, caps)))
  }

  ghost predicate Renewed(st: Stack, e: Entry, n: nat)
    requires UnderChoice(st)
  {
    e.Choice? && e.p == st.top.p && e.caplevel <= n
  }

  ghost predicate Good(c: Ctx, x: State, b: int, caps: seq<Cap>, opt: bool, st: Stack, fl: Charset, r: Res)
    requires opt ==> UnderChoice(st)
  {
    if opt then OutcomeOpt(c, x, b, caps, st, r) else Outcome(c, x, b, caps, st, fl, r)
  }

  // ----- small steps -----

  lemma Then(c: Ctx, x: State, y: State, z: State)
    requires Gets(c, x, y) && Gets(c, y, z)
    ensures Gets(c, x, z)
  {
    ReachTrans(c.code, c.s, x, y, z);
  }

  lemma One(c: Ctx, x: State, y: State)
    requires Step(c.code, c.s, x) == y
    ensures Gets(c, x, y)
  {
    Reach1(c.code, c.s, x);
  }

  lemma Zero(c: Ctx, x: State)
    ensures Gets(c, x, x)
  {
    Reach0(c.code, c.s, x);
  }

  lemma OutcomeFrom(c: Ctx, x: State, y: State, b: int, caps: seq<Cap>, st: Stack, fl: Charset, r: Res)
    requires Gets(c, x, y) && Outcome(c, y, b, caps, st, fl, r)
    ensures Outcome(c, x, b, caps, st, fl, r)
  {
    hide Gets;
    if r.Yes? {
      if Gets(c, y, Run(b, r.j, caps + r.caps, st)) { Then(c, x, y, Run(b, r.j, caps + r.caps, st)); }
      else { Then(c, x, y, Backtrack(st, caps)); }
    }
    if r.No? { Then(c, x, y, Backtrack(st, caps)); }
  }

  lemma OutcomeOptFrom(c: Ctx, x: State, y: State, b: int, caps: seq<Cap>, st: Stack, r: Res)
    requires UnderChoice(st) && Gets(c, x, y) && OutcomeOpt(c, y, b, caps, st, r)
    ensures OutcomeOpt(c, x, b, caps, st, r)
  {
    hide Gets;
    if r.Yes? {
      if Gets(c, y, Run(st.top.p, r.j, caps + r.caps, st.rest)) {
        Then(c, x, y, Run(st.top.p, r.j, caps + r.caps, st.rest));
      } else {
        var e :| Renewed(st, e, |caps + r.caps|) && Gets(c, y, Run(b, r.j, caps + r.caps, Push(e, st.rest)));
        Then(c, x, y, Run(b, r.j, caps + r.caps, Push(e, st.rest)));
      }
    }
    if r.No? { Then(c, x, y, Backtrack(st, caps)); }
  }

  lemma GoodFrom(c: Ctx, x: State, y: State, b: int, caps: seq<Cap>, opt: bool, st: Stack, fl: Charset, r: Res)
    requires opt ==> UnderChoice(st)
    requires Gets(c, x, y) && Good(c, y, b, caps, opt, st, fl, r)
    ensures Good(c, x, b, caps, opt, st, fl, r)
  {
    hide Gets, Outcome, OutcomeOpt;
    if opt { OutcomeOptFrom(c, x, y, b, caps, st, r); } else { OutcomeFrom(c, x, y, b, caps, st, fl, r); }
  }

  /** Code that does not touch the enclosing choice is good under it. */
  lemma PlainIsGood(c: Ctx, x: State, b: int, caps: seq<Cap>, opt: bool, st: Stack, fl: Charset, r: Res)
    requires opt ==> UnderChoice(st) && fl == FULL
    requires LevelOk(st, |caps|)
    requires Outcome(c, x, b, caps, st, fl, r)
    ensures Good(c, x, b, caps, opt, st, fl, r)
  {
    hide Gets;
    if opt && r.Yes? {
      assert Renewed(st, st.top, |caps + r.caps|);
      assert Push(st.top, st.rest) == st;
    }
  }

  /** Arriving at the end is a match; backtracking is a failure. */
  lemma Arrives(c: Ctx, x: State, b: int, j: nat, caps: seq<Cap>, inner: seq<Cap>, opt: bool, st: Stack, fl: Charset)
    requires opt ==> UnderChoice(st) && fl == FULL
    requires LevelOk(st, |caps|)
    requires Gets(c, x, Run(b, j, caps + inner, st))
    ensures Good(c, x, b, caps, opt, st, fl, Yes(j, inner))
  {
    hide Gets;
    PlainIsGood(c, x, b, caps, opt, st, fl, Yes(j, inner));
  }

  lemma Fails(c: Ctx, x: State, b: int, caps: seq<Cap>, opt: bool, st: Stack, fl: Charset)
    requires opt ==> UnderChoice(st)
    requires Gets(c, x, Backtrack(st, caps))
    ensures Good(c, x, b, caps, opt, st, fl, No)
  {
    hide Gets;
  }

  /** Results of a second part, seen from before the first part left its captures. */
  lemma GoodShift(c: Ctx, x: State, b: int, caps: seq<Cap>, n1: seq<Cap>, opt: bool, st: Stack, fl: Charset, r: Res)
    requires opt ==> UnderChoice(st)
    requires LevelOk(st, |caps|)
    requires Good(c, x, b, caps + n1, opt, st, fl, r)
    ensures Good(c, x, b, caps, opt, st, fl, if r.Yes? then Yes(r.j, n1 + r.caps) else r)
  {
    hide Gets;
    BacktrackSame(st, caps, caps + n1);
    if r.Yes? { assert (caps + n1) + r.caps == caps + (n1 + r.caps); }
  }

  // ----- tests -----

  lemma TestRuns(c: Ctx, a: int, cs: Charset, off: int, i: nat, caps: seq<Cap>, st: Stack)
    requires i <= |c.s| && Linked(c.code, a, TestCode(cs, off), c.at)
    ensures Gets(c, Run(a, i, caps, st),
                 Run(if i < |c.s| && c.s[i] in cs then a + TestSize(cs) else a + off, i, caps, st))
  {
    CharsetTypeMeans(cs);
    LinkedSplit(c.code, a, [TestInstr(cs), Off(off)], TestTail(cs), c.at);
    Linked2(c.code, a, TestInstr(cs), Off(off), c.at);
    if CharsetType(cs) == OtherSet {
      assert TestTail(cs)[0] == Buf(cs);
      assert c.code[a + 2] == Buf(cs);
    }
    One(c, Run(a, i, caps, st), Run(if i < |c.s| && c.s[i] in cs then a + TestSize(cs) else a + off, i, caps, st));
  }

  /** Whether an optional test lets the code after it run. */
  predicate Enters(f: First, s: seq<Byte>, i: nat) {
    f.e || (i < |s| && s[i] in f.cs)
  }

  lemma MaybeTestRuns(c: Ctx, a: int, f: First, off: int, i: nat, caps: seq<Cap>, st: Stack)
    requires i <= |c.s| && Linked(c.code, a, MaybeTest(f, off), c.at)
    ensures Gets(c, Run(a, i, caps, st), Run(if Enters(f, c.s, i) then a + MaybeSize(f) else a + off, i, caps, st))
  {
    if f.e { Zero(c, Run(a, i, caps, st)); } else { TestRuns(c, a, f.cs, off, i, caps, st); }
  }

  // ----- running each layout, given what the code of its parts achieves -----

  ghost predicate In(cs: Charset, s: seq<Byte>, i: nat) {
    i < |s| && s[i] in cs
  }

  /** What every layout lemma assumes of its starting point. */
  ghost predicate Ok(c: Ctx, i: nat, caps: seq<Cap>, opt: bool, st: Stack, fl: Charset) {
    i <= |c.s| && LevelOk(st, |caps|) && (opt ==> UnderChoice(st) && fl == FULL)
  }

  ghost predicate ResOk(c: Ctx, r: Res) {
    r.Yes? ==> r.j <= |c.s|
  }

  lemma ChoiceTestedLayout(code: seq<Slot>, a: int, cs: Charset, x1: seq<Slot>, x2: seq<Slot>, empty: bool,
                           at: seq<int>)
    requires Linked(code, a, ChoiceTested(cs, x1, x2, empty), at)
    ensures var q, w := a + TestSize(cs) + |x1|, if empty then 0 else 2;
            && Linked(code, a, TestCode(cs, TestSize(cs) + |x1| + w), at)
            && Linked(code, a + TestSize(cs), x1, at)
            && Linked(code, q + w, x2, at)
            && (!empty ==> 0 <= q && At(code, q + 1) && code[q] == Op(IJmp) && code[q + 1] == Off(2 + |x2|))
  {
    hide Linked, TestCode, MaybeTest, TestSize, MaybeSize;
    var jmp := if empty then [] else [Op(IJmp), Off(2 + |x2|)];
    var test := TestCode(cs, TestSize(cs) + |x1| + |jmp|);
    LinkedParts(code, a, test, x1, jmp, x2, at);
    if !empty { Linked2(code, a + TestSize(cs) + |x1|, Op(IJmp), Off(2 + |x2|), at); }
  }

  lemma ChoiceTestedRuns(c: Ctx, a: int, cs: Charset, x1: seq<Slot>, x2: seq<Slot>, empty: bool,
                         i: nat, caps: seq<Cap>, opt: bool, st: Stack, fl: Charset, r1: Res, r2: Res)
    requires Ok(c, i, caps, opt, st, fl) && ResOk(c, r1) && (empty ==> x2 == [])
    requires Linked(c.code, a, ChoiceTested(cs, x1, x2, empty), c.at)
    requires var m := a + TestSize(cs);
             In(cs, c.s, i) ==>
               && Outcome(c, Run(m, i, caps, st), m + |x1|, caps, st, fl, r1)
               && (r1.No? && r2.Yes? ==> r2.j == i && c.s[i] !in fl)
    requires var l1 := a + TestSize(cs) + |x1| + if empty then 0 else 2;
             !In(cs, c.s, i) ==>
               && !r1.Yes?
               && (r1.No? ==> Good(c, Run(l1, i, caps, st), l1 + |x2|, caps, opt, st, fl, r2))
    ensures Good(c, Run(a, i, caps, st), a + |ChoiceTested(cs, x1, x2, empty)|, caps, opt, st, fl,
                 if r1.No? then r2 else r1)
  {
    hide Linked, Gets, TestCode, MaybeTest, TestSize, MaybeSize;
    var q, w := a + TestSize(cs) + |x1|, if empty then 0 else 2;
    var x, m, b := Run(a, i, caps, st), a + TestSize(cs), q + w + |x2|;
    ChoiceTestedLayout(c.code, a, cs, x1, x2, empty, c.at);
    TestRuns(c, a, cs, TestSize(cs) + |x1| + w, i, caps, st);
    if In(cs, c.s, i) {
      OutcomeFrom(c, x, Run(m, i, caps, st), q, caps, st, fl, r1);
      if r1.Yes? {
        if Gets(c, x, Run(q, r1.j, caps + r1.caps, st)) {
          if !empty {
            One(c, Run(q, r1.j, caps + r1.caps, st), Run(b, r1.j, caps + r1.caps, st));
            Then(c, x, Run(q, r1.j, caps + r1.caps, st), Run(b, r1.j, caps + r1.caps, st));
          }
          Arrives(c, x, b, r1.j, caps, r1.caps, opt, st, fl);
        }
      }
    } else if r1.No? {
      GoodFrom(c, x, Run(q + w, i, caps, st), b, caps, opt, st, fl, r2);
    }
  }

  lemma ChoicePartialRuns(c: Ctx, a: int, x1: seq<Slot>, i: nat, caps: seq<Cap>, st: Stack, r1: Res)
    requires Ok(c, i, caps, true, st, FULL)
    requires Linked(c.code, a, ChoicePartial(x1), c.at)
    requires OutcomeOpt(c, Run(a + 2, i, caps, Push(Choice(st.top.p, i, |caps|), st.rest)), a + 2 + |x1|, caps,
                        Push(Choice(st.top.p, i, |caps|), st.rest), r1)
    ensures OutcomeOpt(c, Run(a, i, caps, st), a + |ChoicePartial(x1)|, caps, st, if r1.No? then Yes(i, []) else r1)
  {
    hide Linked, Gets, TestCode, MaybeTest, TestSize, MaybeSize;
    LinkedSplit(c.code, a, [Op(IPartialCommit), Off(2)], x1, c.at);
    Linked2(c.code, a, Op(IPartialCommit), Off(2), c.at);
    var st' := Push(Choice(st.top.p, i, |caps|), st.rest);
    var x, y := Run(a, i, caps, st), Run(a + 2, i, caps, st');
    One(c, x, y);
    OutcomeOptFrom(c, x, y, a + 2 + |x1|, caps, st', r1);
    if r1.Yes? && !Gets(c, x, Run(st.top.p, r1.j, caps + r1.caps, st.rest)) {
      var e :| Renewed(st', e, |caps + r1.caps|) && Gets(c, x,
                                                         Run(a + 2 + |x1|, r1.j, caps + r1.caps, Push(e, st.rest)));
      assert Renewed(st, e, |caps + r1.caps|);
    }
    assert caps[..|caps|] == caps == caps + [];
  }

  ghost predicate ChoiceFullAt(code: seq<Slot>, a: int, f: First, x1: seq<Slot>, x2: seq<Slot>, at: seq<int>) {
    var m := a + MaybeSize(f);
    && Linked(code, a, MaybeTest(f, MaybeSize(f) + 4 + |x1|), at)
    && Linked(code, m + 2, x1, at) && Linked(code, m + 4 + |x1|, x2, at)
    && 0 <= m && At(code, m + 1) && code[m] == Op(IChoice) && code[m + 1] == Off(4 + |x1|)
    && At(code, m + 3 + |x1|) && code[m + 2 + |x1|] == Op(ICommit) && code[m + 3 + |x1|] == Off(2 + |x2|)
  }

  lemma ChoiceFullLayout(code: seq<Slot>, a: int, f: First, x1: seq<Slot>, x2: seq<Slot>, at: seq<int>)
    requires Linked(code, a, ChoiceFull(f, x1, x2), at)
    ensures ChoiceFullAt(code, a, f, x1, x2, at)
    ensures |ChoiceFull(f, x1, x2)| == MaybeSize(f) + 4 + |x1| + |x2|
  {
    hide Linked, TestCode, MaybeTest, TestSize, MaybeSize;
    var test := MaybeTest(f, MaybeSize(f) + 4 + |x1|);
    var commit := [Op(ICommit), Off(2 + |x2|)];
    LinkedSplit(code, a, test + [Op(IChoice), Off(4 + |x1|)] + x1 + commit, x2, at);
    LinkedFrame(code, a, test, Op(IChoice), Off(4 + |x1|), x1, commit, at);
    Linked2(code, a + |test| + 2 + |x1|, Op(ICommit), Off(2 + |x2|), at);
  }

  /** A test lets the machine pass to q = a + MaybeSize(f), where a choice is made. */
  lemma TestAndChoose(c: Ctx, a: int, f: First, skip: int, off: int, i: nat, caps: seq<Cap>, st: Stack)
    requires i <= |c.s| && Linked(c.code, a, MaybeTest(f, skip), c.at)
    requires var m := a + MaybeSize(f);
      0 <= m && At(c.code, m + 1) && c.code[m] == Op(IChoice) && c.code[m + 1] == Off(off)
    ensures var m := a + MaybeSize(f);
            Gets(c, Run(a, i, caps, st),
                 if Enters(f, c.s, i) then Run(m + 2, i, caps, Push(Choice(m + off, i, |caps|), st))
                 else Run(a + skip, i, caps, st))
  {
    hide Linked, Gets, TestCode, MaybeTest, TestSize, MaybeSize;
    var m := a + MaybeSize(f);
    MaybeTestRuns(c, a, f, skip, i, caps, st);
    if Enters(f, c.s, i) {
      var z := Run(m + 2, i, caps, Push(Choice(m + off, i, |caps|), st));
      One(c, Run(m, i, caps, st), z);
      Then(c, Run(a, i, caps, st), Run(m, i, caps, st), z);
    }
  }

  /** What the first alternative must achieve in a full choice. */
  ghost predicate FirstTried(c: Ctx, a: int, f: First, x1: seq<Slot>, empty: bool, i: nat, caps: seq<Cap>, st: Stack,
                             r1: Res) {
    var m := a + MaybeSize(f);
    var st' := Push(Choice(m + 4 + |x1|, i, |caps|), st);
    && (Enters(f, c.s, i) ==> Good(c, Run(m + 2, i, caps, st'), m + 2 + |x1|, caps, empty, st', FULL, r1))
    && (!Enters(f, c.s, i) ==> !r1.Yes?)
  }

  lemma ChoiceFullYes(c: Ctx, a: int, f: First, x1: seq<Slot>, x2: seq<Slot>, empty: bool, i: nat, caps: seq<Cap>,
                      st: Stack, r1: Res)
    requires i <= |c.s| && ResOk(c, r1) && (empty ==> x2 == [])
    requires ChoiceFullAt(c.code, a, f, x1, x2, c.at)
    requires FirstTried(c, a, f, x1, empty, i, caps, st, r1) && r1.Yes?
    ensures Gets(c, Run(a, i, caps, st), Run(a + MaybeSize(f) + 4 + |x1| + |x2|, r1.j, caps + r1.caps, st))
  {
    hide Linked, Gets, TestCode, MaybeTest, TestSize, MaybeSize;
    var m := a + MaybeSize(f);
    var x, l1 := Run(a, i, caps, st), m + 4 + |x1|;
    var st' := Push(Choice(l1, i, |caps|), st);
    TestAndChoose(c, a, f, MaybeSize(f) + 4 + |x1|, 4 + |x1|, i, caps, st);
    ChoiceCommits(c, Run(m + 2, i, caps, st'), m + 2 + |x1|, l1 + |x2|, caps, empty, st', r1);
    Then(c, x, Run(m + 2, i, caps, st'), Run(l1 + |x2|, r1.j, caps + r1.caps, st));
  }

  lemma ChoiceFullNo(c: Ctx, a: int, f: First, x1: seq<Slot>, x2: seq<Slot>, empty: bool, i: nat, caps: seq<Cap>,
                     st: Stack, r1: Res)
    requires i <= |c.s|
    requires ChoiceFullAt(c.code, a, f, x1, x2, c.at)
    requires FirstTried(c, a, f, x1, empty, i, caps, st, r1) && r1.No?
    ensures Gets(c, Run(a, i, caps, st), Run(a + MaybeSize(f) + 4 + |x1|, i, caps, st))
  {
    hide Linked, Gets, TestCode, MaybeTest, TestSize, MaybeSize;
    var m := a + MaybeSize(f);
    var x, l1 := Run(a, i, caps, st), m + 4 + |x1|;
    TestAndChoose(c, a, f, MaybeSize(f) + 4 + |x1|, 4 + |x1|, i, caps, st);
    if Enters(f, c.s, i) {
      assert caps[..|caps|] == caps;
      Then(c, x, Run(m + 2, i, caps, Push(Choice(l1, i, |caps|), st)), Run(l1, i, caps, st));
    }
  }

  lemma ChoiceFullRuns(c: Ctx, a: int, f: First, x1: seq<Slot>, x2: seq<Slot>, empty: bool,
                       i: nat, caps: seq<Cap>, opt: bool, st: Stack, fl: Charset, r1: Res, r2: Res)
    requires Ok(c, i, caps, opt, st, fl) && ResOk(c, r1) && (empty ==> x2 == [])
    requires ChoiceFullAt(c.code, a, f, x1, x2, c.at)
    requires FirstTried(c, a, f, x1, empty, i, caps, st, r1)
    requires var l1 := a + MaybeSize(f) + 4 + |x1|;
             r1.No? ==> Good(c, Run(l1, i, caps, st), l1 + |x2|, caps, opt, st, fl, r2)
    ensures Good(c, Run(a, i, caps, st), a + MaybeSize(f) + 4 + |x1| + |x2|, caps, opt, st, fl,
                 if r1.No? then r2 else r1)
  {
    hide Linked, Gets, TestCode, MaybeTest, TestSize, MaybeSize, ChoiceFullAt, FirstTried;
    var x, l1 := Run(a, i, caps, st), a + MaybeSize(f) + 4 + |x1|;
    if r1.Yes? {
      ChoiceFullYes(c, a, f, x1, x2, empty, i, caps, st, r1);
      Arrives(c, x, l1 + |x2|, r1.j, caps, r1.caps, opt, st, fl);
    }
    if r1.No? {
      ChoiceFullNo(c, a, f, x1, x2, empty, i, caps, st, r1);
      GoodFrom(c, x, Run(l1, i, caps, st), l1 + |x2|, caps, opt, st, fl, r2);
    }
  }

  /** After a match under its own choice, the commit at q leads to b; an optional pattern may be there already. */
  lemma ChoiceCommits(c: Ctx, x: State, q: int, b: int, caps: seq<Cap>, opt: bool, st: Stack, r: Res)
    requires UnderChoice(st) && (opt ==> st.top.p == b)
    requires At(c.code, q + 1) && 0 <= q && c.code[q] == Op(ICommit) && c.code[q + 1] == Off(b - q)
    requires r.Yes? && r.j <= |c.s| && Good(c, x, q, caps, opt, st, FULL, r)
    ensures Gets(c, x, Run(b, r.j, caps + r.caps, st.rest))
  {
    hide Gets;
    var done := Run(b, r.j, caps + r.caps, st.rest);
    if opt && !Gets(c, x, done) {
      var e :| Renewed(st, e, |caps + r.caps|) && Gets(c, x, Run(q, r.j, caps + r.caps, Push(e, st.rest)));
      One(c, Run(q, r.j, caps + r.caps, Push(e, st.rest)), done);
      Then(c, x, Run(q, r.j, caps + r.caps, Push(e, st.rest)), done);
    } else if !opt {
      One(c, Run(q, r.j, caps + r.caps, st), done);
      Then(c, x, Run(q, r.j, caps + r.caps, st), done);
    }
  }

  lemma RepSpanRuns(c: Ctx, a: int, cs: Charset, i: nat, caps: seq<Cap>, opt: bool, st: Stack, fl: Charset)
    requires Ok(c, i, caps, opt, st, fl)
    requires Linked(c.code, a, RepSpan(cs), c.at)
    ensures Good(c, Run(a, i, caps, st), a + |RepSpan(cs)|, caps, opt, st, fl, Yes(SpanEnd(c.s, i, cs), []))
  {
    var code := RepSpan(cs);
    assert code[0] == Op(ISpan) && code[1] == Buf(cs);
    assert c.code[a] == code[0] && c.code[a + 1] == code[1];
    var j := SpanEnd(c.s, i, cs);
    assert caps + [] == caps;
    One(c, Run(a, i, caps, st), Run(a + |code|, j, caps, st));
    Arrives(c, Run(a, i, caps, st), a + |code|, j, caps, [], opt, st, fl);
  }

  /** Result of a repetition at i: r1 is that of its body, r2 that of the rest of the repetition. */
  function RepRes(r1: Res, r2: Res, i: nat): Res {
    match r1
    case Out => Out
    case No => Yes(i, [])
    case Yes(j, c1) => if j == i then Out else if r2.Yes? then Yes(r2.j, c1 + r2.caps) else r2
  }

  lemma RepTestedLayout(code: seq<Slot>, a: int, cs: Charset, y: seq<Slot>, at: seq<int>)
    requires Linked(code, a, RepTested(cs, y), at)
    ensures var m := a + TestSize(cs);
            && Linked(code, a, TestCode(cs, TestSize(cs) + |y| + 2), at) && Linked(code, m, y, at)
            && 0 <= m && At(code, m + |y| + 1)
            && code[m + |y|] == Op(IJmp) && code[m + |y| + 1] == Off(-(TestSize(cs) + |y|))
  {
    hide Linked, TestCode, MaybeTest, TestSize, MaybeSize;
    var test, jmp := TestCode(cs, TestSize(cs) + |y| + 2), [Op(IJmp), Off(-(TestSize(cs) + |y|))];
    LinkedSplit(code, a, test + y, jmp, at);
    LinkedSplit(code, a, test, y, at);
    Linked2(code, a + TestSize(cs) + |y|, Op(IJmp), Off(-(TestSize(cs) + |y|)), at);
  }

  lemma RepTestedRuns(c: Ctx, a: int, cs: Charset, y: seq<Slot>,
                      i: nat, caps: seq<Cap>, opt: bool, st: Stack, fl: Charset, r1: Res, r2: Res)
    requires Ok(c, i, caps, opt, st, fl) && ResOk(c, r1)
    requires Linked(c.code, a, RepTested(cs, y), c.at)
    requires var m := a + TestSize(cs);
             In(cs, c.s, i) ==>
               && Outcome(c, Run(m, i, caps, st), m + |y|, caps, st, FULL, r1)
               && (r1.No? ==> c.s[i] !in fl)
               && (r1.Yes? && r1.j != i ==>
                     Good(c, Run(a, r1.j, caps + r1.caps, st), a + |RepTested(cs, y)|, caps + r1.caps, opt, st, fl, r2))
    requires !In(cs, c.s, i) ==> !r1.Yes?
    ensures Good(c, Run(a, i, caps, st), a + |RepTested(cs, y)|, caps, opt, st, fl, RepRes(r1, r2, i))
  {
    hide Linked, Gets, TestCode, MaybeTest, TestSize, MaybeSize;
    RepTestedLayout(c.code, a, cs, y, c.at);
    var m := a + TestSize(cs);
    var x, b := Run(a, i, caps, st), a + |RepTested(cs, y)|;
    TestRuns(c, a, cs, TestSize(cs) + |y| + 2, i, caps, st);
    assert caps + [] == caps;
    if In(cs, c.s, i) {
      OutcomeFrom(c, x, Run(m, i, caps, st), m + |y|, caps, st, FULL, r1);
      if r1.Yes? && r1.j != i {
        var z, w := Run(m + |y|, r1.j, caps + r1.caps, st), Run(a, r1.j, caps + r1.caps, st);
        One(c, z, w);
        Then(c, x, z, w);
        GoodFrom(c, x, w, b, caps + r1.caps, opt, st, fl, r2);
        GoodShift(c, x, b, caps, r1.caps, opt, st, fl, r2);
      }
    } else if r1.No? {
      Arrives(c, x, b, i, caps, [], opt, st, fl);
    }
  }

  /** From the loop entry l, under a choice leading to 'exit', the repetition leaves through that choice. */
  ghost predicate LoopExits(c: Ctx, l: int, i: nat, caps: seq<Cap>, exit: int, st: Stack, r: Res) {
    r.Yes? ==> Gets(c, Run(l, i, caps, Push(Choice(exit, i, |caps|), st)), Run(exit, r.j, caps + r.caps, st))
  }

  lemma RepLoopRuns(c: Ctx, l: int, y: seq<Slot>, i: nat, caps: seq<Cap>, exit: int, st: Stack, r1: Res, r2: Res)
    requires i <= |c.s| && ResOk(c, r1)
    requires 0 <= l + |y| && At(c.code, l + |y| + 1)
    requires c.code[l + |y|] == Op(IPartialCommit) && c.code[l + |y| + 1] == Off(-|y|)
    requires var st' := Push(Choice(exit, i, |caps|), st);
             Outcome(c, Run(l, i, caps, st'), l + |y|, caps, st', FULL, r1)
    requires r1.Yes? && r1.j != i ==> LoopExits(c, l, r1.j, caps + r1.caps, exit, st, r2) && !r2.No?
    ensures LoopExits(c, l, i, caps, exit, st, RepRes(r1, r2, i))
  {
    hide Linked, Gets, TestCode, MaybeTest, TestSize, MaybeSize;
    var st' := Push(Choice(exit, i, |caps|), st);
    var x := Run(l, i, caps, st');
    assert caps[..|caps|] == caps == caps + [];
    if r1.Yes? && r1.j != i {
      var caps1 := caps + r1.caps;
      var z, w := Run(l + |y|, r1.j, caps1, st'), Run(l, r1.j, caps1, Push(Choice(exit, r1.j, |caps1|), st));
      One(c, z, w);
      Then(c, x, z, w);
      if r2.Yes? {
        assert caps1 + r2.caps == caps + (r1.caps + r2.caps);
        Then(c, x, w, Run(exit, r2.j, caps1 + r2.caps, st));
      }
    }
  }

  ghost predicate RepChoiceAt(code: seq<Slot>, a: int, f: First, opt: bool, y: seq<Slot>, at: seq<int>) {
    var m := a + MaybeSize(f);
    && Linked(code, a, MaybeTest(f, MaybeSize(f) + 4 + |y|), at) && Linked(code, m + 2, y, at)
    && 0 <= m && At(code, m + 1)
    && code[m] == Op(if opt then IPartialCommit else IChoice) && code[m + 1] == Off(if opt then 2 else 4 + |y|)
    && At(code, m + 3 + |y|) && code[m + 2 + |y|] == Op(IPartialCommit) && code[m + 3 + |y|] == Off(-|y|)
  }

  lemma RepChoiceLayout(code: seq<Slot>, a: int, f: First, opt: bool, y: seq<Slot>, at: seq<int>)
    requires Linked(code, a, RepChoice(f, opt, y), at)
    ensures RepChoiceAt(code, a, f, opt, y, at)
    ensures |RepChoice(f, opt, y)| == MaybeSize(f) + 4 + |y|
  {
    hide Linked, TestCode, MaybeTest, TestSize, MaybeSize;
    var test := MaybeTest(f, MaybeSize(f) + 4 + |y|);
    var again := [Op(IPartialCommit), Off(-|y|)];
    var enter := if opt then IPartialCommit else IChoice;
    LinkedFrame(code, a, test, Op(enter), Off(if opt then 2 else 4 + |y|), y, again, at);
    Linked2(code, a + |test| + 2 + |y|, Op(IPartialCommit), Off(-|y|), at);
  }

  lemma RepChoiceRuns(c: Ctx, a: int, f: First, y: seq<Slot>,
                      i: nat, caps: seq<Cap>, opt: bool, st: Stack, fl: Charset, r: Res)
    requires Ok(c, i, caps, opt, st, fl)
    requires RepChoiceAt(c.code, a, f, opt, y, c.at)
    requires !r.No?
    requires Enters(f, c.s, i) ==>
               LoopExits(c, a + MaybeSize(f) + 2, i, caps, if opt then st.top.p else a + MaybeSize(f) + 4 + |y|,
                         if opt then st.rest else st, r)
    requires !Enters(f, c.s, i) && r.Yes? ==> r == Yes(i, [])
    ensures Good(c, Run(a, i, caps, st), a + MaybeSize(f) + 4 + |y|, caps, opt, st, fl, r)
  {
    hide Linked, Gets, TestCode, MaybeTest, TestSize, MaybeSize;
    var m := a + MaybeSize(f);
    var x, b := Run(a, i, caps, st), a + MaybeSize(f) + 4 + |y|;
    MaybeTestRuns(c, a, f, MaybeSize(f) + 4 + |y|, i, caps, st);
    if Enters(f, c.s, i) {
      var exit, st0 := if opt then st.top.p else b, if opt then st.rest else st;
      var z := Run(m + 2, i, caps, Push(Choice(exit, i, |caps|), st0));
      One(c, Run(m, i, caps, st), z);
      Then(c, x, Run(m, i, caps, st), z);
      if r.Yes? { Then(c, x, z, Run(exit, r.j, caps + r.caps, st0)); }
    } else {
      assert caps + [] == caps;
      if r.Yes? { Arrives(c, x, b, i, caps, [], opt, st, fl); }
    }
  }

  function NotRes(r1: Res, i: nat): Res {
    match r1
    case Out => Out
    case No => Yes(i, [])
    case Yes(_, _) => No
  }

  lemma NotHeadRuns(c: Ctx, a: int, f: First, i: nat, caps: seq<Cap>, opt: bool, st: Stack, fl: Charset, r1: Res)
    requires Ok(c, i, caps, opt, st, fl)
    requires Linked(c.code, a, NotHead(f), c.at)
    requires r1 != Out ==> (Enters(f, c.s, i) <==> r1.Yes?)
    ensures Good(c, Run(a, i, caps, st), a + |NotHead(f)|, caps, opt, st, fl, NotRes(r1, i))
  {
    hide Linked, Gets, TestCode, MaybeTest, TestSize, MaybeSize;
    LinkedSplit(c.code, a, MaybeTest(f, MaybeSize(f) + 1), [Op(IFail)], c.at);
    Linked1(c.code, a + MaybeSize(f), Op(IFail), c.at);
    var x, m := Run(a, i, caps, st), a + MaybeSize(f);
    MaybeTestRuns(c, a, f, MaybeSize(f) + 1, i, caps, st);
    assert caps == caps + [];
    if Enters(f, c.s, i) {
      One(c, Run(m, i, caps, st), Backtrack(st, caps));
      Then(c, x, Run(m, i, caps, st), Backtrack(st, caps));
    } else if r1.No? {
      Arrives(c, x, m + 1, i, caps, [], opt, st, fl);
    }
  }

  ghost predicate NotChoiceAt(code: seq<Slot>, a: int, f: First, y: seq<Slot>, at: seq<int>) {
    var m := a + MaybeSize(f);
    && Linked(code, a, MaybeTest(f, MaybeSize(f) + 3 + |y|), at) && Linked(code, m + 2, y, at)
    && 0 <= m && At(code, m + 1) && code[m] == Op(IChoice) && code[m + 1] == Off(3 + |y|)
    && At(code, m + 2 + |y|) && code[m + 2 + |y|] == Op(IFailTwice)
  }

  lemma NotChoiceLayout(code: seq<Slot>, a: int, f: First, y: seq<Slot>, at: seq<int>)
    requires Linked(code, a, NotChoice(f, y), at)
    ensures NotChoiceAt(code, a, f, y, at)
    ensures |NotChoice(f, y)| == MaybeSize(f) + 3 + |y|
  {
    hide Linked, TestCode, MaybeTest, TestSize, MaybeSize;
    var test := MaybeTest(f, MaybeSize(f) + 3 + |y|);
    LinkedFrame(code, a, test, Op(IChoice), Off(3 + |y|), y, [Op(IFailTwice)], at);
    Linked1(code, a + |test| + 2 + |y|, Op(IFailTwice), at);
  }

  lemma NotChoiceRuns(c: Ctx, a: int, f: First, y: seq<Slot>,
                      i: nat, caps: seq<Cap>, opt: bool, st: Stack, fl: Charset, r1: Res)
    requires Ok(c, i, caps, opt, st, fl) && ResOk(c, r1)
    requires NotChoiceAt(c.code, a, f, y, c.at)
    requires var m := a + MaybeSize(f);
             var st' := Push(Choice(m + 3 + |y|, i, |caps|), st);
             Enters(f, c.s, i) ==> Outcome(c, Run(m + 2, i, caps, st'), m + 2 + |y|, caps, st', FULL, r1)
    requires !Enters(f, c.s, i) ==> !r1.Yes?
    ensures Good(c, Run(a, i, caps, st), a + MaybeSize(f) + 3 + |y|, caps, opt, st, fl, NotRes(r1, i))
  {
    hide Linked, Gets, TestCode, MaybeTest, TestSize, MaybeSize;
    var m := a + MaybeSize(f);
    var x, b := Run(a, i, caps, st), m + 3 + |y|;
    TestAndChoose(c, a, f, MaybeSize(f) + 3 + |y|, 3 + |y|, i, caps, st);
    assert caps[..|caps|] == caps == caps + [];
    if Enters(f, c.s, i) {
      var st' := Push(Choice(b, i, |caps|), st);
      OutcomeFrom(c, x, Run(m + 2, i, caps, st'), m + 2 + |y|, caps, st', FULL, r1);
      if r1.Yes? {
        var z := Run(m + 2 + |y|, r1.j, caps + r1.caps, st');
        BacktrackSame(st, caps, caps + r1.caps);
        One(c, z, Backtrack(st, caps));
        Then(c, x, z, Backtrack(st, caps));
      }
    }
    if r1.No? { Arrives(c, x, b, i, caps, [], opt, st, fl); }
  }

  function AndRes(r1: Res, i: nat): Res {
    if r1.Yes? then Yes(i, []) else r1
  }

  lemma AndBehindRuns(c: Ctx, a: int, y: seq<Slot>, len: nat,
                      i: nat, caps: seq<Cap>, opt: bool, st: Stack, fl: Charset, r1: Res)
    requires Ok(c, i, caps, opt, st, fl) && ResOk(c, r1)
    requires Linked(c.code, a, y + BehindIf(len), c.at)
    requires Outcome(c, Run(a, i, caps, st), a + |y|, caps, st, FULL, r1)
    requires r1.Yes? ==> r1.j == i + len && r1.caps == []
    ensures Good(c, Run(a, i, caps, st), a + |y + BehindIf(len)|, caps, opt, st, fl, AndRes(r1, i))
  {
    hide Linked, Gets, TestCode, MaybeTest, TestSize, MaybeSize;
    LinkedSplit(c.code, a, y, BehindIf(len), c.at);
    var x, b := Run(a, i, caps, st), a + |y + BehindIf(len)|;
    assert caps + [] == caps;
    if r1.Yes? {
      if len > 0 {
        Linked1(c.code, a + |y|, I(IBehind, len, 0), c.at);
        One(c, Run(a + |y|, r1.j, caps, st), Run(b, i, caps, st));
        Then(c, x, Run(a + |y|, r1.j, caps, st), Run(b, i, caps, st));
      }
      Arrives(c, x, b, i, caps, [], opt, st, fl);
    }
  }

  lemma AndChoiceLayout(code: seq<Slot>, a: int, y: seq<Slot>, at: seq<int>)
    requires Linked(code, a, AndChoice(y), at)
    ensures Linked(code, a + 2, y, at)
    ensures 0 <= a && At(code, a + 4 + |y|)
    ensures code[a] == Op(IChoice) && code[a + 1] == Off(4 + |y|)
    ensures code[a + 2 + |y|] == Op(IBackCommit) && code[a + 3 + |y|] == Off(3) && code[a + 4 + |y|] == Op(IFail)
  {
    hide Linked, TestCode, MaybeTest, TestSize, MaybeSize;
    var last := [Op(IBackCommit), Off(3), Op(IFail)];
    LinkedSplit(code, a, [Op(IChoice), Off(4 + |y|)] + y, last, at);
    LinkedSplit(code, a, [Op(IChoice), Off(4 + |y|)], y, at);
    Linked2(code, a, Op(IChoice), Off(4 + |y|), at);
    assert last == [Op(IBackCommit), Off(3)] + [Op(IFail)];
    LinkedSplit(code, a + 2 + |y|, [Op(IBackCommit), Off(3)], [Op(IFail)], at);
    Linked2(code, a + 2 + |y|, Op(IBackCommit), Off(3), at);
    Linked1(code, a + 4 + |y|, Op(IFail), at);
  }

  lemma AndChoiceRuns(c: Ctx, a: int, y: seq<Slot>, i: nat, caps: seq<Cap>, opt: bool, st: Stack, fl: Charset, r1: Res)
    requires Ok(c, i, caps, opt, st, fl) && ResOk(c, r1)
    requires Linked(c.code, a, AndChoice(y), c.at)
    requires var st' := Push(Choice(a + 4 + |y|, i, |caps|), st);
             Outcome(c, Run(a + 2, i, caps, st'), a + 2 + |y|, caps, st', FULL, r1)
    ensures Good(c, Run(a, i, caps, st), a + |AndChoice(y)|, caps, opt, st, fl, AndRes(r1, i))
  {
    hide Linked, Gets, TestCode, MaybeTest, TestSize, MaybeSize;
    AndChoiceLayout(c.code, a, y, c.at);
    var l1 := a + 4 + |y|;
    var x, b := Run(a, i, caps, st), l1 + 1;
    var st' := Push(Choice(l1, i, |caps|), st);
    One(c, x, Run(a + 2, i, caps, st'));
    OutcomeFrom(c, x, Run(a + 2, i, caps, st'), a + 2 + |y|, caps, st', FULL, r1);
    assert caps[..|caps|] == caps == caps + [];
    if r1.Yes? {
      var z := Run(a + 2 + |y|, r1.j, caps + r1.caps, st');
      assert (caps + r1.caps)[..|caps|] == caps;
      One(c, z, Run(b, i, caps, st));
      Then(c, x, z, Run(b, i, caps, st));
      Arrives(c, x, b, i, caps, [], opt, st, fl);
    }
    if r1.No? {
      One(c, Run(l1, i, caps, st), Backtrack(st, caps));
      Then(c, x, Run(l1, i, caps, st), Backtrack(st, caps));
    }
  }

  lemma BehindRuns(c: Ctx, a: int, len: nat, y: seq<Slot>,
                   i: nat, caps: seq<Cap>, opt: bool, st: Stack, fl: Charset, r1: Res)
    requires Ok(c, i, caps, opt, st, fl) && ResOk(c, r1)
    requires Linked(c.code, a, BehindIf(len) + y, c.at)
    requires var m := a + |BehindIf(len)|;
             i >= len ==> Outcome(c, Run(m, i - len, caps, st), m + |y|, caps, st, FULL, r1)
    requires r1.Yes? ==> r1.j == i && r1.caps == []
    ensures Good(c, Run(a, i, caps, st), a + |BehindIf(len) + y|, caps, opt, st, fl,
                 if i < len then No else AndRes(r1, i))
  {
    hide Linked, Gets, TestCode, MaybeTest, TestSize, MaybeSize;
    LinkedSplit(c.code, a, BehindIf(len), y, c.at);
    var x, b := Run(a, i, caps, st), a + |BehindIf(len) + y|;
    var m := a + |BehindIf(len)|;
    if len > 0 { Linked1(c.code, a, I(IBehind, len, 0), c.at); }
    if i < len {
      One(c, x, Backtrack(st, caps));
    } else {
      var z := Run(m, i - len, caps, st);
      if len > 0 { One(c, x, z); } else { Zero(c, x); }
      OutcomeFrom(c, x, z, b, caps, st, FULL, r1);
      if r1.Yes? { Arrives(c, x, b, i, caps, [], opt, st, fl); }
    }
  }

  lemma PackUnpack(kind: nat, off: nat)
    requires kind < 16 && off < 16
    ensures GetKind(JoinKindOff(kind, off)) == kind && GetOff(JoinKindOff(kind, off)) == off
  {
  }

  function CaptureRes(kind: nat, key: nat, i: nat, r1: Res): Res
    requires r1.Yes? ==> i <= r1.j
  {
    if r1.Yes? then Yes(r1.j, Enclose(kind, key, i, r1.j, r1.caps)) else r1
  }

  lemma CaptureFullRuns(c: Ctx, a: int, kind: nat, key: nat, len: nat, y: seq<Slot>,
                        i: nat, caps: seq<Cap>, opt: bool, st: Stack, fl: Charset, r1: Res)
    requires Ok(c, i, caps, opt, st, fl) && ResOk(c, r1) && kind < 16 && kind != CCLOSE && len <= MAXOFF
    requires Linked(c.code, a, CaptureFull(kind, key, len, y), c.at)
    requires Outcome(c, Run(a, i, caps, st), a + |y|, caps, st, fl, r1)
    requires r1.Yes? ==> r1.j == i + len && r1.caps == []
    ensures Good(c, Run(a, i, caps, st), a + |CaptureFull(kind, key, len, y)|, caps, opt, st, fl,
                 CaptureRes(kind, key, i, r1))
  {
    hide Linked, Gets, TestCode, MaybeTest, TestSize, MaybeSize;
    var op := I(IFullCapture, JoinKindOff(kind, len), key);
    LinkedSplit(c.code, a, y, [op], c.at);
    Linked1(c.code, a + |y|, op, c.at);
    PackUnpack(kind, len);
    var x, b := Run(a, i, caps, st), a + |y| + 1;
    assert caps + [] == caps;
    var inner := [Cap(i, key, kind, len + 1)];
    if r1.Yes? && Gets(c, x, Run(a + |y|, r1.j, caps, st)) {
      One(c, Run(a + |y|, r1.j, caps, st), Run(b, r1.j, caps + inner, st));
      Then(c, x, Run(a + |y|, r1.j, caps, st), Run(b, r1.j, caps + inner, st));
      Arrives(c, x, b, r1.j, caps, inner, opt, st, fl);
    }
  }

  lemma CaptureOpenLayout(code: seq<Slot>, a: int, kind: nat, key: nat, y: seq<Slot>, at: seq<int>)
    requires Linked(code, a, CaptureOpen(kind, key, y), at)
    ensures 0 <= a && Linked(code, a + 1, y, at) && At(code, a + 1 + |y|)
    ensures code[a] == I(IOpenCapture, JoinKindOff(kind, 0), key)
    ensures code[a + 1 + |y|] == I(ICloseCapture, JoinKindOff(CCLOSE, 0), 0)
  {
    hide Linked;
    var open, close := I(IOpenCapture, JoinKindOff(kind, 0), key), I(ICloseCapture, JoinKindOff(CCLOSE, 0), 0);
    LinkedSplit(code, a, [open] + y, [close], at);
    LinkedSplit(code, a, [open], y, at);
    Linked1(code, a, open, at);
    Linked1(code, a + 1 + |y|, close, at);
  }

  lemma CaptureOpenRuns(c: Ctx, a: int, kind: nat, key: nat, y: seq<Slot>,
                        i: nat, caps: seq<Cap>, opt: bool, st: Stack, fl: Charset, r1: Res)
    requires Ok(c, i, caps, opt, st, fl) && ResOk(c, r1) && kind < 16 && kind != CCLOSE
    requires Linked(c.code, a, CaptureOpen(kind, key, y), c.at)
    requires var caps1 := caps + [Cap(i, key, kind, 0)];
             Outcome(c, Run(a + 1, i, caps1, st), a + 1 + |y|, caps1, st, fl, r1)
    requires r1.Yes? ==> i <= r1.j && Balanced(r1.caps) && (r1.caps != [] ==> r1.caps[|r1.caps| - 1].siz != 0)
    ensures Good(c, Run(a, i, caps, st), a + |CaptureOpen(kind, key, y)|, caps, opt, st, fl,
                 CaptureRes(kind, key, i, r1))
  {
    hide Linked, Gets, TestCode, MaybeTest, TestSize, MaybeSize, FindsOpen, Balanced;
    CaptureOpenLayout(c.code, a, kind, key, y, c.at);
    PackUnpack(kind, 0);
    var x, b := Run(a, i, caps, st), a + 2 + |y|;
    var caps1 := caps + [Cap(i, key, kind, 0)];
    One(c, x, Run(a + 1, i, caps1, st));
    BacktrackSame(st, caps, caps1);
    OutcomeFrom(c, x, Run(a + 1, i, caps1, st), a + 1 + |y|, caps1, st, fl, r1);
    if r1.Yes? && Gets(c, x, Run(a + 1 + |y|, r1.j, caps1 + r1.caps, st)) {
      CloseEncloses(caps, kind, key, i, r1.j, r1.caps);
      var inner := Enclose(kind, key, i, r1.j, r1.caps);
      One(c, Run(a + 1 + |y|, r1.j, caps1 + r1.caps, st), Run(b, r1.j, caps + inner, st));
      Then(c, x, Run(a + 1 + |y|, r1.j, caps1 + r1.caps, st), Run(b, r1.j, caps + inner, st));
      Arrives(c, x, b, r1.j, caps, inner, opt, st, fl);
    }
  }

  /** Closing a capture leaves the entries the semantics asks for. */
  lemma CloseEncloses(caps: seq<Cap>, kind: nat, key: nat, i: nat, j: nat, inner: seq<Cap>)
    requires i <= j && kind != CCLOSE && Balanced(inner)
    requires inner != [] ==> inner[|inner| - 1].siz != 0
    ensures var all := caps + [Cap(i, key, kind, 0)] + inner;
            && Closable(all, j)
            && CloseCapture(all, j, JoinKindOff(CCLOSE, 0), 0) == caps + Enclose(kind, key, i, j, inner)
  {
    hide FindsOpen, Balanced;
    PackUnpack(CCLOSE, 0);
    OpenIsFound(caps, Cap(i, key, kind, 0), inner);
    var all := caps + [Cap(i, key, kind, 0)] + inner;
    if inner == [] {
      assert all[|all| - 1] == Cap(i, key, kind, 0);
    } else {
      assert all[|all| - 1] == inner[|inner| - 1];
    }
  }
}
