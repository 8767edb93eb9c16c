/** 'lp_match': fixes the tree of a pattern in its array, compiles it and runs it. The answer is that of the pattern as
    it was built, before 'finalfix' moved anything. */
module Matching {
  import opened Common
  import opened PegTree
  import opened Peg
  import opened Analysis
  import opened Vm
  import opened Layout
  import opened Code
  import opened Simulation
  import opened GrammarCheck
  import opened Compiler
  import opened FlatTree
  import opened Lpeg

  // ----- what 'finalfix' does not change -----

  lemma {:induction false} RotateCheck(g: seq<Tree>, t: Tree, pred: Pred, d: nat)
    requires Two(t)
    ensures CheckAux(g, Rotate(t), pred, d) == CheckAux(g, t, pred, d)
    decreases t.p1
  {
    if LeftNested(t) {
      assert CheckAux(g, Rotated(t).p2, pred, d) ==
        if t.TSeq? then CheckAux(g, t.p1.p2, pred, d) && CheckAux(g, t.p2, pred, d)
        else CheckAux(g, t.p1.p2, pred, d) || CheckAux(g, t.p2, pred, d);
      RotateCheck(g, Rotated(t), pred, d);
    }
  }

  lemma {:induction false} RightCheck(g: seq<Tree>, t: Tree, pred: Pred, d: nat)
    ensures CheckAux(g, Right(t), pred, d) == CheckAux(g, t, pred, d)
    decreases Size(t)
  {
    hide Rotate;
    if One(t) {
      RightCheck(g, t.p, pred, d);
    } else if Two(t) {
      RotateCheck(g, t, pred, d);
      RightCheck(g, Rotate(t).p1, pred, d);
      RightCheck(g, Rotate(t).p2, pred, d);
    }
  }

  lemma {:induction false} RotateLength(g: seq<Tree>, t: Tree, count: nat, len: nat)
    requires Two(t)
    ensures FixedLenX(g, Rotate(t), count, len) == FixedLenX(g, t, count, len)
    decreases t.p1
  {
    if LeftNested(t) {
      TurnLength(g, t, count, len);
      RotateLength(g, Rotated(t), count, len);
    }
  }

  lemma TurnLength(g: seq<Tree>, t: Tree, count: nat, len: nat)
    requires LeftNested(t)
    ensures FixedLenX(g, Rotated(t), count, len) == FixedLenX(g, t, count, len)
  {
    var l1 := FixedLenX(g, t.p1.p1, count, len);
    if t.TSeq? && l1 >= 0 {
      assert FixedLenX(g, TSeq(t.p1.p2, t.p2), count, l1) ==
        var l2 := FixedLenX(g, t.p1.p2, count, l1); if l2 < 0 then -1 else FixedLenX(g, t.p2, count, l2);
    }
  }

  lemma {:induction false} RightLength(g: seq<Tree>, t: Tree, count: nat, len: nat)
    ensures FixedLenX(g, Right(t), count, len) == FixedLenX(g, t, count, len)
    decreases Size(t)
  {
    hide Rotate;
    if t.TCapture? {
      RightLength(g, t.p, count, len);
    } else if Two(t) {
      var r := Rotate(t);
      RotateLength(g, t, count, len);
      RightLength(g, r.p1, count, len);
      RightLength(g, r.p2, count, len);
      var l1 := FixedLenX(g, r.p1, count, len);
      if l1 >= 0 { RightLength(g, r.p2, count, l1); }
    }
  }

  lemma {:induction false} RotateVisit(g: seq<Tree>, t: Tree, path: set<nat>)
    requires Two(t)
    ensures Visit(g, Rotate(t), path) == Visit(g, t, path)
    decreases t.p1
  {
    if LeftNested(t) {
      TurnVisit(g, t, path);
      RotateVisit(g, Rotated(t), path);
    }
  }

  lemma TurnVisit(g: seq<Tree>, t: Tree, path: set<nat>)
    requires LeftNested(t)
    ensures Visit(g, Rotated(t), path) == Visit(g, t, path)
  {
    assert Visit(g, Rotated(t).p2, path) ==
      var r := Visit(g, t.p1.p2, path); if r == NoCap then Visit(g, t.p2, path) else r;
  }

  lemma {:induction false} RightVisit(g: seq<Tree>, t: Tree, path: set<nat>)
    ensures Visit(g, Right(t), path) == Visit(g, t, path)
    decreases Size(t)
  {
    hide Rotate;
    if One(t) {
      RightVisit(g, t.p, path);
    } else if Two(t) {
      RotateVisit(g, t, path);
      RightVisit(g, Rotate(t).p1, path);
      RightVisit(g, Rotate(t).p2, path);
    }
  }

  /** A property of trees that holds of a pair exactly if it holds of both parts does not depend on how pairs nest. */
  lemma {:induction false} RotateParts(g: seq<Tree>, t: Tree)
    requires Two(t)
    ensures Calls(Rotate(t)) == Calls(t) && CheckLoops(g, Rotate(t)) == CheckLoops(g, t)
    ensures Fit(Rotate(t)) == Fit(t) && Wf(g, Rotate(t)) == Wf(g, t) && SearchesEnd(g, Rotate(t)) == SearchesEnd(g, t)
    decreases t.p1
  {
    if LeftNested(t) {
      TurnParts(g, t);
      RotateParts(g, Rotated(t));
    }
  }

  lemma TurnParts(g: seq<Tree>, t: Tree)
    requires LeftNested(t)
    ensures Calls(Rotated(t)) == Calls(t) && CheckLoops(g, Rotated(t)) == CheckLoops(g, t)
    ensures Fit(Rotated(t)) == Fit(t) && Wf(g, Rotated(t)) == Wf(g, t)
    ensures SearchesEnd(g, Rotated(t)) == SearchesEnd(g, t)
  {
    hide Accepted, FixedLenX, Visit, CheckAux;
    var r := Rotated(t).p2;
    assert Calls(r) == Calls(t.p1.p2) + Calls(t.p2) && Fit(r) == (Fit(t.p1.p2) && Fit(t.p2));
    assert Wf(g, r) == (Wf(g, t.p1.p2) && Wf(g, t.p2));
    assert CheckLoops(g, r) == (CheckLoops(g, t.p1.p2) || CheckLoops(g, t.p2));
    assert SearchesEnd(g, r) == (SearchesEnd(g, t.p1.p2) && SearchesEnd(g, t.p2));
  }

  lemma {:induction false} RightParts(g: seq<Tree>, t: Tree)
    ensures Calls(Right(t)) == Calls(t) && CheckLoops(g, Right(t)) == CheckLoops(g, t)
    ensures Fit(Right(t)) == Fit(t) && Wf(g, Right(t)) == Wf(g, t) && SearchesEnd(g, Right(t)) == SearchesEnd(g, t)
    decreases Size(t)
  {
    hide Rotate, Accepted, FixedLenX, Visit, CheckAux;
    if One(t) {
      RightParts(g, t.p);
      RightOneParts(g, t);
    } else if Two(t) {
      RotateParts(g, t);
      RightParts(g, Rotate(t).p1);
      RightParts(g, Rotate(t).p2);
    }
  }

  lemma RightOneParts(g: seq<Tree>, t: Tree)
    requires One(t) && Calls(Right(t.p)) == Calls(t.p) && CheckLoops(g, Right(t.p)) == CheckLoops(g, t.p)
    requires Fit(Right(t.p)) == Fit(t.p) && Wf(g, Right(t.p)) == Wf(g, t.p)
    requires SearchesEnd(g, Right(t.p)) == SearchesEnd(g, t.p)
    ensures Calls(Right(t)) == Calls(t) && CheckLoops(g, Right(t)) == CheckLoops(g, t)
    ensures Fit(Right(t)) == Fit(t) && Wf(g, Right(t)) == Wf(g, t) && SearchesEnd(g, Right(t)) == SearchesEnd(g, t)
  {
    hide Rotate, Accepted, FixedLenX, Visit, CheckAux;
    RightCheck(g, t.p, PEnullable, DEPTH);
    RightLength(g, t.p, 0, 0);
    RightVisit(g, t.p, {});
    assert Right(t) == t.(p := Right(t.p));
  }

  /** A pattern that the library accepts. What the code generator makes of it depends on the tree as it is fixed. */
  ghost predicate Ready(t: Tree) {
    Checked(t) && Wf([], t) && SearchesEnd([], t) && OptSafe([], Right(t), false, FULL)
  }

  /** A pattern that was accepted as it was built is good to compile as it is fixed. */
  lemma FixedIsGood(t: Tree)
    requires Ready(t)
    ensures Good(Right(t))
  {
    hide OptSafe, Fit, Wf, SearchesEnd, CheckLoops, Calls;
    RightParts([], t);
  }

  // ----- patterns as they are written -----

  /** The tree that is built for pattern t: 'newgrammar' has fixed the grammars in it. */
  function Stored(t: Tree): Tree
    decreases t
  {
    match t
    case TRep(p) => TRep(Stored(p))
    case TNot(p) => TNot(Stored(p))
    case TAnd(p) => TAnd(Stored(p))
    case TBehind(n, p) => TBehind(n, Stored(p))
    case TCapture(kind, key, p) => TCapture(kind, key, Stored(p))
    case TSeq(p1, p2) => TSeq(Stored(p1), Stored(p2))
    case TChoice(p1, p2) => TChoice(Stored(p1), Stored(p2))
    case TGrammar(rules) => TGrammar(RightAll(StoredAll(rules)))
    case _ => t
  }

  function StoredAll(g: seq<Tree>): seq<Tree>
    decreases g, 0
  {
    seq(|g|, k requires 0 <= k < |g| => Stored(g[k]))
  }

  /** Fixing all grammars, however deeply they are nested, keeps the result of every match. */
  lemma {:induction false} StoredEval(g: seq<Tree>, t: Tree, s: seq<Byte>, i: nat, n: nat)
    requires i <= |s|
    ensures Eval(StoredAll(g), Stored(t), s, i, n) == Eval(g, t, s, i, n)
    decreases n, t, |s| - i
  {
    hide StoredAll, Right, RightAll;
    match t
    case TRep(p) =>
      StoredEval(g, p, s, i, n);
      var r := Eval(g, p, s, i, n);
      if r.Yes? && r.j > i { StoredEval(g, t, s, r.j, n); }
    case TSeq(p1, p2) =>
      StoredEval(g, p1, s, i, n);
      var r := Eval(g, p1, s, i, n);
      if r.Yes? { StoredEval(g, p2, s, r.j, n); }
    case TChoice(p1, p2) => StoredEval(g, p1, s, i, n); StoredEval(g, p2, s, i, n);
    case TNot(p) => StoredEval(g, p, s, i, n);
    case TAnd(p) => StoredEval(g, p, s, i, n);
    case TBehind(m, p) => if i >= m { StoredEval(g, p, s, i - m, n); }
    case TCapture(_, _, p) => StoredEval(g, p, s, i, n);
    case TCall(k) =>
      StoredRules(g, k);
      if n > 0 && k < |g| { StoredEval(g, g[k], s, i, n - 1); }
    case TGrammar(rules) =>
      StoredRules(rules, 0);
      if rules != [] {
        StoredEval(rules, rules[0], s, i, n);
        RightEval(StoredAll(rules), Stored(rules[0]), s, i, n);
      }
    case _ =>
  }

  lemma StoredRules(g: seq<Tree>, k: nat)
    ensures |StoredAll(g)| == |g| == |RightAll(StoredAll(g))|
    ensures k < |g| ==> StoredAll(g)[k] == Stored(g[k]) && RightAll(StoredAll(g))[k] == Right(Stored(g[k]))
  {
  }

  /** The tree that is compiled matches as the pattern that was written. */
  lemma FixedEval(t: Tree, s: seq<Byte>, i: nat, n: nat)
    requires i <= |s|
    ensures Eval([], Right(Stored(t)), s, i, n) == Eval([], t, s, i, n)
  {
    StoredEval([], t, s, i, n);
    RightEval([], Stored(t), s, i, n);
    assert StoredAll([]) == [] && RightAll([]) == [];
  }

  // ----- matching -----

  /** 'prepcompile': fixes the tree in its array and compiles it; fails exactly if there is a call outside all
      grammars. */
  method PrepCompile(a: array<Node>, t: Tree) returns (code: Option<seq<Slot>>)
    requires a.Length == Size(t) && Laid(a[..], 0, t, Pending) && (Calls(t) == {} ==> Ready(t))
    modifies a
    ensures code.None? <==> Calls(t) != {}
    ensures code.Some? ==> Laid(a[..], 0, Right(t), Pending) && code.value == Compiled(Right(t)) && Good(Right(t))
  {
    hide Laid, Right, Fit, Wf, SearchesEnd, OptSafe, CheckLoops, Calls, Compiled;
    var ok := FixPattern(a, t);
    if !ok { return None; }
    FixedIsGood(t);
    var p := Compile(Right(t));
    return Some(p);
  }

  /** 'initposition': a Lua index as a 0-based position; negative indices count from the end. */
  function InitPosition(len: nat, ii: int): (i: nat)
    ensures i <= len
    ensures 1 <= ii <= len ==> i == ii - 1
    ensures 0 - len <= ii <= 0 ==> i == len + ii
    ensures ii > len ==> i == len
    ensures ii < 0 - len ==> i == 0
  {
    if ii > 0 then if ii <= len then ii - 1 else len
    else if -ii <= len then len - (-ii)
    else 0
  }

  /** 'lp_match' on a pattern that has not been compiled yet; 'a' is its tree, built for pattern t. */
  method LpMatch(a: array<Node>, t: Tree, s: seq<Byte>, ii: int) returns (r: Option<Answer>)
    requires a.Length == Size(Stored(t)) && Laid(a[..], 0, Stored(t), Pending)
    requires Calls(Stored(t)) == {} ==> Ready(Stored(t))
    modifies a
    ensures r.None? <==> Calls(t) != {}
    ensures r.Some? ==> exists n: nat :: Eval([], t, s, InitPosition(|s|, ii), n) != Out
    ensures r.Some? ==>
      forall n: nat :: var m := Eval([], t, s, InitPosition(|s|, ii), n); m != Out ==> r.value == AnswerOf(m)
  {
    hide Compiled, Good, Ready, Eval, Laid, Right, Stored, Calls;
    StoredCalls(t);
    var code := PrepCompile(a, Stored(t));
    if code.None? { return None; }
    var i := InitPosition(|s|, ii);
    ghost var k := MatchCorrect(Right(Stored(t)), s, i);
    FixedEval(t, s, i, k);
    ghost var b := AnswerOf(Eval([], t, s, i, k));
    assert Answers(code.value, s, i, b);
    ghost var n: nat :| Iter(code.value, s, Start(i), n) == Halt(b);
    var answer := Match(code.value, s, i, n);
    forall m: nat | Eval([], t, s, i, m) != Out ensures answer == AnswerOf(Eval([], t, s, i, m)) {
      EvalSame(t, s, i, k, m);
    }
    return Some(answer);
  }

  lemma {:induction false} StoredCalls(t: Tree)
    ensures Calls(Stored(t)) == Calls(t)
    decreases t
  {
    match t
    case TRep(p) => StoredCalls(p);
    case TNot(p) => StoredCalls(p);
    case TAnd(p) => StoredCalls(p);
    case TBehind(_, p) => StoredCalls(p);
    case TCapture(_, _, p) => StoredCalls(p);
    case TSeq(p1, p2) => StoredCalls(p1); StoredCalls(p2);
    case TChoice(p1, p2) => StoredCalls(p1); StoredCalls(p2);
    case _ =>
  }
}
