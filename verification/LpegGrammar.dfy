/** 'verifygrammar' of lptree.c: grammars it accepts have no left recursion and no empty loops, so matching ends. */
module GrammarCheck {
  import opened Common
  import opened PegTree
  import opened Peg
  import opened Analysis

  /** Outcome of 'verifyrule': an error, or whether the pattern may match the empty string. */
  datatype Verdict = Rejected | Passed(nullable: bool)

  /** 'left' is how many more rules may be entered before the check gives up (MAXRULES - npassed). At a nested
      grammar 'verifyrule' forgets that an earlier alternative was nullable; with 'keep' it does not, as its comment
      promises. */
  function VerifyRule(g: seq<Tree>, t: Tree, left: nat, nullable: bool, keep: bool): Verdict
    decreases left, t
  {
    match t
    case TChar(_) => Passed(nullable)
    case TSet(_) => Passed(nullable)
    case TAny => Passed(nullable)
    case TFalse => Passed(nullable)
    case TTrue => Passed(true)
    case TBehind(_, _) => Passed(true)
    case TNot(p) => VerifyRule(g, p, left, true, keep)
    case TAnd(p) => VerifyRule(g, p, left, true, keep)
    case TRep(p) => VerifyRule(g, p, left, true, keep)
    case TCapture(_, _, p) => VerifyRule(g, p, left, nullable, keep)
    case TCall(k) => if left == 0 || k >= |g| then Rejected else VerifyRule(g, g[k], left - 1, nullable, keep)
    case TSeq(p1, p2) => (
      match VerifyRule(g, p1, left, false, keep)
      case Rejected => Rejected
      case Passed(false) => Passed(nullable)
      case Passed(true) => VerifyRule(g, p2, left, nullable, keep)
      )
    case TChoice(p1, p2) => (
      match VerifyRule(g, p1, left, nullable, keep)
      case Rejected => Rejected
      case Passed(b) => VerifyRule(g, p2, left, b, keep)
      )
    case TGrammar(rules) => Passed((keep && nullable) || CheckAux(g, t, PEnullable, DEPTH))
  }

  /** A repetition whose body may match the empty string. */
  predicate CheckLoops(g: seq<Tree>, t: Tree) {
    match t
    case TRep(p) => CheckAux(g, p, PEnullable, DEPTH) || CheckLoops(g, p)
    case TNot(p) => CheckLoops(g, p)
    case TAnd(p) => CheckLoops(g, p)
    case TBehind(_, p) => CheckLoops(g, p)
    case TCapture(_, _, p) => CheckLoops(g, p)
    case TSeq(p1, p2) => CheckLoops(g, p1) || CheckLoops(g, p2)
    case TChoice(p1, p2) => CheckLoops(g, p1) || CheckLoops(g, p2)
    case _ => false
  }

  /** The rules a tree calls; calls in a nested grammar are calls of its own rules. */
  function Calls(t: Tree): set<nat> {
    match t
    case TCall(k) => {k}
    case TRep(p) => Calls(p)
    case TNot(p) => Calls(p)
    case TAnd(p) => Calls(p)
    case TBehind(_, p) => Calls(p)
    case TCapture(_, _, p) => Calls(p)
    case TSeq(p1, p2) => Calls(p1) + Calls(p2)
    case TChoice(p1, p2) => Calls(p1) + Calls(p2)
    case _ => {}
  }

  /** A rule some other rule calls, or the initial one; other rules are not checked. */
  predicate Used(g: seq<Tree>, k: nat) {
    k < |g| && (k == 0 || exists m :: 0 <= m < |g| && k in Calls(g[m]))
  }

  /** 'verifygrammar' raises no error. */
  predicate VerifyGrammar(g: seq<Tree>, keep: bool) {
    forall k :: 0 <= k < |g| && Used(g, k) ==>
      VerifyRule(g, g[k], MAXRULES, false, keep).Passed? && !CheckLoops(g, g[k])
  }

  /** The grammars inside are accepted, and there are no calls under a look-behind. 'hascaptures', which 'lp_behind'
      asks about its body, asserts the latter, and 'verifyrule' relies on it; but lptypes.h switches assertions off, so
      the library as it is built takes calls in look-aheads there. See Limits.BehindCallLoops. */
  ghost predicate Fit(t: Tree)
    decreases t, 0
  {
    match t
    case TGrammar(rules) => Accepted(rules)
    case TRep(p) => Fit(p)
    case TNot(p) => Fit(p)
    case TAnd(p) => Fit(p)
    case TBehind(_, p) => Fit(p) && Calls(p) == {}
    case TCapture(_, _, p) => Fit(p)
    case TSeq(p1, p2) => Fit(p1) && Fit(p2)
    case TChoice(p1, p2) => Fit(p1) && Fit(p2)
    case _ => true
  }

  /** A grammar whose calls all have a rule, accepted by the check, even by one that keeps the flag at nested
      grammars. */
  ghost predicate Accepted(g: seq<Tree>)
    decreases g, 1
  {
    && g != [] && VerifyGrammar(g, true)
    && forall k :: 0 <= k < |g| ==> Fit(g[k]) && forall c :: c in Calls(g[k]) ==> c < |g|
  }

  /** A tree in grammar g (or outside all grammars, if there are no rules): it calls only checked rules. */
  ghost predicate Piece(g: seq<Tree>, t: Tree) {
    Fit(t) && (g == [] || Accepted(g)) && forall c :: c in Calls(t) ==> Used(g, c)
  }

  lemma RuleIsPiece(g: seq<Tree>, k: nat)
    requires Accepted(g) && k < |g|
    ensures Piece(g, g[k])
  {
  }

  // ----- what a verdict means -----

  /** Whether a pattern is rejected does not depend on the accumulated flag, which is never lost. */
  lemma {:induction false} VerdictFlag(g: seq<Tree>, t: Tree, left: nat, b: bool, b': bool)
    ensures VerifyRule(g, t, left, b, true).Passed? <==> VerifyRule(g, t, left, b', true).Passed?
    ensures VerifyRule(g, t, left, true, true).Passed? ==> VerifyRule(g, t, left, true, true).nullable
    decreases left, t
  {
    match t
    case TNot(p) => VerdictFlag(g, p, left, true, true);
    case TAnd(p) => VerdictFlag(g, p, left, true, true);
    case TRep(p) => VerdictFlag(g, p, left, true, true);
    case TCapture(_, _, p) => VerdictFlag(g, p, left, b, b');
    case TCall(k) => if left > 0 && k < |g| { VerdictFlag(g, g[k], left - 1, b, b'); }
    case TSeq(p1, p2) => VerdictFlag(g, p2, left, b, b');
    case TChoice(p1, p2) =>
      VerdictFlag(g, p1, left, b, b');
      VerdictFlag(g, p2, left, true, false);
    case _ =>
  }

  /** What passes with the flag kept passes as the code is, with a verdict that is nullable only if the other one is. */
  lemma {:induction false} KeptIsStronger(g: seq<Tree>, t: Tree, left: nat, b: bool, b': bool)
    requires VerifyRule(g, t, left, b, true).Passed? && (b' ==> b)
    ensures VerifyRule(g, t, left, b', false).Passed?
    ensures VerifyRule(g, t, left, b', false).nullable ==> VerifyRule(g, t, left, b, true).nullable
    decreases left, t
  {
    match t
    case TNot(p) => KeptIsStronger(g, p, left, true, true);
    case TAnd(p) => KeptIsStronger(g, p, left, true, true);
    case TRep(p) => KeptIsStronger(g, p, left, true, true);
    case TCapture(_, _, p) => KeptIsStronger(g, p, left, b, b');
    case TCall(k) => KeptIsStronger(g, g[k], left - 1, b, b');
    case TSeq(p1, p2) =>
      KeptIsStronger(g, p1, left, false, false);
      if VerifyRule(g, p1, left, false, false).nullable { KeptIsStronger(g, p2, left, b, b'); }
      if b && VerifyRule(g, p1, left, false, true).nullable { VerdictFlag(g, p2, left, true, true); }
    case TChoice(p1, p2) =>
      KeptIsStronger(g, p1, left, b, b');
      KeptIsStronger(g, p2, left, VerifyRule(g, p1, left, b, true).nullable,
                     VerifyRule(g, p1, left, b', false).nullable);
    case _ =>
  }

  /** On its way the check meets a nested grammar that is not nullable, after something nullable. */
  predicate Loses(g: seq<Tree>, t: Tree, left: nat, nullable: bool)
    decreases left, t
  {
    match t
    case TNot(p) => Loses(g, p, left, true)
    case TAnd(p) => Loses(g, p, left, true)
    case TRep(p) => Loses(g, p, left, true)
    case TCapture(_, _, p) => Loses(g, p, left, nullable)
    case TCall(k) => left > 0 && k < |g| && Loses(g, g[k], left - 1, nullable)
    case TSeq(p1, p2) =>
      || Loses(g, p1, left, false)
      || (VerifyRule(g, p1, left, false, false) == Passed(true) && Loses(g, p2, left, nullable))
    case TChoice(p1, p2) =>
      var r := VerifyRule(g, p1, left, nullable, false);
      Loses(g, p1, left, nullable) || (r.Passed? && Loses(g, p2, left, r.nullable))
    case TGrammar(_) => nullable && !CheckAux(g, t, PEnullable, DEPTH)
    case _ => false
  }

  /** Elsewhere the verdict is what the comment of 'verifyrule' promises. */
  lemma {:induction false} NothingLost(g: seq<Tree>, t: Tree, left: nat, b: bool)
    requires !Loses(g, t, left, b)
    ensures VerifyRule(g, t, left, b, false) == VerifyRule(g, t, left, b, true)
    decreases left, t
  {
    match t
    case TNot(p) => NothingLost(g, p, left, true);
    case TAnd(p) => NothingLost(g, p, left, true);
    case TRep(p) => NothingLost(g, p, left, true);
    case TCapture(_, _, p) => NothingLost(g, p, left, b);
    case TCall(k) => if left > 0 && k < |g| { NothingLost(g, g[k], left - 1, b); }
    case TSeq(p1, p2) =>
      NothingLost(g, p1, left, false);
      if VerifyRule(g, p1, left, false, false) == Passed(true) { NothingLost(g, p2, left, b); }
    case TChoice(p1, p2) =>
      NothingLost(g, p1, left, b);
      var r := VerifyRule(g, p1, left, b, false);
      if r.Passed? { NothingLost(g, p2, left, r.nullable); }
    case _ =>
  }

  /** The check with the flag kept is the stronger one, and the two agree on grammars in which no flag is lost. */
  lemma KeptOrLost(g: seq<Tree>)
    ensures VerifyGrammar(g, true) ==> VerifyGrammar(g, false)
    ensures VerifyGrammar(g, false) && (forall k :: 0 <= k < |g| && Used(g, k) ==> !Loses(g, g[k], MAXRULES, false)) ==>
      VerifyGrammar(g, true)
  {
    hide VerifyRule, CheckLoops, Loses, Used;
    forall k | 0 <= k < |g| && Used(g, k) && VerifyRule(g, g[k], MAXRULES, false, true).Passed?
      ensures VerifyRule(g, g[k], MAXRULES, false, false).Passed?
    {
      KeptIsStronger(g, g[k], MAXRULES, false, false);
    }
    forall k | 0 <= k < |g| && Used(g, k) && !Loses(g, g[k], MAXRULES, false)
      ensures VerifyRule(g, g[k], MAXRULES, false, true) == VerifyRule(g, g[k], MAXRULES, false, false)
    {
      NothingLost(g, g[k], MAXRULES, false);
    }
  }

  /** A pattern that matches without consuming input has a nullable verdict. */
  lemma {:induction false} VerdictNullable(g: seq<Tree>, t: Tree, left: nat, b: bool, s: seq<Byte>, i: nat, n: nat)
    requires i <= |s| && VerifyRule(g, t, left, b, true).Passed?
    requires Eval(g, t, s, i, n).Yes? && Eval(g, t, s, i, n).j == i
    ensures VerifyRule(g, t, left, b, true).nullable
    decreases left, t
  {
    match t
    case TNot(p) => VerdictFlag(g, p, left, true, true);
    case TAnd(p) => VerdictFlag(g, p, left, true, true);
    case TRep(p) => VerdictFlag(g, p, left, true, true);
    case TCapture(_, _, p) => VerdictNullable(g, p, left, b, s, i, n);
    case TCall(k) => VerdictNullable(g, g[k], left - 1, b, s, i, n - 1);
    case TSeq(p1, p2) =>
      VerdictNullable(g, p1, left, false, s, i, n);
      VerdictNullable(g, p2, left, b, s, i, n);
    case TChoice(p1, p2) =>
      if Eval(g, p1, s, i, n).Yes? {
        VerdictNullable(g, p1, left, b, s, i, n);
        VerdictFlag(g, p2, left, true, true);
      } else {
        VerdictNullable(g, p2, left, VerifyRule(g, p1, left, b, true).nullable, s, i, n);
      }
    case TGrammar(_) => CheckAuxSound(g, t, DEPTH, s, i, n);
    case _ =>
  }

  /** Anything that calls only checked rules passes with one more rule to enter. */
  lemma {:induction false} PieceVerdict(g: seq<Tree>, t: Tree, b: bool)
    requires Piece(g, t)
    ensures VerifyRule(g, t, MAXRULES + 1, b, true).Passed?
  {
    hide Fit, CheckAux;
    match t
    case TNot(p) => PartIsPiece(g, t); PieceVerdict(g, p, true);
    case TAnd(p) => PartIsPiece(g, t); PieceVerdict(g, p, true);
    case TRep(p) => PartIsPiece(g, t); PieceVerdict(g, p, true);
    case TCapture(_, _, p) => PartIsPiece(g, t); PieceVerdict(g, p, b);
    case TCall(k) =>
      assert k in Calls(t);
      VerdictFlag(g, g[k], MAXRULES, false, b);
    case TSeq(p1, p2) =>
      PartIsPiece(g, t);
      PieceVerdict(g, p1, false);
      PieceVerdict(g, p2, b);
    case TChoice(p1, p2) =>
      PartIsPiece(g, t);
      PieceVerdict(g, p1, b);
      PieceVerdict(g, p2, VerifyRule(g, p1, MAXRULES + 1, b, true).nullable);
    case _ =>
  }

  lemma PartIsPiece(g: seq<Tree>, t: Tree)
    requires Piece(g, t)
    ensures t.TNot? || t.TAnd? || t.TRep? || t.TCapture? ==> Piece(g, t.p)
    ensures t.TSeq? || t.TChoice? ==> Piece(g, t.p1) && Piece(g, t.p2)
    ensures t.TGrammar? ==> Accepted(t.rules)
  {
    hide Accepted, Used;
  }

  // ----- matching ends -----

  lemma Max(g: seq<Tree>, t: Tree, s: seq<Byte>, i: nat, n: nat, m: nat)
    requires i <= |s| && Eval(g, t, s, i, n) != Out
    ensures Eval(g, t, s, i, Larger(n, m)) == Eval(g, t, s, i, n)
  {
    EvalMono(g, t, s, i, n, Larger(n, m));
  }

  /** Matching ends if the two parts do. */
  lemma SeqEnds(g: seq<Tree>, t: Tree, s: seq<Byte>, i: nat, n: nat, m: nat)
    requires t.TSeq? && i <= |s| && Eval(g, t.p1, s, i, n) != Out
    requires var r := Eval(g, t.p1, s, i, n); r.Yes? ==> Eval(g, t.p2, s, r.j, m) != Out
    ensures Eval(g, t, s, i, Larger(n, m)) != Out
  {
    Max(g, t.p1, s, i, n, m);
    var r := Eval(g, t.p1, s, i, n);
    if r.Yes? { Max(g, t.p2, s, r.j, m, n); }
  }

  lemma RepEnds(g: seq<Tree>, t: Tree, s: seq<Byte>, i: nat, n: nat, m: nat)
    requires t.TRep? && i <= |s| && Eval(g, t.p, s, i, n) != Out
    requires var r := Eval(g, t.p, s, i, n); r.Yes? ==> r.j > i && Eval(g, t, s, r.j, m) != Out
    ensures Eval(g, t, s, i, Larger(n, m)) != Out
  {
    Max(g, t.p, s, i, n, m);
    var r := Eval(g, t.p, s, i, n);
    if r.Yes? { Max(g, t, s, r.j, m, n); }
  }

  lemma ChoiceEnds(g: seq<Tree>, t: Tree, s: seq<Byte>, i: nat, n: nat, m: nat)
    requires t.TChoice? && i <= |s| && Eval(g, t.p1, s, i, n) != Out && Eval(g, t.p2, s, i, m) != Out
    ensures Eval(g, t, s, i, Larger(n, m)) != Out
  {
    Max(g, t.p1, s, i, n, m);
    Max(g, t.p2, s, i, m, n);
  }

  /** Outside grammars matching ends because loops advance; nested grammars are taken care of by PieceEnds. */
  lemma {:induction false} MatchEnds(t: Tree, s: seq<Byte>, i: nat) returns (n: nat)
    requires Checked(t) && i <= |s|
    ensures Eval([], t, s, i, n) != Out
    decreases Nesting(t), 0, t, |s| - i
  {
    hide CheckAux;
    n := 0;
    NotACall(t);
    match t
    case TRep(p) =>
      n := MatchEnds(p, s, i);
      CheckAuxSound([], p, DEPTH, s, i, n);
      var r := Eval([], p, s, i, n);
      var m := 0;
      if r.Yes? { m := MatchEnds(t, s, r.j); }
      RepEnds([], t, s, i, n, m);
      n := Larger(n, m);
    case TSeq(p1, p2) =>
      n := MatchEnds(p1, s, i);
      var r := Eval([], p1, s, i, n);
      var m := 0;
      if r.Yes? { m := MatchEnds(p2, s, r.j); }
      SeqEnds([], t, s, i, n, m);
      n := Larger(n, m);
    case TChoice(p1, p2) =>
      n := MatchEnds(p1, s, i);
      var m := MatchEnds(p2, s, i);
      ChoiceEnds([], t, s, i, n, m);
      n := Larger(n, m);
    case TNot(p) => n := MatchEnds(p, s, i);
    case TAnd(p) => n := MatchEnds(p, s, i);
    case TBehind(m, p) => if i >= m { n := MatchEnds(p, s, i - m); }
    case TCapture(_, _, p) => n := MatchEnds(p, s, i);
    case TGrammar(rules) =>
      assert Used(rules, 0);
      RuleIsPiece(rules, 0);
      n := PieceEnds(rules, rules[0], s, i, MAXRULES);
    case _ =>
  }

  /** Patterns as the library builds them: loop bodies consume input, grammars were accepted, no call is left open. */
  ghost predicate Checked(t: Tree) {
    Fit(t) && Calls(t) == {} && !CheckLoops([], t)
  }

  lemma NotACall(t: Tree)
    requires Calls(t) == {}
    ensures !t.TCall?
  {
    assert forall k :: k !in Calls(t);
  }

  /** The rules of the enclosing grammar do not matter where there are no calls. */
  lemma {:induction false} NoCallsEval(g: seq<Tree>, t: Tree, s: seq<Byte>, i: nat, n: nat)
    requires i <= |s| && Calls(t) == {}
    ensures Eval(g, t, s, i, n) == Eval([], t, s, i, n)
    decreases t, |s| - i
  {
    NotACall(t);
    match t
    case TRep(p) =>
      NoCallsEval(g, p, s, i, n);
      var r := Eval(g, p, s, i, n);
      if r.Yes? && r.j > i { NoCallsEval(g, t, s, r.j, n); }
    case TSeq(p1, p2) =>
      NoCallsEval(g, p1, s, i, n);
      var r := Eval(g, p1, s, i, n);
      if r.Yes? { NoCallsEval(g, p2, s, r.j, n); }
    case TChoice(p1, p2) => NoCallsEval(g, p1, s, i, n); NoCallsEval(g, p2, s, i, n);
    case TNot(p) => NoCallsEval(g, p, s, i, n);
    case TAnd(p) => NoCallsEval(g, p, s, i, n);
    case TBehind(m, p) => if i >= m { NoCallsEval(g, p, s, i - m, n); }
    case TCapture(_, _, p) => NoCallsEval(g, p, s, i, n);
    case _ =>
  }

  /** Matching a piece of an accepted grammar ends: input left, then rules still to enter, then size of the tree go
      down. */
  lemma {:induction false} PieceEnds(g: seq<Tree>, t: Tree, s: seq<Byte>, i: nat, left: nat) returns (n: nat)
    requires Piece(g, t) && !CheckLoops(g, t) && i <= |s|
    requires VerifyRule(g, t, left, false, true).Passed?
    ensures Eval(g, t, s, i, n) != Out
    decreases Height(g, t), 1, |s| - i, left, t
  {
    hide CheckAux, Fit, Accepted;
    n := 0;
    PartIsPiece(g, t);
    match t
    case TRep(p) =>
      VerdictFlag(g, p, left, true, false);
      n := PieceEnds(g, p, s, i, left);
      CheckAuxSound(g, p, DEPTH, s, i, n);
      var r := Eval(g, p, s, i, n);
      var m := 0;
      if r.Yes? {
        PieceVerdict(g, t, false);
        m := PieceEnds(g, t, s, r.j, MAXRULES + 1);
      }
      RepEnds(g, t, s, i, n, m);
      n := Larger(n, m);
    case TSeq(p1, p2) => n := SeqPieceEnds(g, t, s, i, left);
    case TChoice(p1, p2) =>
      n := PieceEnds(g, p1, s, i, left);
      VerdictFlag(g, p2, left, false, VerifyRule(g, p1, left, false, true).nullable);
      var m := PieceEnds(g, p2, s, i, left);
      ChoiceEnds(g, t, s, i, n, m);
      n := Larger(n, m);
    case TNot(p) => VerdictFlag(g, p, left, true, false); n := PieceEnds(g, p, s, i, left);
    case TAnd(p) => VerdictFlag(g, p, left, true, false); n := PieceEnds(g, p, s, i, left);
    case TBehind(m, p) =>
      BehindChecked(g, t);
      if i >= m {
        n := MatchEnds(p, s, i - m);
        NoCallsEval(g, p, s, i - m, n);
      }
    case TCapture(_, _, p) => n := PieceEnds(g, p, s, i, left);
    case TCall(k) => n := CallEnds(g, k, s, i, left);
    case TGrammar(rules) =>
      BehindChecked(g, t);
      n := MatchEnds(t, s, i);
    case _ =>
  }

  lemma BehindChecked(g: seq<Tree>, t: Tree)
    requires Fit(t) && !CheckLoops(g, t)
    ensures t.TBehind? ==> Checked(t.p) && Nesting(t.p) == Nesting(t)
    ensures t.TGrammar? ==> Checked(t)
  {
    if t.TBehind? { NoCallsLoops(g, t.p); }
  }

  /** Without calls the checks do not depend on the rules. */
  lemma {:induction false} NoCallsCheck(g: seq<Tree>, t: Tree, pred: Pred, d: nat)
    requires Calls(t) == {}
    ensures CheckAux(g, t, pred, d) == CheckAux([], t, pred, d)
  {
    NotACall(t);
    match t
    case TAnd(p) => NoCallsCheck(g, p, pred, d);
    case TSeq(p1, p2) => NoCallsCheck(g, p1, pred, d); NoCallsCheck(g, p2, pred, d);
    case TChoice(p1, p2) => NoCallsCheck(g, p1, pred, d); NoCallsCheck(g, p2, pred, d);
    case TCapture(_, _, p) => NoCallsCheck(g, p, pred, d);
    case _ =>
  }

  lemma {:induction false} NoCallsLoops(g: seq<Tree>, t: Tree)
    requires Calls(t) == {}
    ensures CheckLoops(g, t) == CheckLoops([], t)
  {
    match t
    case TRep(p) => NoCallsCheck(g, p, PEnullable, DEPTH); NoCallsLoops(g, p);
    case TNot(p) => NoCallsLoops(g, p);
    case TAnd(p) => NoCallsLoops(g, p);
    case TBehind(_, p) => NoCallsLoops(g, p);
    case TCapture(_, _, p) => NoCallsLoops(g, p);
    case TSeq(p1, p2) => NoCallsLoops(g, p1); NoCallsLoops(g, p2);
    case TChoice(p1, p2) => NoCallsLoops(g, p1); NoCallsLoops(g, p2);
    case _ =>
  }

  lemma {:induction false} CallEnds(g: seq<Tree>, k: nat, s: seq<Byte>, i: nat, left: nat) returns (n: nat)
    requires Piece(g, TCall(k)) && i <= |s| && VerifyRule(g, TCall(k), left, false, true).Passed?
    ensures Eval(g, TCall(k), s, i, n) != Out
    decreases Height(g, TCall(k)), 1, |s| - i, left, TCall(k), 0
  {
    hide Fit;
    assert k in Calls(TCall(k));
    RuleIsPiece(g, k);
    n := PieceEnds(g, g[k], s, i, left - 1);
    n := n + 1;
  }

  lemma {:induction false} SeqPieceEnds(g: seq<Tree>, t: Tree, s: seq<Byte>, i: nat, left: nat) returns (n: nat)
    requires Piece(g, t) && !CheckLoops(g, t) && i <= |s| && t.TSeq?
    requires VerifyRule(g, t, left, false, true).Passed?
    ensures Eval(g, t, s, i, n) != Out
    decreases Height(g, t), 1, |s| - i, left, t, 0
  {
    hide CheckAux, Fit, Accepted;
    var TSeq(p1, p2) := t;
    PartIsPiece(g, t);
    n := PieceEnds(g, p1, s, i, left);
    var r := Eval(g, p1, s, i, n);
    var m := 0;
    if r.Yes? {
      var left2 := if r.j == i then left else MAXRULES + 1;
      if r.j == i { VerdictNullable(g, p1, left, false, s, i, n); }
      else { PieceVerdict(g, p2, false); }
      m := PieceEnds(g, p2, s, r.j, left2);
    }
    SeqEnds(g, t, s, i, n, m);
    n := Larger(n, m);
  }

  // ----- the analyses follow calls no deeper than the check did -----

  /** A pattern that cannot fail is nullable. */
  lemma {:induction false} NofailIsNullable(g: seq<Tree>, t: Tree, d: nat)
    requires CheckAux(g, t, PEnofail, d)
    ensures CheckAux(g, t, PEnullable, d)
    decreases Height(g, t), d, t
  {
    match t
    case TSeq(p1, p2) => NofailIsNullable(g, p1, d); NofailIsNullable(g, p2, d);
    case TChoice(p1, p2) =>
      if CheckAux(g, p1, PEnofail, d) { NofailIsNullable(g, p1, d); } else { NofailIsNullable(g, p2, d); }
    case TCapture(_, _, p) => NofailIsNullable(g, p, d);
    case TGrammar(rules) => if rules != [] { NofailIsNullable(rules, rules[0], DEPTH); }
    case TCall(k) => if d > 0 { NofailIsNullable(g, g[k], d - 1); }
    case _ =>
  }

  /** A pattern found nullable has a nullable verdict. */
  lemma {:induction false} CheckAuxVerdict(g: seq<Tree>, t: Tree, pred: Pred, left: nat, b: bool, d: nat)
    requires left <= d
    requires VerifyRule(g, t, left, b, true).Passed? && CheckAux(g, t, pred, d)
    ensures VerifyRule(g, t, left, b, true).nullable
    decreases left, t
  {
    match t
    case TNot(p) => VerdictFlag(g, p, left, true, true);
    case TAnd(p) => VerdictFlag(g, p, left, true, true);
    case TRep(p) => VerdictFlag(g, p, left, true, true);
    case TCapture(_, _, p) => CheckAuxVerdict(g, p, pred, left, b, d);
    case TCall(k) => CheckAuxVerdict(g, g[k], pred, left - 1, b, d - 1);
    case TSeq(p1, p2) =>
      CheckAuxVerdict(g, p1, pred, left, false, d);
      CheckAuxVerdict(g, p2, pred, left, b, d);
    case TChoice(p1, p2) =>
      if CheckAux(g, p1, pred, d) {
        CheckAuxVerdict(g, p1, pred, left, b, d);
        VerdictFlag(g, p2, left, true, true);
      } else {
        CheckAuxVerdict(g, p2, pred, left, VerifyRule(g, p1, left, b, true).nullable, d);
      }
    case TGrammar(rules) => if pred == PEnofail { NofailIsNullable(g, t, DEPTH); }
    case _ =>
  }

  /** Without calls there is nothing to reject. */
  lemma {:induction false} NoCallsVerdict(g: seq<Tree>, t: Tree, left: nat, b: bool)
    requires Calls(t) == {}
    ensures VerifyRule(g, t, left, b, true).Passed?
    decreases t
  {
    NotACall(t);
    match t
    case TNot(p) => NoCallsVerdict(g, p, left, true);
    case TAnd(p) => NoCallsVerdict(g, p, left, true);
    case TRep(p) => NoCallsVerdict(g, p, left, true);
    case TCapture(_, _, p) => NoCallsVerdict(g, p, left, b);
    case TSeq(p1, p2) => NoCallsVerdict(g, p1, left, false); NoCallsVerdict(g, p2, left, b);
    case TChoice(p1, p2) =>
      NoCallsVerdict(g, p1, left, b);
      NoCallsVerdict(g, p2, left, VerifyRule(g, p1, left, b, true).nullable);
    case _ =>
  }

  /** The first rule of an accepted grammar. */
  lemma FirstRule(rules: seq<Tree>)
    requires Accepted(rules)
    ensures Piece(rules, rules[0]) && VerifyRule(rules, rules[0], MAXRULES, false, true).Passed?
  {
    assert Used(rules, 0);
    RuleIsPiece(rules, 0);
  }

  /** A look-behind has no calls, so its body is a piece too. */
  lemma BehindPiece(g: seq<Tree>, t: Tree)
    requires Piece(g, t) && t.TBehind?
    ensures Piece(g, t.p) && Calls(t.p) == {}
  {
    hide Accepted, Used;
  }

  lemma CalledRule(g: seq<Tree>, k: nat)
    requires Piece(g, TCall(k))
    ensures k < |g| && Piece(g, g[k])
  {
    assert k in Calls(TCall(k));
    RuleIsPiece(g, k);
  }

  lemma {:induction false} CheckAuxEnds(g: seq<Tree>, t: Tree, pred: Pred, left: nat, b: bool, d: nat)
    requires Piece(g, t) && left <= d
    requires VerifyRule(g, t, left, b, true).Passed?
    ensures CheckEnds(g, t, pred, d)
    decreases Height(g, t), left, t
  {
    hide Fit, Accepted, Piece;
    PartIsPiece(g, t);
    match t
    case TAnd(p) => CheckAuxEnds(g, p, pred, left, true, d);
    case TCapture(_, _, p) => CheckAuxEnds(g, p, pred, left, b, d);
    case TCall(k) =>
      CalledRule(g, k);
      CheckAuxEnds(g, g[k], pred, left - 1, b, d - 1);
    case TSeq(p1, p2) =>
      CheckAuxEnds(g, p1, pred, left, false, d);
      if CheckAux(g, p1, pred, d) {
        CheckAuxVerdict(g, p1, pred, left, false, d);
        CheckAuxEnds(g, p2, pred, left, b, d);
      }
    case TChoice(p1, p2) =>
      CheckAuxEnds(g, p1, pred, left, b, d);
      CheckAuxEnds(g, p2, pred, left, VerifyRule(g, p1, left, b, true).nullable, d);
    case TGrammar(rules) =>
      if rules != [] {
        FirstRule(rules);
        CheckAuxEnds(rules, rules[0], pred, MAXRULES, false, DEPTH);
      }
    case _ =>
  }

  lemma {:induction false} GetFirstEnds(g: seq<Tree>, t: Tree, left: nat, b: bool, d: nat)
    requires Piece(g, t) && left <= d
    requires VerifyRule(g, t, left, b, true).Passed?
    ensures FirstEnds(g, t, d)
    decreases Height(g, t), left, t
  {
    hide Fit, Accepted, Piece;
    PartIsPiece(g, t);
    match t
    case TAnd(p) => GetFirstEnds(g, p, left, true, d);
    case TNot(p) => GetFirstEnds(g, p, left, true, d);
    case TBehind(_, p) =>
      BehindPiece(g, t);
      NoCallsVerdict(g, p, left, false);
      GetFirstEnds(g, p, left, false, d);
    case TRep(p) => GetFirstEnds(g, p, left, true, d);
    case TCapture(_, _, p) => GetFirstEnds(g, p, left, b, d);
    case TCall(k) =>
      CalledRule(g, k);
      GetFirstEnds(g, g[k], left - 1, b, d - 1);
    case TSeq(p1, p2) =>
      CheckAuxEnds(g, p1, PEnullable, left, false, d);
      GetFirstEnds(g, p1, left, false, d);
      if CheckAux(g, p1, PEnullable, d) {
        CheckAuxVerdict(g, p1, PEnullable, left, false, d);
        GetFirstEnds(g, p2, left, b, d);
      }
    case TChoice(p1, p2) =>
      GetFirstEnds(g, p1, left, b, d);
      GetFirstEnds(g, p2, left, VerifyRule(g, p1, left, b, true).nullable, d);
    case TGrammar(rules) =>
      if rules != [] {
        FirstRule(rules);
        GetFirstEnds(rules, rules[0], MAXRULES, false, DEPTH);
      }
    case _ =>
  }

  /** 'headfail' also asks whether the rest of a sequence can fail, which may enter MAXRULES + 1 more rules. */
  lemma {:induction false} HeadFailEnds(g: seq<Tree>, t: Tree, left: nat, b: bool, d: nat)
    requires Piece(g, t) && left + MAXRULES + 1 <= d
    requires VerifyRule(g, t, left, b, true).Passed?
    ensures HeadEnds(g, t, d)
    decreases Height(g, t), left, t
  {
    hide Fit, Accepted, Piece;
    PartIsPiece(g, t);
    match t
    case TAnd(p) => HeadFailEnds(g, p, left, true, d);
    case TCapture(_, _, p) => HeadFailEnds(g, p, left, b, d);
    case TCall(k) =>
      CalledRule(g, k);
      HeadFailEnds(g, g[k], left - 1, b, d - 1);
    case TSeq(p1, p2) =>
      PieceVerdict(g, p2, false);
      CheckAuxEnds(g, p2, PEnofail, MAXRULES + 1, false, d);
      HeadFailEnds(g, p1, left, false, d);
    case TChoice(p1, p2) =>
      HeadFailEnds(g, p1, left, b, d);
      HeadFailEnds(g, p2, left, VerifyRule(g, p1, left, b, true).nullable, d);
    case TGrammar(rules) =>
      if rules != [] {
        FirstRule(rules);
        HeadFailEnds(rules, rules[0], MAXRULES, false, DEPTH);
      }
    case _ =>
  }

  /** On the trees the code generator works on, the unbounded analyses of lpcode.c return: none of them follows more
      than DEPTH nested calls in a grammar. */
  lemma AnalysesEnd(g: seq<Tree>, t: Tree, pred: Pred)
    requires Piece(g, t)
    ensures CheckEnds(g, t, pred, DEPTH) && FirstEnds(g, t, DEPTH) && HeadEnds(g, t, DEPTH)
  {
    hide Fit, Accepted, Piece;
    PieceVerdict(g, t, false);
    CheckAuxEnds(g, t, pred, MAXRULES + 1, false, DEPTH);
    GetFirstEnds(g, t, MAXRULES + 1, false, DEPTH);
    HeadFailEnds(g, t, MAXRULES + 1, false, DEPTH);
  }
}
